/** What clients end with that reconcile until nothing is left to do: the same file
    (`reconcile` in src/runtime.rs over whole runs). */
module Agreement {
  import opened Types
  import opened Core
  import opened CommitGraph
  import opened Remote
  import opened ChunkStore
  import opened Retention
  import opened Catalog
  import opened CatalogProofs
  import opened CatalogTheorems
  import opened Execution
  import opened Convergence
  import opened Views
  import opened Maintenance
  import opened Refinement
  import opened Quiescence

  // ---- One replica ----

  /** The local side is what the known commits of the resource add up to. */
  predicate Agrees(crdt: Crdt, r: Replica, key: ResourceKey) {
    match RemoteState(crdt, r.commits, key)
    case RemoteMissing => !r.SlotOf(key).File?
    case RemoteDeleted(_) => !r.SlotOf(key).File?
    case RemotePresent(contentId, _, _) => r.SlotOf(key).File? && Digest(r.SlotOf(key).data) == contentId
    case RemoteForked(_) => false
  }

  /** There is nothing left to do exactly when the two agree. */
  lemma SettledIffAgrees(crdt: Crdt, r: Replica, kind: ResourceKind, key: ResourceKey)
    ensures PlanOf(crdt, r, kind, key).Settled() <==> Agrees(crdt, r, key)
  {
  }

  /** A reconcile that did not fail on the resource leaves agreement if and only if there
      was no conflict and no download of a first head that is not the merge. */
  lemma ReconciledReplicaAgreesIff(
    t: Task, s: Replica, indexes: Indexes, failed: set<ResourceKey>, scopes: set<ScopeId>,
    listing: map<ResourceKey, Listing>, key: ResourceKey)
    requires IsHonestTask(t, scopes, listing) && ExecutesPlan(t, scopes, s, indexes, failed)
    requires SameResource(t.state.commits) && SameResource(s.commits) && HashRecorded(t.state, key)
    requires key in t.plan && key !in failed
    ensures t.plan[key].Download? ==> Heads(t.state.commits, key) != {}
    ensures Agrees(t.crdt, s, key) <==>
            && !t.plan[key].Conflict?
            && (t.plan[key].Download? ==> FirstHeadIsMerge(t.crdt, t.state.commits, key))
  {
    HonestPlan(t, scopes, listing, key);
    ExecutedResourceIsQuiet(t, s, indexes, key);
    SettledIffAgrees(t.crdt, s, t.KindFor(key), key);
  }

  // ---- Two replicas ----

  /** The same file on both sides, or none on either. */
  predicate SameFile(a: Slot, b: Slot) {
    (a.File? <==> b.File?) && (a.File? && b.File? ==> a.data == b.data)
  }

  lemma SameCommitsSameFile(crdt: Crdt, a: Replica, b: Replica, key: ResourceKey)
    requires ResourceCommits(a.commits, key) == ResourceCommits(b.commits, key)
    requires Agrees(crdt, a, key) && Agrees(crdt, b, key)
    ensures SameFile(a.SlotOf(key), b.SlotOf(key))
  {
    RemoteStateFrame(crdt, a.commits, b.commits, key);
  }

  // ---- Whole runs ----

  /** The client holds every live commit of the resource. */
  ghost predicate HoldsLive(w: World, client: ClientId, key: ResourceKey) {
    && client in w.clients
    && forall id :: id in w.Live() && w.Live()[id].resource == key ==> id in w.clients[client].commits
  }

  /** And no removed one. */
  ghost predicate HoldsNoRemoved(w: World, client: ClientId, key: ResourceKey)
    requires client in w.clients
  {
    forall id :: id in w.clients[client].commits && w.clients[client].commits[id].resource == key ==> id !in w.removed
  }

  /** Somebody else published for the resource. */
  predicate PublishedByOthers(step: Step, client: ClientId, key: ResourceKey) {
    step.Publish? && step.client != client && exists c :: c in step.batch && c.resource == key
  }

  lemma RefreshHoldsLive(
    maintainer: ClientId, ws: seq<World>, steps: seq<Step>, i: nat, client: ClientId, scopes: set<ScopeId>,
    next: Cursors, key: ResourceKey)
    requires IsRun(maintainer, ws, steps) && i < |steps| && steps[i] == Refresh(client, scopes, next)
    requires InScope(scopes, key.scope)
    ensures HoldsLive(ws[i + 1], client, key)
  {
    var w' := ws[i + 1];
    RunTakesStep(maintainer, ws, steps, i);
    RunKeepsInv(maintainer, ws, steps, i + 1);
    forall id | id in w'.Live() && w'.Live()[id].resource == key ensures id in w'.clients[client].commits {
      var e := LiveEvent(maintainer, w', id);
      RefreshLearnsTheScopes(maintainer, ws, steps, i, client, scopes, next, e);
    }
  }

  lemma StepKeepsHoldsLive(maintainer: ClientId, w: World, w': World, step: Step, client: ClientId, key: ResourceKey)
    requires Inv(maintainer, w) && Next(maintainer, w, w', step)
    requires HoldsLive(w, client, key) && !PublishedByOthers(step, client, key)
    ensures HoldsLive(w', client, key)
  {
    if step.Publish? {
      PublishKeepsHoldsLive(maintainer, w, w', step.client, step.batch, client, key);
    } else if step.Compact? {
      CompactKeepsHoldsLive(maintainer, w, w', step.client, step.scope, step.obsolete, client, key);
    } else {
      OtherStepKeepsHoldsLive(maintainer, w, w', step, client, key);
    }
  }

  lemma OtherStepKeepsHoldsLive(
    maintainer: ClientId, w: World, w': World, step: Step, client: ClientId, key: ResourceKey)
    requires Next(maintainer, w, w', step) && !step.Publish? && !step.Compact? && HoldsLive(w, client, key)
    ensures HoldsLive(w', client, key)
  {
    if step.Refresh? {
      RefreshKeepsHoldsLive(w, w', step.client, step.scopes, step.next, client, key);
    } else {
      LocalStepKeepsHoldsLive(maintainer, w, w', step, client, key);
    }
  }

  lemma PublishKeepsHoldsLive(
    maintainer: ClientId, w: World, w': World, publisher: ClientId, batch: seq<Commit>, client: ClientId,
    key: ResourceKey)
    requires PublishStep(w, w', publisher, batch) && HoldsLive(w, client, key)
    requires publisher != client ==> forall c :: c in batch ==> c.resource != key
    ensures HoldsLive(w', client, key)
  {
    BatchIdsAreDistinct(w, publisher, batch);
    ByIdMeaning(batch);
    AddedKeepsHeld(w.published, w.removed, ById(batch), w.clients[client].commits, w'.clients[client].commits, key);
  }

  lemma AddedKeepsHeld(
    published: CommitMap, removed: set<CommitId>, added: CommitMap, own: CommitMap, own': CommitMap, key: ResourceKey)
    requires forall id :: id in published - removed && published[id].resource == key ==> id in own
    requires own' == own + added || (own' == own && forall id :: id in added ==> added[id].resource != key)
    ensures forall id :: id in (published + added) - removed && (published + added)[id].resource == key ==> id in own'
  {
    forall id | id in (published + added) - removed && (published + added)[id].resource == key ensures id in own' {
      if id !in added {
        assert id in published - removed;
      }
    }
  }

  lemma RefreshKeepsHoldsLive(
    w: World, w': World, c: ClientId, scopes: set<ScopeId>, next: Cursors, client: ClientId, key: ResourceKey)
    requires RefreshStep(w, w', c, scopes, next) && HoldsLive(w, client, key)
    ensures HoldsLive(w', client, key)
  {
  }

  lemma CompactKeepsHoldsLive(
    maintainer: ClientId, w: World, w': World, c: ClientId, scope: ScopeId, obsolete: set<CommitId>, client: ClientId,
    key: ResourceKey)
    requires CompactStep(maintainer, w, w', c, scope, obsolete) && HoldsLive(w, client, key)
    ensures HoldsLive(w', client, key)
  {
    forall id | id in w'.Live() && w'.Live()[id].resource == key ensures id in w'.clients[client].commits {
      assert id in w.Live() && w.Live()[id] == w'.Live()[id] && id !in obsolete;
    }
  }

  lemma LocalStepKeepsHoldsLive(
    maintainer: ClientId, w: World, w': World, step: Step, client: ClientId, key: ResourceKey)
    requires LocalStep(maintainer, w, w', step) && HoldsLive(w, client, key)
    ensures HoldsLive(w', client, key)
  {
    OthersKeepCommits(maintainer, w, w', step, client);
  }

  lemma OthersKeepCommits(maintainer: ClientId, w: World, w': World, step: Step, client: ClientId)
    requires LocalStep(maintainer, w, w', step) && client in w.clients
    ensures client in w'.clients && w'.clients[client].commits == w.clients[client].commits && w'.Live() == w.Live()
  {
  }

  /** What a client knew right after its refresh it knows until somebody else publishes. */
  lemma {:induction false} HoldsLiveUntilPublished(
    maintainer: ClientId, ws: seq<World>, steps: seq<Step>, i: nat, j: nat, client: ClientId, key: ResourceKey)
    requires IsRun(maintainer, ws, steps) && i <= j < |ws| && HoldsLive(ws[i], client, key)
    requires forall k: nat :: i <= k < j ==> !PublishedByOthers(steps[k], client, key)
    ensures HoldsLive(ws[j], client, key)
  {
    if i < j {
      HoldsLiveUntilPublished(maintainer, ws, steps, i, j - 1, client, key);
      RunTakesStep(maintainer, ws, steps, j - 1);
      RunKeepsInv(maintainer, ws, steps, j - 1);
      StepKeepsHoldsLive(maintainer, ws[j - 1], ws[j], steps[j - 1], client, key);
    }
  }

  /** Clients that hold the live commits of a resource and no removed one hold the same. */
  lemma KnowsExactlyTheLive(maintainer: ClientId, w: World, client: ClientId, key: ResourceKey)
    requires Inv(maintainer, w) && HoldsLive(w, client, key) && HoldsNoRemoved(w, client, key)
    ensures ResourceCommits(w.clients[client].commits, key) == ResourceCommits(w.Live(), key)
  {
    ClientKnowsPublished(maintainer, w, client);
    LiveIsKeyed(w);
    SameOfResource(w.clients[client].commits, w.Live(), w.published, key);
  }

  lemma SameOfResource(a: CommitMap, b: CommitMap, m: CommitMap, key: ResourceKey)
    requires Submap(a, m) && Submap(b, m)
    requires forall id :: id in m && m[id].resource == key ==> (id in a <==> id in b)
    ensures ResourceCommits(a, key) == ResourceCommits(b, key)
  {
  }

  /** The client refreshed the resource at step `i`, and up to `n` nobody else published
      for it. */
  ghost predicate UpToDate(steps: seq<Step>, i: nat, n: nat, client: ClientId, key: ResourceKey) {
    && i < n <= |steps|
    && steps[i].Refresh? && steps[i].client == client && InScope(steps[i].scopes, key.scope)
    && forall k: nat :: i < k < n ==> !PublishedByOthers(steps[k], client, key)
  }

  /** Convergence: in every run, two clients that are up to date about a resource, hold
      none of its removed commits and have nothing left to do about it hold the same file,
      text or binary, whatever was published concurrently before. */
  lemma SettledClientsHoldTheSameFile(
    maintainer: ClientId, ws: seq<World>, steps: seq<Step>, i: nat, j: nat, n: nat, a: ClientId, b: ClientId,
    crdt: Crdt, ra: Replica, rb: Replica, key: ResourceKey)
    requires IsRun(maintainer, ws, steps) && UpToDate(steps, i, n, a, key) && UpToDate(steps, j, n, b, key)
    requires a in ws[n].clients && ra.commits == ws[n].clients[a].commits && HoldsNoRemoved(ws[n], a, key)
    requires b in ws[n].clients && rb.commits == ws[n].clients[b].commits && HoldsNoRemoved(ws[n], b, key)
    requires Agrees(crdt, ra, key) && Agrees(crdt, rb, key)
    ensures SameFile(ra.SlotOf(key), rb.SlotOf(key))
  {
    UpToDateHoldsLive(maintainer, ws, steps, i, n, a, key);
    UpToDateHoldsLive(maintainer, ws, steps, j, n, b, key);
    RunKeepsInv(maintainer, ws, steps, n);
    KnowsExactlyTheLive(maintainer, ws[n], a, key);
    KnowsExactlyTheLive(maintainer, ws[n], b, key);
    SameCommitsSameFile(crdt, ra, rb, key);
  }

  lemma UpToDateHoldsLive(
    maintainer: ClientId, ws: seq<World>, steps: seq<Step>, i: nat, n: nat, client: ClientId, key: ResourceKey)
    requires IsRun(maintainer, ws, steps) && UpToDate(steps, i, n, client, key)
    ensures HoldsLive(ws[n], client, key)
  {
    RefreshHoldsLive(maintainer, ws, steps, i, client, steps[i].scopes, steps[i].next, key);
    HoldsLiveUntilPublished(maintainer, ws, steps, i + 1, n, client, key);
  }
}
