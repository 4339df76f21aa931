/** Maintenance and reconciliation as sequences of protocol steps
    (`maintain`, `snapshot_large_catalogs` and `reconcile` in src/runtime.rs). */
module Maintenance {
  import opened Types
  import opened CommitGraph
  import opened Binary
  import opened Remote
  import opened ChunkStore
  import opened Retention
  import opened Catalog
  import opened CatalogProofs
  import opened CatalogTheorems
  import opened Execution

  // ---- Sequences of steps ----

  /** The steps lead from `w` to `w'`. */
  ghost predicate Leads(maintainer: ClientId, w: World, w': World, steps: seq<Step>) {
    exists ws :: IsTrail(maintainer, ws, steps) && ws[0] == w && ws[|ws| - 1] == w'
  }

  lemma NoStep(maintainer: ClientId, w: World)
    ensures Leads(maintainer, w, w, [])
  {
    assert IsTrail(maintainer, [w], []);
  }

  lemma OneStep(maintainer: ClientId, w: World, w': World, step: Step)
    requires Next(maintainer, w, w', step)
    ensures Leads(maintainer, w, w', [step])
  {
    assert StepAt(maintainer, [w, w'], [step], 0);
    assert IsTrail(maintainer, [w, w'], [step]);
  }

  /** Two trails that meet make one. */
  lemma TrailsJoin(maintainer: ClientId, ws: seq<World>, a: seq<Step>, vs: seq<World>, b: seq<Step>)
    requires IsTrail(maintainer, ws, a) && IsTrail(maintainer, vs, b) && ws[|ws| - 1] == vs[0]
    ensures IsTrail(maintainer, ws + vs[1..], a + b)
  {
    var all, steps := ws + vs[1..], a + b;
    forall i: nat | i < |steps| ensures StepAt(maintainer, all, steps, i) {
      if i < |a| {
        RunTakesStep(maintainer, ws, a, i);
        assert all[i] == ws[i] && all[i + 1] == ws[i + 1] && steps[i] == a[i];
      } else {
        RunTakesStep(maintainer, vs, b, i - |a|);
        assert all[i] == vs[i - |a|] && all[i + 1] == vs[i + 1 - |a|] && steps[i] == b[i - |a|];
      }
    }
  }

  lemma LeadsOn(maintainer: ClientId, w: World, mid: World, w': World, a: seq<Step>, b: seq<Step>)
    requires Leads(maintainer, w, mid, a) && Leads(maintainer, mid, w', b)
    ensures Leads(maintainer, w, w', a + b)
  {
    var ws :| IsTrail(maintainer, ws, a) && ws[0] == w && ws[|ws| - 1] == mid;
    var vs :| IsTrail(maintainer, vs, b) && vs[0] == mid && vs[|vs| - 1] == w';
    TrailsJoin(maintainer, ws, a, vs, b);
    var all := ws + vs[1..];
    assert all[0] == w && all[|all| - 1] == w';
  }

  lemma LeadsStep(maintainer: ClientId, w: World, mid: World, w': World, steps: seq<Step>, step: Step)
    requires Leads(maintainer, w, mid, steps) && Next(maintainer, mid, w', step)
    ensures Leads(maintainer, w, w', steps + [step])
  {
    OneStep(maintainer, mid, w', step);
    LeadsOn(maintainer, w, mid, w', steps, [step]);
  }

  /** What a client does in several steps extends every run that ends where it began, so
      all that holds over runs holds of it. */
  lemma LeadsExtendsRun(maintainer: ClientId, ws: seq<World>, steps: seq<Step>, w': World, more: seq<Step>)
    returns (all: seq<World>)
    requires IsRun(maintainer, ws, steps) && Leads(maintainer, ws[|ws| - 1], w', more)
    ensures IsRun(maintainer, all, steps + more) && all[..|ws|] == ws && all[|all| - 1] == w'
  {
    var vs :| IsTrail(maintainer, vs, more) && vs[0] == ws[|ws| - 1] && vs[|vs| - 1] == w';
    TrailsJoin(maintainer, ws, steps, vs, more);
    all := ws + vs[1..];
  }

  // ---- What a snapshot lists is covered or still in a segment ----

  ghost predicate InSegment(r: Store, e: CatalogEvent) {
    exists q :: q in r.segments && e in q.events
  }

  ghost predicate SnapshotsFit(r: Store) {
    forall p, e :: p in r.snapshots && e in r.snapshots[p].events ==>
      e.counter <= CoveredAt(r, e.Key()) || InSegment(r, e)
  }

  ghost predicate SystemOk(maintainer: ClientId, w: World) {
    Inv(maintainer, w) && SnapshotsFit(w.remote)
  }

  /** A visible event is covered by its snapshot or still stands in a segment. */
  lemma VisibleIsCoveredOrInSegment(r: Store, e: CatalogEvent)
    requires WellFormed(r) && SnapshotsFit(r) && e in Visible(r)
    ensures e.counter <= CoveredAt(r, e.Key()) || InSegment(r, e)
  {
    VisibleMeaning(r, e);
  }

  lemma CompactionKeepsFit(r: Store, c: Client, scope: ScopeId, obsolete: set<CommitId>, p: ScopeId, e: CatalogEvent)
    requires WellFormed(r) && SnapshotsFit(r) && JustRefreshed(r, c, scope, obsolete)
    requires forall id :: id in c.commits ==> c.commits[id].counter >= 1
    requires forall id :: id in c.commits && c.commits[id].resource.scope == scope ==>
      EventOf(c.commits[id]) in Visible(r)
    requires var r' := Compacted(r, SnapshotOf(c, scope, obsolete), obsolete);
      p in r'.snapshots && e in r'.snapshots[p].events
    ensures var r' := Compacted(r, SnapshotOf(c, scope, obsolete), obsolete);
            e.counter <= CoveredAt(r', e.Key()) || InSegment(r', e)
  {
    var r' := Compacted(r, SnapshotOf(c, scope, obsolete), obsolete);
    assert r'.snapshots[p].scope == p && e.resource.scope == p && e.counter >= 1;
    if p == scope {
      VisibleIsCoveredOrInSegment(r, e);
      assert At(ScopeCursors(c.cursors, scope), e.Key()) == At(c.cursors, e.Key());
    }
    if q :| q in r.segments && e in q.events {
      assert q.Key() == e.Key() && e.counter <= q.last;
      assert q in r'.segments || q.last <= At(r'.snapshots[scope].cursors, q.Key());
    }
  }

  lemma CompactStepKeepsFit(
    maintainer: ClientId, w: World, w': World, c: ClientId, scope: ScopeId, obsolete: set<CommitId>)
    requires SystemOk(maintainer, w) && CompactStep(maintainer, w, w', c, scope, obsolete)
    ensures SnapshotsFit(w'.remote)
  {
    var client := w.clients[c];
    assert ClientOk(w, client);
    assert client.commits.Keys !! w.removed;
    forall id | id in client.commits
      ensures client.commits[id].counter >= 1 && EventOf(client.commits[id]) in Visible(w.remote)
    {
      assert id in w.Live() && w.Live()[id] == client.commits[id];
      assert EventOf(w.Live()[id]).commitId == id;
    }
    forall p, e | p in w'.remote.snapshots && e in w'.remote.snapshots[p].events
      ensures e.counter <= CoveredAt(w'.remote, e.Key()) || InSegment(w'.remote, e)
    {
      CompactionKeepsFit(w.remote, client, scope, obsolete, p, e);
    }
  }

  lemma SegmentsOnlyGrowKeepsFit(r: Store, r': Store)
    requires SnapshotsFit(r) && r'.snapshots == r.snapshots && r.segments <= r'.segments
    ensures SnapshotsFit(r')
  {
    forall p, e | p in r'.snapshots && e in r'.snapshots[p].events
      ensures e.counter <= CoveredAt(r', e.Key()) || InSegment(r', e)
    {
      assert CoveredAt(r', e.Key()) == CoveredAt(r, e.Key());
      if q :| q in r.segments && e in q.events {
        assert q in r'.segments;
      }
    }
  }

  lemma StepKeepsSystem(maintainer: ClientId, w: World, w': World, step: Step)
    requires SystemOk(maintainer, w) && Next(maintainer, w, w', step)
    ensures SystemOk(maintainer, w')
  {
    StepKeepsInv(maintainer, w, w', step);
    if step.Compact? {
      CompactStepKeepsFit(maintainer, w, w', step.client, step.scope, step.obsolete);
    } else {
      OtherStepsKeepSnapshots(maintainer, w, w', step);
      SegmentsOnlyGrowKeepsFit(w.remote, w'.remote);
    }
  }

  lemma OtherStepsKeepSnapshots(maintainer: ClientId, w: World, w': World, step: Step)
    requires Next(maintainer, w, w', step) && !step.Compact?
    ensures w'.remote.snapshots == w.remote.snapshots && w.remote.segments <= w'.remote.segments
  {
  }

  lemma {:induction false} TrailKeepsSystem(maintainer: ClientId, ws: seq<World>, steps: seq<Step>, i: nat)
    requires IsTrail(maintainer, ws, steps) && SystemOk(maintainer, ws[0]) && i < |ws|
    ensures SystemOk(maintainer, ws[i])
  {
    if i > 0 {
      TrailKeepsSystem(maintainer, ws, steps, i - 1);
      RunTakesStep(maintainer, ws, steps, i - 1);
      StepKeepsSystem(maintainer, ws[i - 1], ws[i], steps[i - 1]);
    }
  }

  lemma LeadsKeepsSystem(maintainer: ClientId, w: World, w': World, steps: seq<Step>)
    requires SystemOk(maintainer, w) && Leads(maintainer, w, w', steps)
    ensures SystemOk(maintainer, w')
  {
    var ws :| IsTrail(maintainer, ws, steps) && ws[0] == w && ws[|ws| - 1] == w';
    TrailKeepsSystem(maintainer, ws, steps, |ws| - 1);
  }

  /** The two facts hold in every reachable state. */
  lemma RunKeepsSystem(maintainer: ClientId, ws: seq<World>, steps: seq<Step>, i: nat)
    requires IsRun(maintainer, ws, steps) && i < |ws|
    ensures SystemOk(maintainer, ws[i])
  {
    InitKeepsInv(maintainer, ws[0]);
    TrailKeepsSystem(maintainer, ws, steps, i);
  }

  ghost predicate Reachable(maintainer: ClientId, w: World) {
    exists ws, steps :: IsRun(maintainer, ws, steps) && ws[|ws| - 1] == w
  }

  lemma ReachableIsOk(maintainer: ClientId, w: World)
    requires Reachable(maintainer, w)
    ensures SystemOk(maintainer, w)
  {
    var ws, steps :| IsRun(maintainer, ws, steps) && ws[|ws| - 1] == w;
    RunKeepsSystem(maintainer, ws, steps, |ws| - 1);
  }

  lemma LeadsKeepsReachable(maintainer: ClientId, w: World, w': World, more: seq<Step>)
    requires Reachable(maintainer, w) && Leads(maintainer, w, w', more)
    ensures Reachable(maintainer, w')
  {
    var ws, steps :| IsRun(maintainer, ws, steps) && ws[|ws| - 1] == w;
    var all := LeadsExtendsRun(maintainer, ws, steps, w', more);
  }

  lemma ReachableFilesAcks(maintainer: ClientId, w: World)
    requires Reachable(maintainer, w)
    ensures AcksFiled(w.remote.acks)
  {
    ReachableIsOk(maintainer, w);
    InvMeans(maintainer, w);
  }

  // ---- A maintainer that has just refreshed everything ----

  /** The client knows every live commit and is past every snapshot. */
  ghost predicate CaughtUp(w: World, client: ClientId) {
    && client in w.clients && w.Live().Keys <= w.clients[client].commits.Keys
    && forall k: CursorKey :: CoveredAt(w.remote, k) <= At(w.clients[client].cursors, k)
  }

  /** The client's cursor is past the commit. */
  ghost predicate Past(c: Client, id: CommitId) {
    id in c.commits && c.commits[id].counter <= At(c.cursors, GroupKey(c.commits[id]))
  }

  /** A client without removed commits holds exactly the live ones after a full refresh. */
  lemma FullRefreshLearnsTheLive(w: World, c: Client, next: Cursors, c': Client)
    requires PublishedOk(w) && RemoteOk(w) && ClientOk(w, c) && MaintainerOk(w, c)
    requires RefreshesTo(w.remote, c, {}, next, c')
    ensures c'.commits == w.Live()
  {
    LiveIsKeyed(w);
    var live := w.Live();
    forall id ensures id in live <==> id in c'.commits
              ensures id in live ==> c'.commits[id] == live[id] {
      RefreshCatchesUp(w.remote, live, c, {}, next, c', id);
    }
  }

  lemma FullRefreshPassesEvents(r: Store, c: Client, next: Cursors, c': Client, e: CatalogEvent)
    requires WellFormed(r) && SnapshotsFit(r) && e in Visible(r)
    requires RefreshesTo(r, c, {}, next, c')
    ensures e.counter <= At(c'.cursors, e.Key())
  {
    VisibleIsCoveredOrInSegment(r, e);
    RefreshPasses(r, c, {}, next, c', e.Key());
    if q :| q in r.segments && e in q.events {
      assert q.Key() == e.Key() && e.counter <= q.last;
    }
  }

  lemma FullRefreshCatchesUp(maintainer: ClientId, w: World, w': World, next: Cursors)
    requires SystemOk(maintainer, w) && RefreshStep(w, w', maintainer, {}, next)
    ensures CaughtUp(w', maintainer) && AllPast(w', maintainer)
  {
    var c, c' := w.clients[maintainer], w'.clients[maintainer];
    assert ClientOk(w, c) && MaintainerOk(w, c);
    FullRefreshLearnsTheLive(w, c, next, c');
    forall k: CursorKey ensures CoveredAt(w.remote, k) <= At(c'.cursors, k) {
      RefreshPasses(w.remote, c, {}, next, c', k);
    }
    forall id | id in c'.commits ensures Past(c', id) {
      LiveIsVisible(w, id);
      FullRefreshPassesEvents(w.remote, c, next, c', EventOf(w.Live()[id]));
      assert EventOf(w.Live()[id]).Key() == GroupKey(c'.commits[id]);
    }
  }

  lemma LiveIsVisible(w: World, id: CommitId)
    requires PublishedOk(w) && RemoteOk(w) && id in w.Live()
    ensures EventOf(w.Live()[id]) in Visible(w.remote)
  {
    LiveIsKeyed(w);
    assert EventOf(w.Live()[id]).commitId == id;
  }

  /** Such a maintainer may compact any scope, now and after its own publishing. */
  lemma CaughtUpMayCompact(maintainer: ClientId, w: World, scope: ScopeId, obsolete: set<CommitId>)
    requires Inv(maintainer, w) && CaughtUp(w, maintainer)
    requires forall id :: id in obsolete ==>
      Past(w.clients[maintainer], id) && w.clients[maintainer].commits[id].resource.scope == scope
    ensures JustRefreshed(w.remote, w.clients[maintainer], scope, obsolete)
  {
    forall e | e in Visible(w.remote) ensures e.commitId in w.clients[maintainer].commits {
      assert e.commitId in w.Live();
    }
  }

  // ---- What maintenance decides about one resource ----

  /** The recorded kind, or else that of the commit with the largest identifier. */
  function RetentionKind(kinds: map<ResourceKey, ResourceKind>, commits: CommitMap, key: ResourceKey): ResourceKind {
    if key in kinds then kinds[key]
    else if commits != map[] && commits[Last(commits.Keys)].change.TextDelta? then Text
    else Binary
  }

  /** The settings of one maintenance run. `held` are the resources with a recorded
      conflict or with an operation of an interrupted run. */
  datatype Policy = Policy(keep: nat, kinds: map<ResourceKey, ResourceKind>, held: set<ResourceKey>)

  predicate Postponed(m: CommitMap, key: ResourceKey, policy: Policy) {
    |Heads(m, key)| != 1 || key in policy.held || RetentionKind(policy.kinds, ResourceCommits(m, key), key) == Text
  }

  function ObsoleteOf(c: Client, acks: map<AckKey, ResourceAck>, key: ResourceKey, keep: nat): set<CommitId>
    requires key in c.checkpoints
  {
    Obsolete(ResourceCommits(c.commits, key), keep, c.checkpoints[key], PinnedFor(acks, key))
  }

  /** Exactly when maintenance deletes history of a resource. */
  ghost predicate Droppable(
    c: Client, acks: map<AckKey, ResourceAck>, self: ClientId, key: ResourceKey, policy: Policy)
  {
    && |ResourceCommits(c.commits, key)| > policy.keep
    && !Postponed(c.commits, key, policy)
    && key in c.checkpoints
    && AllAcknowledged(c.commits, acks, c.retired, self, key, c.checkpoints[key])
  }

  ghost predicate SameAcks(acks: map<AckKey, ResourceAck>, acks': map<AckKey, ResourceAck>, key: ResourceKey) {
    forall k: AckKey :: k.resource == key ==>
      (k in acks <==> k in acks') && (k in acks && k in acks' ==> acks[k] == acks'[k])
  }

  ghost predicate AcksFiled(acks: map<AckKey, ResourceAck>) {
    forall k :: k in acks ==> acks[k].resource == k.resource && acks[k].client == k.client
  }

  ghost predicate SameRecord(c: Client, c': Client, key: ResourceKey) {
    && ResourceCommits(c'.commits, key) == ResourceCommits(c.commits, key)
    && c'.retired == c.retired && c'.cursors == c.cursors
    && (key in c'.checkpoints <==> key in c.checkpoints)
    && (key in c.checkpoints && key in c'.checkpoints ==> c'.checkpoints[key] == c.checkpoints[key])
  }

  /** Nothing maintenance looks at for this resource has changed. */
  ghost predicate Untouched(w: World, w': World, client: ClientId, key: ResourceKey) {
    && client in w.clients && client in w'.clients
    && SameRecord(w.clients[client], w'.clients[client], key)
    && SameAcks(w.remote.acks, w'.remote.acks, key)
  }

  /** A path to a commit of the resource stays inside the resource. */
  lemma {:induction false} PathBackStaysInResource(m: CommitMap, key: ResourceKey, path: seq<CommitId>)
    requires SameResource(m) && IsPath(m, path) && path[|path| - 1] in ResourceCommits(m, key)
    ensures IsPath(ResourceCommits(m, key), path) && path[0] in ResourceCommits(m, key)
  {
    if |path| > 1 {
      PathBackStaysInResource(m, key, path[1..]);
      assert path[1] in m[path[0]].parents;
      var commits := ResourceCommits(m, key);
      forall i | 0 <= i < |path| - 1 ensures path[i] in commits && path[i + 1] in commits[path[i]].parents {
        if i > 0 {
          assert path[1..][i - 1] in commits && path[1..][i] in commits[path[1..][i - 1]].parents;
        }
      }
    }
  }

  lemma ReachesFrame(m: CommitMap, m': CommitMap, key: ResourceKey, from: CommitId, to: CommitId)
    requires SameResource(m) && ResourceCommits(m, key) == ResourceCommits(m', key)
    requires to in ResourceCommits(m, key) && Reaches(m, from, to)
    ensures Reaches(m', from, to)
  {
    var path :| IsPath(m, path) && path[0] == from && path[|path| - 1] == to;
    PathBackStaysInResource(m, key, path);
    var commits := ResourceCommits(m', key);
    forall i | 0 <= i < |path| - 1 ensures path[i] in m' && path[i + 1] in m'[path[i]].parents {
      assert path[i] in commits && commits[path[i]] == m'[path[i]];
    }
    assert IsPath(m', path);
  }

  lemma AcknowledgedFrame(
    m: CommitMap, m': CommitMap, acks: map<AckKey, ResourceAck>, acks': map<AckKey, ResourceAck>, client: ClientId,
    key: ResourceKey, checkpoint: CommitId)
    requires SameResource(m) && ResourceCommits(m, key) == ResourceCommits(m', key)
      && checkpoint in ResourceCommits(m, key)
    requires AcksFiled(acks) && SameAcks(acks, acks', key)
    requires HasAcknowledged(m, acks, client, key, checkpoint)
    ensures HasAcknowledged(m', acks', client, key, checkpoint)
  {
    var k, head :| k in acks && acks[k].client == client && acks[k].resource == key
                   && head in acks[k].observedHeads && Reaches(m, head, checkpoint);
    ReachesFrame(m, m', key, head, checkpoint);
    assert k in acks' && acks'[k] == acks[k];
  }

  lemma GateFrame(
    c: Client, c': Client, acks: map<AckKey, ResourceAck>, acks': map<AckKey, ResourceAck>, self: ClientId,
    key: ResourceKey, policy: Policy)
    requires SameResource(c.commits) && CheckpointsOk(c) && AcksFiled(acks)
    requires SameRecord(c, c', key) && SameAcks(acks, acks', key)
    requires Droppable(c, acks, self, key, policy)
    ensures Droppable(c', acks', self, key, policy)
  {
    var checkpoint := c.checkpoints[key];
    assert checkpoint in ResourceCommits(c.commits, key);
    HeadsFrame(c.commits, c'.commits, key);
    forall client | client in ActiveClients(ResourceCommits(c'.commits, key), c'.retired, self)
      ensures HasAcknowledged(c'.commits, acks', client, key, checkpoint)
    {
      assert HasAcknowledged(c.commits, acks, client, key, checkpoint);
      AcknowledgedFrame(c.commits, c'.commits, acks, acks', client, key, checkpoint);
    }
  }

  lemma HeadsFrame(m: CommitMap, m': CommitMap, key: ResourceKey)
    requires ResourceCommits(m, key) == ResourceCommits(m', key)
    ensures Heads(m, key) == Heads(m', key)
  {
  }

  lemma PinnedFrame(acks: map<AckKey, ResourceAck>, acks': map<AckKey, ResourceAck>, key: ResourceKey)
    requires AcksFiled(acks) && AcksFiled(acks') && SameAcks(acks, acks', key)
    ensures PinnedFor(acks, key) == PinnedFor(acks', key)
  {
    forall id ensures id in PinnedFor(acks, key) <==> id in PinnedFor(acks', key) {
      if k :| k in acks && acks[k].resource == key && id in acks[k].pinned {
        assert k in acks' && acks'[k].resource == key && id in acks'[k].pinned;
      }
      if k :| k in acks' && acks'[k].resource == key && id in acks'[k].pinned {
        assert k in acks && acks[k].resource == key && id in acks[k].pinned;
      }
    }
  }

  lemma InvMeans(maintainer: ClientId, w: World)
    requires Inv(maintainer, w)
    ensures AcksFiled(w.remote.acks)
    ensures maintainer in w.clients ==>
      SameResource(w.clients[maintainer].commits) && CheckpointsOk(w.clients[maintainer])
  {
    forall k | k in w.remote.acks ensures w.remote.acks[k].resource == k.resource
      && w.remote.acks[k].client == k.client
    {
      assert AckOk(w, k, w.remote.acks[k]);
    }
    if maintainer in w.clients {
      assert ClientOk(w, w.clients[maintainer]);
    }
  }

  ghost predicate SameVerdict(
    c: Client, c': Client, acks: map<AckKey, ResourceAck>, acks': map<AckKey, ResourceAck>, self: ClientId,
    key: ResourceKey, policy: Policy)
  {
    && (Droppable(c, acks, self, key, policy) <==> Droppable(c', acks', self, key, policy))
    && (key in c.checkpoints && key in c'.checkpoints ==>
          ObsoleteOf(c, acks, key, policy.keep) == ObsoleteOf(c', acks', key, policy.keep))
  }

  lemma SameVerdictFor(
    c: Client, c': Client, acks: map<AckKey, ResourceAck>, acks': map<AckKey, ResourceAck>, self: ClientId,
    key: ResourceKey, policy: Policy)
    requires SameResource(c.commits) && CheckpointsOk(c) && AcksFiled(acks)
    requires SameResource(c'.commits) && CheckpointsOk(c') && AcksFiled(acks')
    requires SameRecord(c, c', key) && SameAcks(acks, acks', key)
    ensures SameVerdict(c, c', acks, acks', self, key, policy)
  {
    if Droppable(c, acks, self, key, policy) {
      GateFrame(c, c', acks, acks', self, key, policy);
    }
    if Droppable(c', acks', self, key, policy) {
      GateFrame(c', c, acks', acks, self, key, policy);
    }
    PinnedFrame(acks, acks', key);
  }

  /** The decision about an untouched resource does not depend on when it is made. */
  lemma SameDecision(maintainer: ClientId, w: World, w': World, key: ResourceKey, policy: Policy)
    requires Inv(maintainer, w) && Inv(maintainer, w') && Untouched(w, w', maintainer, key)
    ensures SameVerdict(w.clients[maintainer], w'.clients[maintainer], w.remote.acks, w'.remote.acks, maintainer, key,
      policy)
  {
    InvMeans(maintainer, w);
    InvMeans(maintainer, w');
    SameVerdictFor(w.clients[maintainer], w'.clients[maintainer], w.remote.acks, w'.remote.acks, maintainer, key,
      policy);
  }

  lemma UntouchedTrans(w: World, mid: World, w': World, client: ClientId, key: ResourceKey)
    requires Untouched(w, mid, client, key) && Untouched(mid, w', client, key)
    ensures Untouched(w, w', client, key)
  {
  }

  // ---- The steps maintenance takes ----

  ghost function AfterPublish(w: World, r': Store, client: ClientId, batch: seq<Commit>): World
    requires client in w.clients && batch != []
  {
    World(
      r',
      w.clients[client := w.clients[client].(commits := w.clients[client].commits + ById(batch))],
      w.counters[client := batch[|batch| - 1].counter],
      w.published + ById(batch),
      w.removed,
      w.rank + (map id | id in Ids(batch) :: w.clock),
      w.clock + 1)
  }

  lemma PublishIsAStep(maintainer: ClientId, w: World, r': Store, client: ClientId, batch: seq<Commit>)
    requires client in w.clients && client in w.counters && IsBatchOf(w, client, batch)
      && BatchCommitted(w.remote, r', batch)
    ensures PublishStep(w, AfterPublish(w, r', client, batch), client, batch)
    ensures Next(maintainer, w, AfterPublish(w, r', client, batch), Publish(client, batch))
  {
    assert PublishStep(w, AfterPublish(w, r', client, batch), client, batch);
  }

  lemma GrowingKeepsCaughtUp(w: World, w': World, client: ClientId, added: CommitMap)
    requires CaughtUp(w, client) && client in w'.clients
    requires w'.clients[client] == w.clients[client].(commits := w.clients[client].commits + added)
    requires w'.Live().Keys == w.Live().Keys + added.Keys && w'.remote.snapshots == w.remote.snapshots
    ensures CaughtUp(w', client)
  {
    forall k: CursorKey ensures CoveredAt(w'.remote, k) <= At(w'.clients[client].cursors, k) {
      assert CoveredAt(w'.remote, k) == CoveredAt(w.remote, k);
    }
  }

  lemma PublishKeepsCaughtUp(maintainer: ClientId, w: World, w': World, client: ClientId, batch: seq<Commit>)
    requires Inv(maintainer, w) && PublishStep(w, w', client, batch) && CaughtUp(w, client)
    ensures CaughtUp(w', client)
  {
    ClientKnowsPublished(maintainer, w, client);
    PublishKeepsHistory(w, w', client, batch);
    assert PublishStep(w, w', client, batch);
    GrowingKeepsCaughtUp(w, w', client, ById(batch));
  }

  /** One commit published by a caught-up client. */
  ghost predicate PublishedOne(w: World, w': World, client: ClientId, c: Commit) {
    && client in w.clients && client in w'.clients && client in w'.counters
    && w'.clients[client] == w.clients[client].(commits := w.clients[client].commits[c.id := c])
    && w'.remote.acks == w.remote.acks
    && w'.counters[client] == c.counter && w'.removed == w.removed && w'.published.Keys == w.published.Keys + {c.id}
  }

  ghost predicate IsNextCommit(w: World, client: ClientId, c: Commit) {
    && client in w.clients && client in w.counters
    && c.author == client && c.counter == w.counters[client] + 1 && c.id !in w.published
    && c.parents == Heads(w.clients[client].commits, c.resource)
  }

  lemma PublishOne(
    maintainer: ClientId, w: World, c: Commit, packs: seq<Pack>, order: seq<CursorKey>)
    returns (w': World)
    requires IsNextCommit(w, c.author, c) && Lists(order, GroupKeys([c]))
    ensures w'.remote == ApplyAll(w.remote, BatchLog(CommitBatch(packs, [c]), order))
    ensures PublishStep(w, w', c.author, [c]) && Next(maintainer, w, w', Publish(c.author, [c]))
    ensures PublishedOne(w, w', c.author, c)
  {
    var r' := ApplyAll(w.remote, BatchLog(CommitBatch(packs, [c]), order));
    CommitBatchPublishes(w.remote, CommitBatch(packs, [c]), order);
    OneIsABatch(w, c);
    w' := AfterPublish(w, r', c.author, [c]);
    PublishIsAStep(maintainer, w, r', c.author, [c]);
    AfterPublishOne(w, r', c);
  }

  lemma OneIsABatch(w: World, c: Commit)
    requires IsNextCommit(w, c.author, c)
    ensures IsBatchOf(w, c.author, [c])
  {
  }

  lemma AfterPublishOne(w: World, r': Store, c: Commit)
    requires c.author in w.clients && r'.acks == w.remote.acks
    ensures PublishedOne(w, AfterPublish(w, r', c.author, [c]), c.author, c)
  {
    ByIdOfOne(c);
  }

  lemma ByIdOfOne(c: Commit)
    ensures ById([c]) == map[c.id := c]
  {
    assert [c][..0] == [];
    assert ById([]) == map[];
  }

  lemma UnpublishedIsFresh(maintainer: ClientId, w: World, client: ClientId, id: CommitId)
    requires Inv(maintainer, w) && client in w.clients && id !in w.published
    ensures id !in w.clients[client].commits && id !in ParentsIn(w.clients[client].commits)
  {
    var m := w.clients[client].commits;
    assert ClientOk(w, w.clients[client]);
    forall child, p | child in m && p in m[child].parents ensures p in w.published {
      assert m[child] == w.published[child];
    }
  }

  // ---- The commits one maintenance run deletes ----

  /** What may be deleted of one resource now. */
  ghost function Doomed(c: Client, acks: map<AckKey, ResourceAck>, self: ClientId, key: ResourceKey, policy: Policy)
    : set<CommitId>
  {
    if Droppable(c, acks, self, key, policy) then ObsoleteOf(c, acks, key, policy.keep) else {}
  }

  /** Every obsolete commit of those resources among `keys` whose deletion is allowed. */
  ghost function ToDelete(
    c: Client, acks: map<AckKey, ResourceAck>, self: ClientId, keys: set<ResourceKey>, policy: Policy)
    : set<CommitId>
  {
    set id | id in c.commits && c.commits[id].resource in keys
      && id in Doomed(c, acks, self, c.commits[id].resource, policy)
  }

  lemma DoomedIsOwn(
    c: Client, acks: map<AckKey, ResourceAck>, self: ClientId, key: ResourceKey, policy: Policy, id: CommitId)
    requires id in Doomed(c, acks, self, key, policy)
    ensures id in c.commits && c.commits[id].resource == key
  {
    assert id in ResourceCommits(c.commits, key);
  }

  lemma ToDeleteStep(
    c: Client, acks: map<AckKey, ResourceAck>, self: ClientId, keys: set<ResourceKey>, key: ResourceKey, policy: Policy)
    ensures ToDelete(c, acks, self, keys + {key}, policy)
            == ToDelete(c, acks, self, keys, policy) + Doomed(c, acks, self, key, policy)
  {
    forall id | id in Doomed(c, acks, self, key, policy) ensures id in c.commits && c.commits[id].resource == key {
      DoomedIsOwn(c, acks, self, key, policy, id);
    }
  }

  ghost predicate AllUntouched(start: World, w: World, client: ClientId, ids: set<CommitId>) {
    && client in start.clients
    && forall id :: id in ids ==> id in start.clients[client].commits
                                  && Untouched(start, w, client, start.clients[client].commits[id].resource)
  }

  lemma UntouchedCommit(start: World, w: World, client: ClientId, id: CommitId)
    requires client in start.clients && id in start.clients[client].commits
    requires Untouched(start, w, client, start.clients[client].commits[id].resource)
    ensures id in w.clients[client].commits && w.clients[client].commits[id] == start.clients[client].commits[id]
    ensures Past(start.clients[client], id) ==> Past(w.clients[client], id)
  {
    var key := start.clients[client].commits[id].resource;
    assert id in ResourceCommits(start.clients[client].commits, key);
    assert id in ResourceCommits(w.clients[client].commits, key);
    assert ResourceCommits(start.clients[client].commits, key)[id] ==
      ResourceCommits(w.clients[client].commits, key)[id];
  }

  lemma LeftIsKnown(client: ClientId, start: World, w: World, left: set<CommitId>)
    requires AllUntouched(start, w, client, left) && client in w.clients
    ensures left <= w.clients[client].commits.Keys
  {
    forall id | id in left ensures id in w.clients[client].commits {
      UntouchedCommit(start, w, client, id);
    }
  }

  /** What was found obsolete right after the refresh may still be deleted when it comes to it. */
  lemma StillObsolete(
    maintainer: ClientId, start: World, w: World, keys: set<ResourceKey>, policy: Policy, id: CommitId)
    requires Inv(maintainer, start) && Inv(maintainer, w) && maintainer in start.clients
    requires id in ToDelete(start.clients[maintainer], start.remote.acks, maintainer, keys, policy)
    requires Untouched(start, w, maintainer, start.clients[maintainer].commits[id].resource)
    ensures MayDelete(w, maintainer, id, policy.keep)
  {
    var key := start.clients[maintainer].commits[id].resource;
    UntouchedCommit(start, w, maintainer, id);
    SameDecision(maintainer, start, w, key, policy);
  }

  ghost function AfterCompaction(w: World, client: ClientId, scope: ScopeId, obsolete: set<CommitId>): World
    requires client in w.clients
  {
    var c := w.clients[client];
    WithClient(w, client, c.(
      commits := c.commits - obsolete,
      checkpoints := KeptCheckpoints(c.checkpoints, scope, obsolete)))
    .(remote := Compacted(w.remote, SnapshotOf(c, scope, obsolete), obsolete),
      removed := w.removed + obsolete)
  }

  lemma CompactionIsAStep(maintainer: ClientId, w: World, scope: ScopeId, obsolete: set<CommitId>, n: nat)
    requires maintainer in w.clients && JustRefreshed(w.remote, w.clients[maintainer], scope, obsolete)
    requires MayDeleteAll(w, maintainer, obsolete, n)
    ensures Leads(maintainer, w, AfterCompaction(w, maintainer, scope, obsolete),
      [Compact(maintainer, scope, obsolete)])
  {
    OneStep(maintainer, w, AfterCompaction(w, maintainer, scope, obsolete), Compact(maintainer, scope, obsolete));
    assert CompactStep(maintainer, w, AfterCompaction(w, maintainer, scope, obsolete), maintainer, scope, obsolete);
  }

  lemma CompactionKeepsCaughtUp(maintainer: ClientId, w: World, scope: ScopeId, obsolete: set<CommitId>)
    requires Inv(maintainer, w) && CaughtUp(w, maintainer)
    ensures CaughtUp(AfterCompaction(w, maintainer, scope, obsolete), maintainer)
  {
    var c, w' := w.clients[maintainer], AfterCompaction(w, maintainer, scope, obsolete);
    forall k: CursorKey ensures CoveredAt(w'.remote, k) <= At(c.cursors, k) {
      if k.scope != scope {
        assert CoveredAt(w'.remote, k) == CoveredAt(w.remote, k);
      }
    }
  }

  lemma CompactionTouchesItsScope(w: World, client: ClientId, scope: ScopeId, obsolete: set<CommitId>, key: ResourceKey)
    requires client in w.clients && key.scope != scope
    requires forall id :: id in obsolete && id in w.clients[client].commits ==>
      w.clients[client].commits[id].resource.scope == scope
    ensures Untouched(w, AfterCompaction(w, client, scope, obsolete), client, key)
  {
    var m := w.clients[client].commits;
    assert ResourceCommits(m - obsolete, key) == ResourceCommits(m, key);
  }

  // ---- Checkpoints ----

  /** `c` carries on the content of the commit `head`. */
  ghost predicate CopiesContent(crdt: Crdt, m: CommitMap, key: ResourceKey, head: CommitId, c: Commit) {
    && head in m
    && if m[head].change.Delete? then c.change.Delete?
       else exists bytes :: IsContentOf(crdt, m, key, head, bytes)
                            && c.change.BinarySnapshot? && c.change.contentId == Digest(bytes)
                               && c.change.size == |bytes|
  }

  ghost function AfterCheckpoint(w: World, client: ClientId, key: ResourceKey, id: CommitId): World
    requires client in w.clients
  {
    WithClient(w, client, w.clients[client].(checkpoints := w.clients[client].checkpoints[key := id]))
  }

  ghost function AfterAcknowledge(w: World, client: ClientId, key: ResourceKey, heads: set<CommitId>): World {
    w.(remote := w.remote.(acks := w.remote.acks[AckKey(client, key) := ResourceAck(client, key, heads, {})]))
  }

  /** A copy of the only head is the new only head, the checkpoint and acknowledged. */
  ghost predicate Checkpointed(crdt: Crdt, w: World, w': World, client: ClientId, key: ResourceKey, c: Commit) {
    && client in w.clients && client in w'.clients && c.resource == key
    && var m, m' := w.clients[client].commits, w'.clients[client].commits;
       && m' == m[c.id := c] && c.id !in m
       && Heads(m', key) == {c.id} && c.parents == Heads(m, key)
       && (forall head :: head in c.parents ==> CopiesContent(crdt, m, key, head, c))
       && w'.clients[client].checkpoints == w.clients[client].checkpoints[key := c.id]
       && w'.clients[client].cursors == w.clients[client].cursors
          && w'.clients[client].retired == w.clients[client].retired
       && w'.remote.acks == w.remote.acks[AckKey(client, key) := ResourceAck(client, key, {c.id}, {})]
       && w'.published.Keys == w.published.Keys + {c.id} && w'.removed == w.removed
  }

  /** `c` is the client's next commit, a copy of all heads of the resource. */
  ghost predicate IsCopyOfHeads(
    crdt: Crdt, m: CommitMap, c: Commit, id: CommitId, key: ResourceKey, client: ClientId, counter: nat)
  {
    && c.id == id && c.resource == key && c.author == client && c.counter == counter && c.parents == Heads(m, key)
    && forall head :: head in c.parents ==> CopiesContent(crdt, m, key, head, c)
  }

  function StoredCheckpoint(r: Store, c: Commit, packs: seq<Pack>, order: seq<CursorKey>): Store {
    var stored := ApplyAll(r, BatchLog(CommitBatch(packs, [c]), order));
    stored.(acks := stored.acks[AckKey(c.author, c.resource) := ResourceAck(c.author, c.resource, {c.id}, {})])
  }

  lemma CheckpointSteps(crdt: Crdt, maintainer: ClientId, w: World, c: Commit, packs: seq<Pack>, order: seq<CursorKey>)
    returns (w': World, steps: seq<Step>)
    requires Reachable(maintainer, w) && CaughtUp(w, maintainer) && maintainer in w.counters && c.id !in w.published
    requires IsCopyOfHeads(crdt, w.clients[maintainer].commits, c, c.id, c.resource, maintainer,
      w.counters[maintainer] + 1)
    requires Lists(order, GroupKeys([c]))
    ensures w'.remote == StoredCheckpoint(w.remote, c, packs, order)
    ensures Leads(maintainer, w, w', steps) && Reachable(maintainer, w') && CaughtUp(w', maintainer)
    ensures Checkpointed(crdt, w, w', maintainer, c.resource, c)
    ensures maintainer in w'.counters && w'.counters[maintainer] == c.counter
  {
    ReachableIsOk(maintainer, w);
    var w1 := PublishOne(maintainer, w, c, packs, order);
    w', steps := CheckpointAfterPublish(crdt, maintainer, w, w1, c);
    LeadsKeepsReachable(maintainer, w, w', steps);
  }

  lemma CheckpointAfterPublish(
    crdt: Crdt, maintainer: ClientId, w: World, w1: World, c: Commit)
    returns (w': World, steps: seq<Step>)
    requires SystemOk(maintainer, w) && CaughtUp(w, maintainer) && c.author == maintainer
    requires IsNextCommit(w, maintainer, c)
    requires forall head :: head in c.parents ==>
      CopiesContent(crdt, w.clients[maintainer].commits, c.resource, head, c)
    requires PublishStep(w, w1, maintainer, [c]) && Next(maintainer, w, w1, Publish(maintainer, [c]))
      && PublishedOne(w, w1, maintainer, c)
    ensures w' == AfterAcknowledge(AfterCheckpoint(w1, maintainer, c.resource, c.id), maintainer, c.resource, {c.id})
    ensures Leads(maintainer, w, w', steps) && SystemOk(maintainer, w') && CaughtUp(w', maintainer)
    ensures Checkpointed(crdt, w, w', maintainer, c.resource, c)
  {
    var key := c.resource;
    UnpublishedIsFresh(maintainer, w, maintainer, c.id);
    PublishLeavesOneHead(w.clients[maintainer].commits, c, key);
    var w2 := AfterCheckpoint(w1, maintainer, key, c.id);
    w' := AfterAcknowledge(w2, maintainer, key, {c.id});
    assert Next(maintainer, w1, w2, SetCheckpoint(maintainer, key, c.id));
    assert Next(maintainer, w2, w', Acknowledge(maintainer, key));
    steps := ThreeSteps(maintainer, w, w1, w2, w', Publish(maintainer, [c]), SetCheckpoint(maintainer, key, c.id),
      Acknowledge(maintainer, key));
    LeadsKeepsSystem(maintainer, w, w', steps);
    PublishKeepsCaughtUp(maintainer, w, w1, maintainer, [c]);
    QuietStepKeepsCaughtUp(w1, w', maintainer);
  }

  lemma ThreeSteps(maintainer: ClientId, w0: World, w1: World, w2: World, w3: World, a: Step, b: Step, c: Step)
    returns (steps: seq<Step>)
    requires Next(maintainer, w0, w1, a) && Next(maintainer, w1, w2, b) && Next(maintainer, w2, w3, c)
    ensures Leads(maintainer, w0, w3, steps)
  {
    OneStep(maintainer, w0, w1, a);
    LeadsStep(maintainer, w0, w1, w2, [a], b);
    LeadsStep(maintainer, w0, w2, w3, [a] + [b], c);
    steps := [a] + [b] + [c];
  }

  lemma QuietStepKeepsCaughtUp(w: World, w': World, client: ClientId)
    requires CaughtUp(w, client) && client in w'.clients && w'.Live() == w.Live()
    requires w'.clients[client].commits == w.clients[client].commits
      && w'.clients[client].cursors == w.clients[client].cursors
    requires w'.remote.snapshots == w.remote.snapshots
    ensures CaughtUp(w', client)
  {
    forall k: CursorKey ensures CoveredAt(w'.remote, k) <= At(w'.clients[client].cursors, k) {
      assert CoveredAt(w'.remote, k) == CoveredAt(w.remote, k);
    }
  }

  // ---- The survey of all resources ----

  /** What is found about one resource, in the order in which it is looked at. */
  datatype Verdict = Short | Postpone | NeedsCheckpoint | Waiting | Nothing | Drop(obsolete: set<CommitId>)

  /** The client's own step on one resource: at most one commit, under the given identifier. */
  ghost predicate TouchesOnly(w: World, w': World, client: ClientId, key: ResourceKey, id: CommitId) {
    && w'.removed == w.removed && w'.published.Keys <= w.published.Keys + {id}
    && client in w.clients && client in w'.clients
    && forall other :: other != key ==> Untouched(w, w', client, other)
  }

  ghost predicate Surveyed(
    maintainer: ClientId, start: World, w: World, policy: Policy, keys: set<ResourceKey>, ids: ResourceKey -> CommitId,
    todo: set<ResourceKey>, obsolete: set<CommitId>)
  {
    && maintainer in start.clients && w.removed == start.removed
    && (forall key :: key in todo ==> Untouched(start, w, maintainer, key) && ids(key) !in w.published)
    && obsolete == ToDelete(start.clients[maintainer], start.remote.acks, maintainer, keys - todo, policy)
    && AllUntouched(start, w, maintainer, obsolete)
  }

  lemma SurveyBegins(
    maintainer: ClientId, start: World, policy: Policy, keys: set<ResourceKey>, ids: ResourceKey -> CommitId)
    requires maintainer in start.clients
    requires forall key :: key in keys ==> ids(key) !in start.published
    ensures Surveyed(maintainer, start, start, policy, keys, ids, keys, {})
  {
    assert keys - keys == {};
  }

  lemma SurveyStep(
    maintainer: ClientId, start: World, w: World, w': World, policy: Policy, keys: set<ResourceKey>,
    ids: ResourceKey -> CommitId,
    todo: set<ResourceKey>, obsolete: set<CommitId>, key: ResourceKey, more: set<CommitId>)
    requires Surveyed(maintainer, start, w, policy, keys, ids, todo, obsolete) && key in todo && todo <= keys
    requires forall a, b :: ids(a) == ids(b) ==> a == b
    requires SameVerdict(start.clients[maintainer], w.clients[maintainer], start.remote.acks, w.remote.acks,
      maintainer, key, policy)
    requires TouchesOnly(w, w', maintainer, key, ids(key))
    requires more == Doomed(w.clients[maintainer], w.remote.acks, maintainer, key, policy)
    requires more != {} ==> w' == w
    ensures Surveyed(maintainer, start, w', policy, keys, ids, todo - {key}, obsolete + more)
  {
    var c, acks := start.clients[maintainer], start.remote.acks;
    ToDeleteStep(c, acks, maintainer, keys - todo, key, policy);
    assert keys - (todo - {key}) == (keys - todo) + {key};
    forall other | other in todo - {key}
      ensures Untouched(start, w', maintainer, other) && ids(other) !in w'.published
    {
      UntouchedTrans(start, w, w', maintainer, other);
    }
    SurveyKeepsFound(maintainer, start, w, w', key, obsolete, more, policy, keys - todo);
  }

  lemma SurveyKeepsFound(
    maintainer: ClientId, start: World, w: World, w': World, key: ResourceKey, obsolete: set<CommitId>,
    more: set<CommitId>,
    policy: Policy, done: set<ResourceKey>)
    requires maintainer in start.clients && maintainer in w.clients && maintainer in w'.clients && key !in done
    requires obsolete == ToDelete(start.clients[maintainer], start.remote.acks, maintainer, done, policy)
    requires AllUntouched(start, w, maintainer, obsolete) && Untouched(start, w, maintainer, key)
    requires forall other :: other != key ==> Untouched(w, w', maintainer, other)
    requires more <= ResourceCommits(start.clients[maintainer].commits, key).Keys && (more != {} ==> w' == w)
    ensures AllUntouched(start, w', maintainer, obsolete + more)
  {
    forall id | id in obsolete + more
      ensures id in start.clients[maintainer].commits
        && Untouched(start, w', maintainer, start.clients[maintainer].commits[id].resource)
    {
      if id in obsolete {
        UntouchedTrans(start, w, w', maintainer, start.clients[maintainer].commits[id].resource);
      } else {
        assert id in ResourceCommits(start.clients[maintainer].commits, key);
      }
    }
  }

  lemma CheckpointedTouchesOnly(crdt: Crdt, w: World, w': World, client: ClientId, key: ResourceKey, c: Commit)
    requires Checkpointed(crdt, w, w', client, key, c)
    ensures TouchesOnly(w, w', client, key, c.id)
  {
    var m := w.clients[client].commits;
    forall other | other != key ensures Untouched(w, w', client, other) {
      assert ResourceCommits(m[c.id := c], other) == ResourceCommits(m, other);
    }
  }

  lemma ClearSteps(maintainer: ClientId, w: World, key: ResourceKey, id: CommitId) returns (w': World, steps: seq<Step>)
    requires Reachable(maintainer, w) && CaughtUp(w, maintainer)
    ensures w' == AfterClear(w, maintainer, key)
    ensures Leads(maintainer, w, w', steps) && Reachable(maintainer, w') && CaughtUp(w', maintainer)
    ensures TouchesOnly(w, w', maintainer, key, id)
  {
    w' := AfterClear(w, maintainer, key);
    ClearIsAStep(maintainer, w, key, id);
    steps := [ClearCheckpoint(maintainer, key)];
    OneStep(maintainer, w, w', ClearCheckpoint(maintainer, key));
    LeadsKeepsReachable(maintainer, w, w', steps);
    QuietStepKeepsCaughtUp(w, w', maintainer);
  }

  ghost function AfterClear(w: World, client: ClientId, key: ResourceKey): World
    requires client in w.clients
  {
    WithClient(w, client, w.clients[client].(checkpoints := w.clients[client].checkpoints - {key}))
  }

  lemma ClearIsAStep(maintainer: ClientId, w: World, key: ResourceKey, id: CommitId)
    requires maintainer in w.clients
    ensures Next(maintainer, w, AfterClear(w, maintainer, key), ClearCheckpoint(maintainer, key))
    ensures TouchesOnly(w, AfterClear(w, maintainer, key), maintainer, key, id)
  {
  }

  // ---- Deleting what the survey found ----

  ghost predicate Deleting(
    maintainer: ClientId, start: World, w: World, policy: Policy, keys: set<ResourceKey>, obsolete: set<CommitId>,
    left: set<CommitId>)
  {
    && AllPast(start, maintainer)
    && obsolete == ToDelete(start.clients[maintainer], start.remote.acks, maintainer, keys, policy)
    && left <= obsolete && w.removed == start.removed + (obsolete - left)
    && AllUntouched(start, w, maintainer, left)
  }

  lemma DeletionIsAllowed(
    maintainer: ClientId, start: World, w: World, policy: Policy, keys: set<ResourceKey>, obsolete: set<CommitId>,
    left: set<CommitId>, scope: ScopeId, batch: set<CommitId>)
    requires Inv(maintainer, start) && Inv(maintainer, w) && CaughtUp(w, maintainer)
    requires Deleting(maintainer, start, w, policy, keys, obsolete, left) && policy.keep >= 1
    requires batch <= left
    requires forall id :: id in batch && id in w.clients[maintainer].commits ==>
      w.clients[maintainer].commits[id].resource.scope == scope
    ensures JustRefreshed(w.remote, w.clients[maintainer], scope, batch)
      && MayDeleteAll(w, maintainer, batch, policy.keep)
  {
    forall id | id in batch ensures MayDelete(w, maintainer, id, policy.keep) && Past(w.clients[maintainer], id) {
      StillObsolete(maintainer, start, w, keys, policy, id);
      UntouchedCommit(start, w, maintainer, id);
    }
    CaughtUpMayCompact(maintainer, w, scope, batch);
  }

  lemma DeleteStep(
    maintainer: ClientId, start: World, w: World, policy: Policy, keys: set<ResourceKey>, obsolete: set<CommitId>,
    left: set<CommitId>, scope: ScopeId, batch: set<CommitId>)
    requires maintainer in w.clients && Deleting(maintainer, start, w, policy, keys, obsolete, left)
    requires forall id :: id in batch <==>
      id in left && id in w.clients[maintainer].commits && w.clients[maintainer].commits[id].resource.scope == scope
    ensures Deleting(maintainer, start, AfterCompaction(w, maintainer, scope, batch), policy, keys, obsolete,
      left - batch)
  {
    RestStaysUntouched(maintainer, start, w, left, scope, batch);
    assert obsolete - (left - batch) == (obsolete - left) + batch;
  }

  lemma RestStaysUntouched(
    maintainer: ClientId, start: World, w: World, left: set<CommitId>, scope: ScopeId, batch: set<CommitId>)
    requires maintainer in w.clients && AllUntouched(start, w, maintainer, left)
    requires forall id :: id in batch <==>
      id in left && id in w.clients[maintainer].commits && w.clients[maintainer].commits[id].resource.scope == scope
    ensures AllUntouched(start, AfterCompaction(w, maintainer, scope, batch), maintainer, left - batch)
  {
    var w' := AfterCompaction(w, maintainer, scope, batch);
    forall id | id in left - batch
      ensures id in start.clients[maintainer].commits
        && Untouched(start, w', maintainer, start.clients[maintainer].commits[id].resource)
    {
      UntouchedCommit(start, w, maintainer, id);
      var key := start.clients[maintainer].commits[id].resource;
      CompactionTouchesItsScope(w, maintainer, scope, batch, key);
      UntouchedTrans(start, w, w', maintainer, key);
    }
  }

  lemma CollectSteps(maintainer: ClientId, w: World, client: ClientId, dead: set<Digest>) returns (w': World)
    requires client in w.clients && Reachable(maintainer, w)
    ensures w' == w.(remote := w.remote.(packs := w.remote.packs - dead, indexes := w.remote.indexes - dead))
    ensures Leads(maintainer, w, w', [Collect(client, dead)]) && Reachable(maintainer, w')
    ensures CaughtUp(w, client) ==> CaughtUp(w', client)
  {
    w' := w.(remote := w.remote.(packs := w.remote.packs - dead, indexes := w.remote.indexes - dead));
    OneStep(maintainer, w, w', Collect(client, dead));
    LeadsKeepsReachable(maintainer, w, w', [Collect(client, dead)]);
    if CaughtUp(w, client) {
      QuietStepKeepsCaughtUp(w, w', client);
    }
  }

  /** One scope compacted: allowed, a step of the protocol, and on the way to the rest. */
  lemma DeleteScope(
    maintainer: ClientId, start: World, w: World, policy: Policy, keys: set<ResourceKey>, obsolete: set<CommitId>,
    left: set<CommitId>, scope: ScopeId, batch: set<CommitId>)
    requires Reachable(maintainer, start) && Reachable(maintainer, w) && CaughtUp(w, maintainer)
    requires Deleting(maintainer, start, w, policy, keys, obsolete, left) && policy.keep >= 1
    requires forall id :: id in batch <==>
      id in left && id in w.clients[maintainer].commits && w.clients[maintainer].commits[id].resource.scope == scope
    ensures Leads(maintainer, w, AfterCompaction(w, maintainer, scope, batch), [Compact(maintainer, scope, batch)])
    ensures Reachable(maintainer, AfterCompaction(w, maintainer, scope, batch))
      && CaughtUp(AfterCompaction(w, maintainer, scope, batch), maintainer)
    ensures Deleting(maintainer, start, AfterCompaction(w, maintainer, scope, batch), policy, keys, obsolete,
      left - batch)
  {
    ReachableIsOk(maintainer, start);
    ReachableIsOk(maintainer, w);
    DeletionIsAllowed(maintainer, start, w, policy, keys, obsolete, left, scope, batch);
    CompactionIsAStep(maintainer, w, scope, batch, policy.keep);
    DeleteStep(maintainer, start, w, policy, keys, obsolete, left, scope, batch);
    CompactionKeepsCaughtUp(maintainer, w, scope, batch);
    LeadsKeepsReachable(maintainer, w,
      AfterCompaction(w, maintainer, scope, batch), [Compact(maintainer, scope, batch)]);
  }

  /** What a judgement made from the listed acknowledgements says of the system. */
  lemma JudgedNow(
    maintainer: ClientId, start: World, w: World, acks: map<AckKey, ResourceAck>, key: ResourceKey, policy: Policy)
    requires Reachable(maintainer, start) && Reachable(maintainer, w) && Untouched(start, w, maintainer, key)
    requires AcksFiled(acks) && SameAcks(start.remote.acks, acks, key)
    ensures SameVerdict(start.clients[maintainer], w.clients[maintainer], start.remote.acks, w.remote.acks,
      maintainer, key, policy)
    ensures SameVerdict(w.clients[maintainer], w.clients[maintainer], w.remote.acks, acks, maintainer, key, policy)
  {
    ReachableIsOk(maintainer, start);
    ReachableIsOk(maintainer, w);
    SameDecision(maintainer, start, w, key, policy);
    InvMeans(maintainer, w);
    InvMeans(maintainer, start);
    SameVerdictFor(w.clients[maintainer], w.clients[maintainer], w.remote.acks, acks, maintainer, key, policy);
  }

  lemma ListedAcksAgree(
    acks: map<AckKey, ResourceAck>, keys: set<ResourceKey>, listed: map<AckKey, ResourceAck>, key: ResourceKey)
    requires AcksFiled(acks) && key in keys
    requires listed == map k | k in acks && (keys == {} || acks[k].resource in keys) :: acks[k]
    ensures AcksFiled(listed) && SameAcks(acks, listed, key)
  {
  }

  // ---- Refreshing ----

  lemma CaughtUpLiveIsAddressed(maintainer: ClientId, w: World, client: ClientId)
    requires Reachable(maintainer, w) && CaughtUp(w, client) && Addressed(w.clients[client].commits)
    ensures Addressed(w.Live())
  {
    ReachableIsOk(maintainer, w);
    LiveIsKeyed(w);
    assert ClientOk(w, w.clients[client]);
  }

  lemma EverythingListedIsStored(maintainer: ClientId, w: World, client: ClientId, scopes: set<ScopeId>)
    requires Reachable(maintainer, w) && client in w.clients
    ensures WellFormed(w.remote)
    ensures NewIds(w.clients[client], ScanEvents(w.remote, scopes, w.clients[client].cursors)) <= w.remote.commits.Keys
  {
    ReachableIsOk(maintainer, w);
    LiveIsKeyed(w);
    assert ClientOk(w, w.clients[client]);
    forall id | id in NewIds(w.clients[client], ScanEvents(w.remote, scopes, w.clients[client].cursors))
      ensures id in w.remote.commits
    {
      NewIdsAreLive(w.remote, w.Live(), w.clients[client], scopes, id);
    }
  }

  /** A snapshot's content identifier and size are those of the bytes its chunks stand for. */
  ghost predicate NamesItsBytes(change: ResourceChange) {
    change.BinarySnapshot? ==>
      var bytes := ContentOf(change.chunkHashes); change.contentId == Digest(bytes) && change.size == |bytes|
  }

  ghost predicate Addressed(m: CommitMap) {
    forall id :: id in m ==> NamesItsBytes(m[id].change)
  }

  lemma LoadedIsLive(maintainer: ClientId, w: World, client: ClientId, scopes: set<ScopeId>, next: Cursors, c': Client)
    requires Reachable(maintainer, w) && client in w.clients
      && RefreshesTo(w.remote, w.clients[client], scopes, next, c')
    requires Addressed(w.clients[client].commits) && Addressed(w.Live())
    ensures Addressed(c'.commits)
  {
    ReachableIsOk(maintainer, w);
    LiveIsKeyed(w);
    assert ClientOk(w, w.clients[client]);
    forall id | id in c'.commits ensures NamesItsBytes(c'.commits[id].change) {
      RefreshCatchesUp(w.remote, w.Live(), w.clients[client], scopes, next, c', id);
    }
  }

  lemma RefreshSteps(maintainer: ClientId, w: World, client: ClientId, scopes: set<ScopeId>, next: Cursors, c': Client)
    requires Reachable(maintainer, w) && client in w.clients
      && RefreshesTo(w.remote, w.clients[client], scopes, next, c')
    ensures Reachable(maintainer, WithClient(w, client, c'))
      && Leads(maintainer, w, WithClient(w, client, c'), [Refresh(client, scopes, next)])
  {
    var w' := WithClient(w, client, c');
    assert RefreshStep(w, w', client, scopes, next);
    OneStep(maintainer, w, w', Refresh(client, scopes, next));
    LeadsKeepsReachable(maintainer, w, w', [Refresh(client, scopes, next)]);
  }

  ghost predicate AllPast(w: World, client: ClientId) {
    client in w.clients && forall id :: id in w.clients[client].commits ==> Past(w.clients[client], id)
  }

  lemma FullRefreshSteps(maintainer: ClientId, w: World, next: Cursors, c': Client)
    requires Reachable(maintainer, w) && maintainer in w.clients
      && RefreshesTo(w.remote, w.clients[maintainer], {}, next, c')
    ensures CaughtUp(WithClient(w, maintainer, c'), maintainer)
    ensures AllPast(WithClient(w, maintainer, c'), maintainer)
    ensures IsFullRefresh(w, WithClient(w, maintainer, c'), maintainer)
  {
    ReachableIsOk(maintainer, w);
    assert RefreshStep(w, WithClient(w, maintainer, c'), maintainer, {}, next);
    FullRefreshCatchesUp(maintainer, w, WithClient(w, maintainer, c'), next);
  }

  lemma SurveyIsDone(
    maintainer: ClientId, start: World, w: World, policy: Policy, keys: set<ResourceKey>,
    ids: ResourceKey -> CommitId, obsolete: set<CommitId>)
    requires Surveyed(maintainer, start, w, policy, keys, ids, {}, obsolete)
    requires AllPast(start, maintainer)
    ensures Deleting(maintainer, start, w, policy, keys, obsolete, obsolete)
  {
    assert keys - {} == keys;
    assert start.removed + (obsolete - obsolete) == start.removed;
  }

  ghost predicate IsFullRefresh(w: World, start: World, client: ClientId) {
    exists next :: RefreshStep(w, start, client, {}, next)
  }

  /** What a run of maintenance deletes: nothing when it failed before it came to that. */
  ghost function Deleted(ok: bool, start: World, client: ClientId, scopes: set<ScopeId>, policy: Policy): set<CommitId>
    requires client in start.clients
  {
    var c := start.clients[client];
    if ok then ToDelete(c, start.remote.acks, client, RemoteKeys(c.commits, scopes), policy) else {}
  }

  /** Every known snapshot that was readable still is. */
  ghost predicate KeepsReadable(m: CommitMap, before: map<Digest, PackIndex>, after: map<Digest, PackIndex>) {
    forall id :: id in m && m[id].change.BinarySnapshot? && AllIndexed(before, m[id].change.chunkHashes) ==>
      AllIndexed(after, m[id].change.chunkHashes)
  }

  /** Nothing a run of maintenance deletes is needed by an author of the resource that is
      not retired: it acknowledged a head on top of the checkpoint and holds both. */
  lemma DeletedIsAcknowledged(
    maintainer: ClientId, start: World, scopes: set<ScopeId>, policy: Policy, id: CommitId, author: ClientId)
    returns (key: ResourceKey, checkpoint: CommitId, head: CommitId)
    requires Reachable(maintainer, start) && maintainer in start.clients
      && id in Deleted(true, start, maintainer, scopes, policy)
    requires author in Authors(ResourceCommits(start.clients[maintainer].commits,
      start.clients[maintainer].commits[id].resource))
    requires author !in start.clients[maintainer].retired
    ensures key == start.clients[maintainer].commits[id].resource && id != checkpoint
    ensures AckKey(author, key) in start.remote.acks && head in start.remote.acks[AckKey(author, key)].observedHeads
    ensures Reaches(start.clients[maintainer].commits, head, checkpoint)
    ensures author in start.clients && checkpoint in start.clients[author].commits
      && head in start.clients[author].commits
  {
    ReachableIsOk(maintainer, start);
    InvMeans(maintainer, start);
    var c := start.clients[maintainer];
    key := c.commits[id].resource;
    checkpoint := c.checkpoints[key];
    assert HasAcknowledged(c.commits, start.remote.acks, author, key, checkpoint);
    var ack;
    ack, head := AcknowledgedHeadIsHeld(maintainer, start, key, checkpoint, author);
  }
}
