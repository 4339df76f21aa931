/** A reconcile as a sequence of protocol steps: refresh, at most one batch, then
    acknowledgements (`reconcile` and `execute` in src/runtime.rs). */
module Refinement {
  import opened Types
  import opened Core
  import opened CommitGraph
  import opened Binary
  import opened Remote
  import opened ChunkStore
  import opened Catalog
  import opened CatalogProofs
  import opened Execution
  import opened Convergence
  import opened Views
  import opened Maintenance
  import opened Batches
  import opened DurableRuns

  // ---- Acknowledgements ----

  ghost function WithAllAcks(w: World, client: ClientId, keys: set<ResourceKey>): World
    requires client in w.clients
  {
    w.(remote := w.remote.(acks := WithAcks(w.remote.acks, client, w.clients[client].commits, keys)))
  }

  lemma {:induction false} AcknowledgeSteps(
    maintainer: ClientId, w: World, client: ClientId, keys: set<ResourceKey>)
    returns (steps: seq<Step>)
    requires client in w.clients
    ensures Leads(maintainer, w, WithAllAcks(w, client, keys), steps)
    decreases |keys|
  {
    if keys == {} {
      steps := [];
      NoStep(maintainer, w);
      assert WithAllAcks(w, client, keys) == w;
    } else {
      var key :| key in keys;
      var rest := AcknowledgeSteps(maintainer, w, client, keys - {key});
      var mid := WithAllAcks(w, client, keys - {key});
      assert keys == (keys - {key}) + {key};
      AcknowledgeOneMore(maintainer, w, client, keys - {key}, key);
      LeadsStep(maintainer, w, mid, WithAllAcks(w, client, keys), rest, Acknowledge(client, key));
      steps := rest + [Acknowledge(client, key)];
    }
  }

  lemma AcknowledgeOneMore(maintainer: ClientId, w: World, client: ClientId, keys: set<ResourceKey>, key: ResourceKey)
    requires client in w.clients
    ensures Next(maintainer, WithAllAcks(w, client, keys), WithAllAcks(w, client, keys + {key}),
      Acknowledge(client, key))
  {
    OneMoreAck(w.remote.acks, client, w.clients[client].commits, keys, key);
  }

  // ---- The batch ----

  /** One new identifier per commit to be made. */
  ghost predicate UnpublishedIds(t: Task, w: World) {
    && (forall key :: key in Publishing(t.plan) && key in t.ids ==> t.ids[key] !in w.published)
    && (forall a, b :: (a in Publishing(t.plan) && b in Publishing(t.plan) && a in t.ids && b in t.ids
                        && t.ids[a] == t.ids[b]) ==> a == b)
  }

  /** The prepared commits are a batch of the protocol. */
  lemma PreparedIsABatch(t: Task, p: Prepared, counter: nat, w: World)
    requires IsPrepared(t, p, counter) && p.batch != []
    requires t.client in w.clients && t.client in w.counters && t.counter == w.counters[t.client]
    requires t.state.commits == w.clients[t.client].commits && UnpublishedIds(t, w)
    ensures IsBatchOf(w, t.client, p.batch)
  {
    PreparedFacts(t, p, counter);
    forall i | 0 <= i < |p.batch|
      ensures var c := p.batch[i];
              && c.author == t.client && c.id !in w.published
              && c.parents == Heads(w.clients[t.client].commits, c.resource)
              && c.resource in Publishing(t.plan) && c.resource in t.ids && c.id == t.ids[c.resource]
    {
      MadeCommit(t, p, counter, i);
    }
  }

  lemma BatchIdsAreDistinct(w: World, client: ClientId, batch: seq<Commit>)
    requires client in w.clients && client in w.counters && IsBatchOf(w, client, batch)
    ensures DistinctIds(batch)
  {
  }

  /** The world after the batch was stored and taken over. */
  ghost function AfterBatch(w: World, client: ClientId, batch: seq<Commit>, stored: Store): World
    requires client in w.clients
  {
    if batch == [] then w.(remote := stored) else AfterPublish(w, stored, client, batch)
  }

  lemma BatchSteps(
    maintainer: ClientId, t: Task, p: Prepared, counter: nat, packs: seq<Pack>, order: seq<CursorKey>, w: World,
    stored: Store)
    returns (steps: seq<Step>)
    requires IsPrepared(t, p, counter) && Uploaded(p, packs, order, w.remote, stored)
    requires t.client in w.clients && t.client in w.counters && t.counter == w.counters[t.client]
    requires t.state.commits == w.clients[t.client].commits && UnpublishedIds(t, w)
    ensures Leads(maintainer, w, AfterBatch(w, t.client, p.batch, stored), steps)
    ensures steps == if p.batch == [] then [] else [Publish(t.client, p.batch)]
  {
    if p.batch == [] {
      EmptyBatchChangesNothing(w.remote, packs, order);
      steps := [];
      NoStep(maintainer, w);
    } else {
      PreparedIsABatch(t, p, counter, w);
      BatchIsOneStep(maintainer, w, t.client, p.batch, packs, order);
      steps := [Publish(t.client, p.batch)];
    }
  }

  lemma BatchIsOneStep(
    maintainer: ClientId, w: World, client: ClientId, batch: seq<Commit>, packs: seq<Pack>, order: seq<CursorKey>)
    requires client in w.clients && client in w.counters && IsBatchOf(w, client, batch)
      && Lists(order, GroupKeys(batch))
    ensures var stored := ApplyAll(w.remote, BatchLog(CommitBatch(packs, batch), order));
            Leads(maintainer, w, AfterPublish(w, stored, client, batch), [Publish(client, batch)])
  {
    var stored := ApplyAll(w.remote, BatchLog(CommitBatch(packs, batch), order));
    BatchIdsAreDistinct(w, client, batch);
    CommitBatchPublishes(w.remote, CommitBatch(packs, batch), order);
    PublishIsAStep(maintainer, w, stored, client, batch);
    OneStep(maintainer, w, AfterPublish(w, stored, client, batch), Publish(client, batch));
  }

  lemma ListOfSome<T(!new)>(order: seq<T>, s: set<T>)
    requires Lists(order, s)
    ensures order != [] ==> s != {}
  {
    if order != [] {
      assert order[0] in s;
    }
  }

  lemma EmptyBatchChangesNothing(r: Store, packs: seq<Pack>, order: seq<CursorKey>)
    requires packs == [] && Lists(order, GroupKeys([]))
    ensures ApplyAll(r, BatchLog(CommitBatch(packs, []), order)) == r
  {
    ListOfSome(order, GroupKeys([]));
    assert BatchLog(CommitBatch(packs, []), order) == [];
  }

  /** The planned commits were made, stored and taken over. */
  ghost predicate Transferred(t: Task, counter: nat, commits: CommitMap, before: Store, stored: Store) {
    exists p :: IsPrepared(t, p, counter) && IsStored(p, before, stored) && commits == t.state.commits + ById(p.batch)
  }

  /** What `execute` leaves stored and known, whatever order it worked in. */
  ghost predicate Executed(t: Task, counter: nat, commits: CommitMap, before: Store, after: Store) {
    exists stored :: Transferred(t, counter, commits, before, stored)
                     && after == stored.(acks := WithAcks(stored.acks, t.client, commits, Unconflicted(t.plan)))
  }

  lemma TransferredBy(t: Task, p: Prepared, counter: nat, commits: CommitMap, before: Store, stored: Store)
    requires IsPrepared(t, p, counter) && IsStored(p, before, stored) && commits == t.state.commits + ById(p.batch)
    ensures Transferred(t, counter, commits, before, stored)
  {
  }

  lemma ExecutedBy(t: Task, counter: nat, commits: CommitMap, before: Store, stored: Store, after: Store)
    requires Transferred(t, counter, commits, before, stored)
    requires after == stored.(acks := WithAcks(stored.acks, t.client, commits, Unconflicted(t.plan)))
    ensures Executed(t, counter, commits, before, after)
  {
  }

  /** `w'` is `w` with the client's new commits, counter and the new remote. */
  ghost predicate ClientMoved(w: World, w': World, client: ClientId, commits: CommitMap, counter: nat, remote: Store) {
    && client in w.clients && client in w'.clients && client in w'.counters
    && w'.clients[client] == w.clients[client].(commits := commits)
    && w'.counters[client] == counter && w'.remote == remote
  }

  /** All of `execute` is a run of the protocol. */
  lemma ExecuteSteps(maintainer: ClientId, t: Task, counter: nat, commits: CommitMap, w: World, after: Store)
    returns (w': World, steps: seq<Step>)
    requires Reachable(maintainer, w) && Executed(t, counter, commits, w.remote, after)
    requires t.client in w.clients && t.client in w.counters && t.counter == w.counters[t.client]
    requires t.state.commits == w.clients[t.client].commits && UnpublishedIds(t, w)
    requires Addressed(w.Live()) && Addressed(commits)
    ensures ClientMoved(w, w', t.client, commits, counter, after) && Addressed(w'.Live())
    ensures Leads(maintainer, w, w', steps) && Reachable(maintainer, w')
    ensures Grows(w, w', Added(t.state.commits, commits))
  {
    var stored :| Transferred(t, counter, commits, w.remote, stored)
                  && after == stored.(acks := WithAcks(stored.acks, t.client, commits, Unconflicted(t.plan)));
    var p :| IsPrepared(t, p, counter) && IsStored(p, w.remote, stored) && commits == t.state.commits + ById(p.batch);
    var packs, order :| Uploaded(p, packs, order, w.remote, stored);
    var mid := AfterBatch(w, t.client, p.batch, stored);
    var a := BatchSteps(maintainer, t, p, counter, packs, order, w, stored);
    var b := AcknowledgeSteps(maintainer, mid, t.client, Unconflicted(t.plan));
    w', steps := WithAllAcks(mid, t.client, Unconflicted(t.plan)), a + b;
    LeadsOn(maintainer, w, mid, w', a, b);
    LeadsKeepsReachable(maintainer, w, w', steps);
    PreparedFacts(t, p, counter);
    AfterExecute(t.client, p.batch, counter, w, stored, Unconflicted(t.plan));
    LiveStaysAddressed(w, w', t.state.commits, ById(p.batch));
    PreparedGrows(maintainer, t, p, counter, w, w');
  }

  lemma PreparedGrows(maintainer: ClientId, t: Task, p: Prepared, counter: nat, w: World, w': World)
    requires Reachable(maintainer, w) && IsPrepared(t, p, counter)
    requires t.client in w.clients && t.client in w.counters && t.counter == w.counters[t.client]
    requires t.state.commits == w.clients[t.client].commits && UnpublishedIds(t, w)
    requires w'.published == w.published + ById(p.batch) && w'.removed == w.removed
    requires KeepsIndexed(w.remote.indexes, w'.remote.indexes)
    ensures Grows(w, w', Added(t.state.commits, t.state.commits + ById(p.batch)))
  {
    if p.batch != [] {
      PreparedIsABatch(t, p, counter, w);
    }
    BatchGrows(maintainer, w, w', t.client, p.batch);
  }

  lemma BatchGrows(maintainer: ClientId, w: World, w': World, client: ClientId, batch: seq<Commit>)
    requires Reachable(maintainer, w) && client in w.clients && client in w.counters
    requires batch == [] || IsBatchOf(w, client, batch)
    requires w'.published == w.published + ById(batch) && w'.removed == w.removed
    requires KeepsIndexed(w.remote.indexes, w'.remote.indexes)
    ensures Grows(w, w', Added(w.clients[client].commits, w.clients[client].commits + ById(batch)))
  {
    ReachableIsOk(maintainer, w);
    forall id | id in ById(batch) ensures id !in w.published {
      BatchIsUnpublished(w, client, batch, id);
    }
    NewCommitsGrow(maintainer, w, w', client, ById(batch));
  }

  lemma BatchIsUnpublished(w: World, client: ClientId, batch: seq<Commit>, id: CommitId)
    requires client in w.clients && client in w.counters && (batch == [] || IsBatchOf(w, client, batch))
      && id in ById(batch)
    ensures id !in w.published
  {
    BatchIdsAreDistinct(w, client, batch);
    ByIdMeaning(batch);
  }

  lemma NewCommitsGrow(maintainer: ClientId, w: World, w': World, client: ClientId, added: CommitMap)
    requires Inv(maintainer, w) && client in w.clients && added.Keys !! w.published.Keys
    requires w'.published == w.published + added && w'.removed == w.removed
    requires KeepsIndexed(w.remote.indexes, w'.remote.indexes)
    ensures Grows(w, w', Added(w.clients[client].commits, w.clients[client].commits + added))
  {
    HistoryHoldsAll(maintainer, w, client);
    AddedBack(w.clients[client].commits, added);
    LiveGrows(w.published, w.removed, added);
  }

  lemma HistoryHoldsAll(maintainer: ClientId, w: World, client: ClientId)
    requires Inv(maintainer, w) && client in w.clients
    ensures w.clients[client].commits.Keys <= w.published.Keys && w.removed <= w.published.Keys
  {
    assert ClientOk(w, w.clients[client]);
  }

  lemma AddedBack(before: CommitMap, added: CommitMap)
    requires added.Keys !! before.Keys
    ensures Added(before, before + added) == added
  {
  }

  lemma LiveGrows(published: CommitMap, removed: set<CommitId>, added: CommitMap)
    requires added.Keys !! removed
    ensures (published + added) - removed == (published - removed) + added
  {
  }

  lemma AfterExecute(
    client: ClientId, batch: seq<Commit>, counter: nat, w: World, stored: Store, keys: set<ResourceKey>)
    requires client in w.clients && client in w.counters && CountedTo(w.counters[client], batch, counter)
    ensures var m := w.clients[client].commits + ById(batch);
            ClientMoved(w, WithAllAcks(AfterBatch(w, client, batch, stored), client, keys), client, m, counter,
                        stored.(acks := WithAcks(stored.acks, client, m, keys)))
    ensures var w' := WithAllAcks(AfterBatch(w, client, batch, stored), client, keys);
            w'.published == w.published + ById(batch) && w'.removed == w.removed
  {
    assert ById([]) == map[];
  }

  lemma LiveStaysAddressed(w: World, w': World, m: CommitMap, added: CommitMap)
    requires Addressed(w.Live()) && Addressed(m + added)
    requires w'.published == w.published + added && w'.removed == w.removed
    ensures Addressed(w'.Live())
  {
    forall id | id in w'.Live() ensures NamesItsBytes(w'.Live()[id].change) {
      if id in added {
        assert w'.Live()[id] == (m + added)[id];
      } else {
        assert id in w.Live() && w'.Live()[id] == w.Live()[id];
      }
    }
  }

  // ---- One commit ----

  lemma UnusedIn(maintainer: ClientId, w: World, client: ClientId, id: CommitId)
    requires Reachable(maintainer, w) && client in w.clients && id !in w.published
    ensures id !in w.clients[client].commits && id !in ParentsIn(w.clients[client].commits)
  {
    ReachableIsOk(maintainer, w);
    UnpublishedIsFresh(maintainer, w, client, id);
  }

  /** One stored commit is one step of the protocol. */
  lemma PublishOneStep(maintainer: ClientId, w: World, c: Commit, packs: seq<Pack>, order: seq<CursorKey>)
    returns (w': World)
    requires Reachable(maintainer, w) && IsNextCommit(w, c.author, c) && Lists(order, GroupKeys([c]))
    requires Addressed(w.Live()) && Addressed(w.clients[c.author].commits[c.id := c])
    requires KeepsIndexed(w.remote.indexes, ApplyAll(w.remote, BatchLog(CommitBatch(packs, [c]), order)).indexes)
    ensures w'.remote == ApplyAll(w.remote, BatchLog(CommitBatch(packs, [c]), order))
      && PublishedOne(w, w', c.author, c)
    ensures Leads(maintainer, w, w', [Publish(c.author, [c])]) && Reachable(maintainer, w') && Addressed(w'.Live())
    ensures Grows(w, w', Added(w.clients[c.author].commits, w.clients[c.author].commits[c.id := c]))
  {
    ByIdOfOne(c);
    w' := PublishOne(maintainer, w, c, packs, order);
    OneStep(maintainer, w, w', Publish(c.author, [c]));
    LeadsKeepsReachable(maintainer, w, w', [Publish(c.author, [c])]);
    OneCommitStaysAddressed(w, w', w.clients[c.author].commits, c);
    OneCommitGrows(maintainer, w, w', c);
  }

  lemma OneCommitStaysAddressed(w: World, w': World, m: CommitMap, c: Commit)
    requires Addressed(w.Live()) && Addressed(m[c.id := c])
    requires w'.published == w.published + map[c.id := c] && w'.removed == w.removed
    ensures Addressed(w'.Live())
  {
    assert m + map[c.id := c] == m[c.id := c];
    LiveStaysAddressed(w, w', m, map[c.id := c]);
  }

  lemma OneCommitGrows(maintainer: ClientId, w: World, w': World, c: Commit)
    requires Reachable(maintainer, w) && c.author in w.clients && c.id !in w.published
    requires w'.published == w.published + map[c.id := c] && w'.removed == w.removed
    requires KeepsIndexed(w.remote.indexes, w'.remote.indexes)
    ensures Grows(w, w', Added(w.clients[c.author].commits, w.clients[c.author].commits[c.id := c]))
  {
    var m := w.clients[c.author].commits;
    assert m + map[c.id := c] == m[c.id := c];
    ReachableIsOk(maintainer, w);
    NewCommitsGrow(maintainer, w, w', c.author, map[c.id := c]);
  }

  lemma OnlyStep(maintainer: ClientId, w: World, w': World, step: Step)
    requires Leads(maintainer, w, w', [step])
    ensures Next(maintainer, w, w', step)
  {
    var ws :| IsTrail(maintainer, ws, [step]) && ws[0] == w && ws[|ws| - 1] == w';
    assert StepAt(maintainer, ws, [step], 0);
  }

  lemma NothingTaken(maintainer: ClientId, w: World, w': World)
    requires Leads(maintainer, w, w', [])
    ensures w' == w
  {
  }

  /** A resolution or a rollback uses up one identifier at most. */
  lemma PublishedBy(maintainer: ClientId, w: World, w': World, client: ClientId, c: Commit)
    requires Leads(maintainer, w, w', [Publish(client, [c])])
    ensures w'.published == w.published + map[c.id := c]
  {
    OnlyStep(maintainer, w, w', Publish(client, [c]));
    ByIdOfOne(c);
  }

  // ---- The plan ----

  /** A plan built for a replica is one that can be executed. */
  lemma BuiltPlanIsWellPlanned(
    crdt: Crdt, r: Replica, kinds: map<ResourceKey, ResourceKind>, scopes: set<ScopeId>,
    inventory: map<ResourceKey, ReplicaState>)
    ensures WellPlanned(BuildPlan(crdt, r, kinds, scopes, inventory), r.commits)
  {
    var plan := BuildPlan(crdt, r, kinds, scopes, inventory);
    var remote := RemotePairs(crdt, r.commits, scopes);
    forall key | key in plan
      ensures plan[key].Key() == key
      ensures plan[key].Download? ==>
        && plan[key].remote.RemotePresent? && plan[key].remote.heads != {}
        && plan[key].remote.heads <= ResourceCommits(r.commits, key).Keys
    {
      var baseline := if key in BaselinePairs(r, scopes) then Some(BaselinePairs(r, scopes)[key]) else None;
      PlannedDownload(key, StateIn(inventory, key), baseline, if key in remote then remote[key] else RemoteMissing,
                      KindOf(kinds, key));
      if key in remote {
        PresentHeads(crdt, r.commits, key);
      }
    }
  }

  lemma PlannedDownload(
    key: ResourceKey, local: ReplicaState, baseline: Option<BaselineState>, remote: RemoteResourceState,
    kind: ResourceKind)
    ensures var op := MergeTextConflict(PlanResource(key, local, baseline, remote), kind, local);
            op.Key() == key && (op.Download? ==> op.remote == remote && remote.RemotePresent?)
  {
  }

  lemma PresentHeads(crdt: Crdt, m: CommitMap, key: ResourceKey)
    ensures var remote := RemoteState(crdt, m, key);
            remote.RemotePresent? ==>
              remote.heads == Heads(m, key) != {} && remote.heads <= ResourceCommits(m, key).Keys
  {
  }

  /** For every resource in scope the built plan holds the operation planned for that
      resource alone, in the state the inventory reports. */
  lemma BuiltPlanIsPlanFor(
    crdt: Crdt, r: Replica, kinds: map<ResourceKey, ResourceKind>, scopes: set<ScopeId>,
    inventory: map<ResourceKey, ReplicaState>, key: ResourceKey)
    requires InScope(scopes, key.scope) && key in BuildPlan(crdt, r, kinds, scopes, inventory)
    ensures BuildPlan(crdt, r, kinds, scopes, inventory)[key]
            == PlanFor(crdt, r, KindOf(kinds, key), key, StateIn(inventory, key))
  {
    LookedUpInScope(crdt, r, scopes, key);
  }

  lemma LookedUpInScope(crdt: Crdt, r: Replica, scopes: set<ScopeId>, key: ResourceKey)
    requires InScope(scopes, key.scope)
    ensures (if key in BaselinePairs(r, scopes) then Some(BaselinePairs(r, scopes)[key]) else None) == r.BaselineOf(key)
    ensures (if key in RemotePairs(crdt, r.commits, scopes) then RemotePairs(crdt, r.commits, scopes)[key]
             else RemoteMissing) == RemoteState(crdt, r.commits, key)
  {
    if key !in RemotePairs(crdt, r.commits, scopes) {
      assert ResourceCommits(r.commits, key) == map[];
    }
  }

  /** The states the planner is given are those of the listed resources. */
  ghost predicate IsInventory(
    r: Replica, listing: map<ResourceKey, Listing>, inventory: map<ResourceKey, ReplicaState>)
  {
    && inventory.Keys == listing.Keys
    && forall key :: key in listing ==>
         InventoryState(listing[key], r.BaselineOf(key), r.SlotOf(key)) == Some(inventory[key])
  }

  /** The plan built in the task's state was carried out, and nothing else happened. */
  ghost predicate ExecutesPlan(t: Task, scopes: set<ScopeId>, s: Replica, indexes: Indexes, failed: set<ResourceKey>) {
    && t.plan == BuildPlan(t.crdt, t.state, t.kinds, scopes, t.inventory)
    && Progress(t, s, indexes, t.plan.Keys, failed)
  }

  /** `start` and `state` are the system and the replica right after a refresh: new
      commits and cursors for the client and nothing else. */
  ghost predicate IsRefreshOf(
    w: World, start: World, client: ClientId, scopes: set<ScopeId>, r: Replica, state: Replica)
  {
    exists next :: RefreshStep(w, start, client, scopes, next)
                   && state == r.(commits := start.clients[client].commits)
  }

  // ---- A whole reconcile ----

  /** What a reconcile leaves stored and known once its refresh and snapshots are done. */
  ghost predicate Finished(carried: bool, t: Task, counter: nat, commits: CommitMap, before: Store, after: Store) {
    if carried then Executed(t, counter, commits, before, after)
    else counter == t.counter && commits == t.state.commits && after == before
  }

  /** Those steps lead from `w` to `mid` and publish nothing. */
  ghost predicate OnlyReads(maintainer: ClientId, w: World, mid: World, steps: seq<Step>) {
    && Leads(maintainer, w, mid, steps) && Reachable(maintainer, mid)
    && mid.published == w.published && mid.removed == w.removed && mid.remote.indexes == w.remote.indexes
  }

  lemma ReadsOn(maintainer: ClientId, w: World, start: World, mid: World, refresh: Step, taken: seq<Step>)
    requires Leads(maintainer, w, start, [refresh]) && Leads(maintainer, start, mid, taken)
      && Reachable(maintainer, mid)
    requires start.published == w.published && start.removed == w.removed && start.remote == w.remote
    requires mid == start.(remote := mid.remote) && mid.remote.indexes == start.remote.indexes
    ensures OnlyReads(maintainer, w, mid, [refresh] + taken)
  {
    LeadsOn(maintainer, w, start, mid, [refresh], taken);
  }

  lemma FinishSteps(
    maintainer: ClientId, carried: bool, t: Task, counter: nat, commits: CommitMap, w: World, after: Store)
    returns (w': World, steps: seq<Step>)
    requires Reachable(maintainer, w) && Finished(carried, t, counter, commits, w.remote, after)
    requires t.client in w.clients && t.client in w.counters && t.counter == w.counters[t.client]
    requires t.state.commits == w.clients[t.client].commits && UnpublishedIds(t, w)
    requires Addressed(w.Live()) && Addressed(commits)
    ensures ClientMoved(w, w', t.client, commits, counter, after) && Addressed(w'.Live())
    ensures Leads(maintainer, w, w', steps) && Reachable(maintainer, w')
    ensures Grows(w, w', Added(t.state.commits, commits))
  {
    if carried {
      w', steps := ExecuteSteps(maintainer, t, counter, commits, w, after);
    } else {
      w', steps := w, [];
      NoStep(maintainer, w);
      assert Added(commits, commits) == map[];
    }
  }

  lemma ReconcileSteps(
    maintainer: ClientId, carried: bool, t: Task, counter: nat, commits: CommitMap, w: World, mid: World,
    steps: seq<Step>, after: Store)
    returns (w': World, steps': seq<Step>)
    requires OnlyReads(maintainer, w, mid, steps) && Finished(carried, t, counter, commits, mid.remote, after)
    requires t.client in mid.clients && t.client in mid.counters && t.counter == mid.counters[t.client]
    requires t.state.commits == mid.clients[t.client].commits && UnpublishedIds(t, mid)
    requires Addressed(mid.Live()) && Addressed(commits)
    ensures ClientMoved(mid, w', t.client, commits, counter, after) && Addressed(w'.Live())
    ensures Leads(maintainer, w, w', steps') && Reachable(maintainer, w')
    ensures Grows(w, w', Added(t.state.commits, commits))
  {
    var more;
    w', more := FinishSteps(maintainer, carried, t, counter, commits, mid, after);
    LeadsOn(maintainer, w, mid, w', steps, more);
    steps' := steps + more;
  }
}
