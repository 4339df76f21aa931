/** Over every run in which batches list their chunks and only dead packs are collected,
    every visible event can be loaded and its content read. */
module DurableRuns {
  import opened Types
  import opened CommitGraph
  import opened Binary
  import opened Remote
  import opened ChunkStore
  import opened Retention
  import opened Catalog
  import opened CatalogProofs
  import opened CatalogTheorems
  import opened Durability
  import opened Maintenance
  import opened Batches

  ghost predicate StoreOk(r: Store) {
    Durable(r) && Consistent(r.packs, r.indexes)
  }

  /** The batch was written as `commit_batch` writes it, with every chunk listed. */
  ghost predicate BatchStored(r: Store, r': Store, batch: seq<Commit>, packs: seq<Pack>, order: seq<CursorKey>) {
    && Lists(order, GroupKeys(batch)) && r' == ApplyAll(r, BatchLog(CommitBatch(packs, batch), order))
    && WellSealed(packs) && ChunksListed(r, CommitBatch(packs, batch))
  }

  function SnapshotHashes(commits: CommitMap): set<Digest> {
    set id, h | id in commits && commits[id].change.BinarySnapshot? && h in commits[id].change.chunkHashes :: h
  }

  /** The index lists a chunk of one of these snapshots. */
  ghost predicate ListsSnapshotOf(commits: CommitMap, index: PackIndex) {
    exists id, h :: id in commits && commits[id].change.BinarySnapshot? && h in commits[id].change.chunkHashes
                    && ListsHash(index, h)
  }

  /** What a step does to packs and indexes: batches bring theirs, and a collection takes
      only packs in which a caught-up client located no chunk it knows. */
  ghost predicate StoreStep(w: World, w': World, step: Step) {
    match step
    case Publish(c, batch) => exists packs, order :: BatchStored(w.remote, w'.remote, batch, packs, order)
    case Collect(c, dead) => exists found :: Collected(w, c, dead, found)
    case _ => true
  }

  ghost predicate Collected(w: World, client: ClientId, dead: set<Digest>, found: map<Digest, Location>) {
    && CaughtUp(w, client) && IsLookup(w.remote.indexes, SnapshotHashes(w.clients[client].commits), found)
    && dead == DeadPacks(w.remote.packs, found)
  }

  ghost predicate StoreStepAt(ws: seq<World>, steps: seq<Step>, i: nat)
    requires |ws| == |steps| + 1 && i < |steps|
  {
    StoreStep(ws[i], ws[i + 1], steps[i])
  }

  lemma PublishKeepsStore(
    w: World, w': World, client: ClientId, batch: seq<Commit>, packs: seq<Pack>, order: seq<CursorKey>)
    requires RemoteOk(w) && StoreOk(w.remote) && client in w.clients && client in w.counters
      && IsBatchOf(w, client, batch)
    requires BatchStored(w.remote, w'.remote, batch, packs, order)
    ensures StoreOk(w'.remote)
  {
    var b := CommitBatch(packs, batch);
    BatchBounds(w, client, batch);
    forall c | c in batch ensures c.id !in w.remote.commits && c.counter > CoveredAt(w.remote, GroupKey(c)) {
      CoverIsBounded(w, GroupKey(c));
    }
    var log := BatchLog(b, order);
    assert log[..|log|] == log;
    EveryBatchPrefixIsDurable(w.remote, b, order, |log|);
  }

  /** Fewer visible events over the same packs and indexes, none of whose commits is gone. */
  lemma CompactKeepsStore(r: Store, r': Store, obsolete: set<CommitId>)
    requires StoreOk(r) && Visible(r') == (set e | e in Visible(r) && e.commitId !in obsolete)
    requires r'.packs == r.packs && r'.indexes == r.indexes && r'.commits == r.commits - obsolete
    ensures StoreOk(r')
  {
    forall e | e in Visible(r') ensures Backed(r', e) {
      assert Backed(r, e);
    }
  }

  lemma CollectKeepsStore(
    maintainer: ClientId, w: World, w': World, client: ClientId, dead: set<Digest>, found: map<Digest, Location>)
    requires Inv(maintainer, w) && StoreOk(w.remote) && Collected(w, client, dead, found)
    requires w'.remote == w.remote.(packs := w.remote.packs - dead, indexes := w.remote.indexes - dead)
    ensures StoreOk(w'.remote)
  {
    var r, r' := w.remote, w'.remote;
    var live := SnapshotHashes(w.clients[client].commits);
    GarbageCollectionKeepsLiveReads(r.packs, r.indexes, live, found, []);
    VisibleFrame(r, r');
    forall e | e in Visible(r') ensures Backed(r', e) {
      VisibleIsHeld(maintainer, w, client, e);
      LiveChunksStay(r, r', dead, live, found, e);
    }
  }

  /** What a caught-up client holds is what the remote stores. */
  lemma VisibleIsHeld(maintainer: ClientId, w: World, client: ClientId, e: CatalogEvent)
    requires Inv(maintainer, w) && Durable(w.remote) && CaughtUp(w, client) && e in Visible(w.remote)
    ensures Backed(w.remote, e)
    ensures e.commitId in w.clients[client].commits
      && w.clients[client].commits[e.commitId] == w.remote.commits[e.commitId]
  {
    LiveIsKeyed(w);
    assert ClientOk(w, w.clients[client]);
    assert e.commitId in w.Live();
  }

  lemma LiveChunksStay(
    r: Store, r': Store, dead: set<Digest>, live: set<Digest>, found: map<Digest, Location>, e: CatalogEvent)
    requires Consistent(r.packs, r.indexes) && Backed(r, e) && IsLookup(r.indexes, live, found)
      && dead == DeadPacks(r.packs, found)
    requires r.commits[e.commitId].change.BinarySnapshot? ==>
      forall h :: h in r.commits[e.commitId].change.chunkHashes ==> h in live
    requires r' == r.(packs := r.packs - dead, indexes := r.indexes - dead)
    ensures Backed(r', e)
  {
    var c := r.commits[e.commitId];
    if c.change.BinarySnapshot? {
      GarbageCollectionKeepsLiveReads(r.packs, r.indexes, live, found, c.change.chunkHashes);
      forall h | h in c.change.chunkHashes
        ensures exists id :: id in r'.indexes && id in r'.packs && ListsHash(r'.indexes[id], h)
      {
        var id :| id in r.indexes && id in r.packs && ListsHash(r.indexes[id], h);
        assert Indexed(r.indexes, h) && Indexed(r'.indexes, h);
        var id' :| id' in r'.indexes && ListsHash(r'.indexes[id'], h);
        assert id' in r'.packs;
      }
    }
  }

  lemma QuietStepKeepsStore(maintainer: ClientId, w: World, w': World, step: Step)
    requires Inv(maintainer, w) && StoreOk(w.remote) && Next(maintainer, w, w', step)
    requires !step.Publish? && !step.Compact? && !step.Collect?
    ensures StoreOk(w'.remote)
  {
    OnlyAcksMove(maintainer, w, w', step);
    VisibleFrame(w.remote, w'.remote);
    forall e | e in Visible(w'.remote) ensures Backed(w'.remote, e) {
      assert Backed(w.remote, e);
    }
  }

  lemma OnlyAcksMove(maintainer: ClientId, w: World, w': World, step: Step)
    requires Next(maintainer, w, w', step) && !step.Publish? && !step.Compact? && !step.Collect?
    ensures w'.remote == w.remote.(acks := w'.remote.acks)
  {
  }

  lemma CompactStepKeepsStore(maintainer: ClientId, w: World, w': World, step: Step)
    requires Inv(maintainer, w) && StoreOk(w.remote) && step.Compact? && Next(maintainer, w, w', step)
    ensures StoreOk(w'.remote)
  {
    CompactKeepsInv(maintainer, w, w', step.client, step.scope, step.obsolete);
    CompactKeepsStore(w.remote, w'.remote, step.obsolete);
  }

  lemma PublishStepKeepsStore(maintainer: ClientId, w: World, w': World, step: Step)
    requires Inv(maintainer, w) && StoreOk(w.remote) && step.Publish? && Next(maintainer, w, w', step)
    requires StoreStep(w, w', step)
    ensures StoreOk(w'.remote)
  {
    var packs, order :| BatchStored(w.remote, w'.remote, step.batch, packs, order);
    PublishKeepsStore(w, w', step.client, step.batch, packs, order);
  }

  lemma CollectStepKeepsStore(maintainer: ClientId, w: World, w': World, step: Step)
    requires Inv(maintainer, w) && StoreOk(w.remote) && step.Collect? && Next(maintainer, w, w', step)
    requires StoreStep(w, w', step)
    ensures StoreOk(w'.remote)
  {
    var found :| Collected(w, step.client, step.dead, found);
    CollectKeepsStore(maintainer, w, w', step.client, step.dead, found);
  }

  lemma StepKeepsStore(maintainer: ClientId, w: World, w': World, step: Step)
    requires Inv(maintainer, w) && StoreOk(w.remote) && Next(maintainer, w, w', step) && StoreStep(w, w', step)
    ensures StoreOk(w'.remote)
  {
    if step.Publish? {
      PublishStepKeepsStore(maintainer, w, w', step);
    } else if step.Compact? {
      CompactStepKeepsStore(maintainer, w, w', step);
    } else if step.Collect? {
      CollectStepKeepsStore(maintainer, w, w', step);
    } else {
      QuietStepKeepsStore(maintainer, w, w', step);
    }
  }

  /** At every point of every such run each visible event has its commit, and each chunk
      the commit names an index entry and a pack. */
  lemma {:induction false} EveryRunIsDurable(maintainer: ClientId, ws: seq<World>, steps: seq<Step>, i: nat)
    requires IsRun(maintainer, ws, steps) && i < |ws|
    requires forall k: nat :: k < |steps| ==> StoreStepAt(ws, steps, k)
    ensures StoreOk(ws[i].remote)
  {
    if i == 0 {
      EmptyStoreIsOk(ws[0]);
    } else {
      EveryRunIsDurable(maintainer, ws, steps, i - 1);
      RunStepKeepsStore(maintainer, ws, steps, i - 1);
    }
  }

  lemma EmptyStoreIsOk(w: World)
    requires Init(w)
    ensures StoreOk(w.remote)
  {
    assert Visible(w.remote) == {};
  }

  lemma RunStepKeepsStore(maintainer: ClientId, ws: seq<World>, steps: seq<Step>, i: nat)
    requires IsRun(maintainer, ws, steps) && i < |steps| && StoreStepAt(ws, steps, i) && StoreOk(ws[i].remote)
    ensures StoreOk(ws[i + 1].remote)
  {
    RunKeepsInv(maintainer, ws, steps, i);
    RunTakesStep(maintainer, ws, steps, i);
    StepKeepsStore(maintainer, ws[i], ws[i + 1], steps[i]);
  }

  // ---- What one call leaves ----

  function Added(before: CommitMap, after: CommitMap): CommitMap {
    map id | id in after && id !in before :: after[id]
  }

  /** Every chunk that a commit of the map names is listed. */
  ghost predicate AllListed(m: CommitMap, indexes: Indexes) {
    forall id :: id in m && m[id].change.BinarySnapshot? ==> AllIndexed(indexes, m[id].change.chunkHashes)
  }

  /** In a reachable system everything visible is stored, so it is durable exactly when
      every chunk of every live commit is listed. */
  lemma DurableIffListed(maintainer: ClientId, w: World)
    requires Reachable(maintainer, w) && Consistent(w.remote.packs, w.remote.indexes)
    ensures Durable(w.remote) <==> AllListed(w.Live(), w.remote.indexes)
  {
    ReachableIsOk(maintainer, w);
    LiveIsKeyed(w);
    if Durable(w.remote) {
      forall id | id in w.Live() && w.Live()[id].change.BinarySnapshot?
        ensures AllIndexed(w.remote.indexes, w.Live()[id].change.chunkHashes)
      {
        assert Backed(w.remote, EventOf(w.Live()[id]));
      }
    }
    if AllListed(w.Live(), w.remote.indexes) {
      forall e | e in Visible(w.remote) ensures Backed(w.remote, e) {
        assert e.commitId in w.Live() && w.remote.commits[e.commitId] == w.Live()[e.commitId];
        ListedIsStored(w.remote, w.Live()[e.commitId]);
      }
    }
  }

  lemma ListedIsStored(r: Store, c: Commit)
    requires Consistent(r.packs, r.indexes)
    requires c.change.BinarySnapshot? ==> AllIndexed(r.indexes, c.change.chunkHashes)
    ensures ChunksStored(r, c)
  {
    if c.change.BinarySnapshot? {
      forall h | h in c.change.chunkHashes
        ensures exists id :: id in r.indexes && id in r.packs && ListsHash(r.indexes[id], h)
      {
        var id :| id in r.indexes && ListsHash(r.indexes[id], h);
        assert id in r.packs;
      }
    }
  }

  /** A call added these commits, removed none and took no index away. */
  ghost predicate Grows(w: World, w': World, added: CommitMap) {
    w'.Live() == w.Live() + added && KeepsIndexed(w.remote.indexes, w'.remote.indexes)
  }

  /** After such a call a durable system is durable exactly when the chunks of what was
      published are listed. */
  lemma GrownIsDurableIff(maintainer: ClientId, w: World, w': World, added: CommitMap)
    requires Reachable(maintainer, w) && StoreOk(w.remote) && Grows(w, w', added)
    requires Reachable(maintainer, w') && Consistent(w'.remote.packs, w'.remote.indexes)
    ensures StoreOk(w'.remote) <==> AllListed(added, w'.remote.indexes)
  {
    DurableIffListed(maintainer, w);
    DurableIffListed(maintainer, w');
    if AllListed(added, w'.remote.indexes) {
      forall id | id in w'.Live() && w'.Live()[id].change.BinarySnapshot?
        ensures AllIndexed(w'.remote.indexes, w'.Live()[id].change.chunkHashes)
      {
        assert id !in added ==> w'.Live()[id] == w.Live()[id];
      }
    } else {
      var id :| id in added && added[id].change.BinarySnapshot?
                && !AllIndexed(w'.remote.indexes, added[id].change.chunkHashes);
      assert w'.Live()[id] == added[id];
    }
  }

  lemma LeadsForgetsNothing(maintainer: ClientId, w: World, w': World, more: seq<Step>)
    requires Reachable(maintainer, w) && Leads(maintainer, w, w', more)
    ensures w.removed <= w'.removed && Submap(w.published, w'.published)
  {
    var ws, steps :| IsRun(maintainer, ws, steps) && ws[|ws| - 1] == w;
    var all := LeadsExtendsRun(maintainer, ws, steps, w', more);
    assert all[|ws| - 1] == w;
    RemovedGrows(maintainer, all, steps + more, |ws| - 1, |all| - 1);
  }

  /** After maintenance a durable system is durable exactly when the chunks of the
      checkpoints it made are listed. */
  lemma MaintainedIsDurableIff(maintainer: ClientId, w: World, start: World, w': World, steps: seq<Step>)
    requires Reachable(maintainer, w) && StoreOk(w.remote) && IsFullRefresh(w, start, maintainer)
    requires Leads(maintainer, w, w', steps) && CaughtUp(w', maintainer)
    requires Reachable(maintainer, w') && Consistent(w'.remote.packs, w'.remote.indexes)
    requires KeepsReadable(w'.clients[maintainer].commits, w.remote.indexes, w'.remote.indexes)
    ensures maintainer in start.clients
    ensures StoreOk(w'.remote) <==>
            AllListed(Added(start.clients[maintainer].commits, w'.clients[maintainer].commits), w'.remote.indexes)
  {
    DurableIffListed(maintainer, w);
    DurableIffListed(maintainer, w');
    LeadsForgetsNothing(maintainer, w, w', steps);
    var before, after := start.clients[maintainer].commits, w'.clients[maintainer].commits;
    MaintainerHoldsTheLive(maintainer, w');
    forall id | id in w'.Live() && id in before ensures id in w.Live() && w.Live()[id] == w'.Live()[id] {
      KnownBefore(maintainer, w, start, w', id);
    }
    if AllListed(Added(before, after), w'.remote.indexes) {
      forall id | id in w'.Live() && w'.Live()[id].change.BinarySnapshot?
        ensures AllIndexed(w'.remote.indexes, w'.Live()[id].change.chunkHashes)
      {
        assert id in after && after[id] == w'.Live()[id];
        if id in before {
          assert AllIndexed(w.remote.indexes, after[id].change.chunkHashes);
        } else {
          assert Added(before, after)[id] == after[id];
        }
      }
    }
  }

  lemma MaintainerHoldsTheLive(maintainer: ClientId, w: World)
    requires Reachable(maintainer, w) && CaughtUp(w, maintainer)
    ensures w.clients[maintainer].commits == w.Live()
  {
    ReachableIsOk(maintainer, w);
    assert ClientOk(w, w.clients[maintainer]);
    SameSubmaps(w.clients[maintainer].commits, w.Live(), w.published);
  }

  lemma SameSubmaps(a: CommitMap, b: CommitMap, m: CommitMap)
    requires Submap(a, m) && Submap(b, m) && a.Keys == b.Keys
    ensures a == b
  {
  }

  lemma KnownBefore(maintainer: ClientId, w: World, start: World, w': World, id: CommitId)
    requires Reachable(maintainer, w) && IsFullRefresh(w, start, maintainer)
    requires w.removed <= w'.removed && Submap(w.published, w'.published)
    requires id in w'.Live() && id in start.clients[maintainer].commits
    ensures id in w.Live() && w.Live()[id] == w'.Live()[id]
  {
    var next :| RefreshStep(w, start, maintainer, {}, next);
    RefreshSteps(maintainer, w, maintainer, {}, next, start.clients[maintainer]);
    ReachableIsOk(maintainer, start);
    assert ClientOk(start, start.clients[maintainer]);
  }
}
