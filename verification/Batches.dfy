/** How the commits of one `execute` are prepared, stored and taken over
    (the upload half of `execute` in src/runtime.rs). */
module Batches {
  import opened Types
  import opened CommitGraph
  import opened Binary
  import opened Remote
  import opened ChunkStore
  import opened Catalog
  import opened CatalogProofs
  import opened Execution
  import opened Convergence
  import opened Views
  import opened Maintenance

  /** The chunker's contract: a contiguous partition into non-empty chunks. */
  ghost predicate CutsUp(chunks: seq<Chunk>, data: Bytes) {
    Cut(chunks) && Binary.Join(chunks) == data
  }

  lemma CutIsAddressed(chunks: seq<Chunk>, data: Bytes)
    requires CutsUp(chunks, data)
    ensures ContentOf(HashesOf(chunks)) == data
  {
    ManifestDenotesData(chunks);
  }

  lemma JoinCut(a: seq<Chunk>, b: seq<Chunk>)
    requires Cut(a) && Cut(b)
    ensures Cut(a + b)
  {
  }

  function Publishing(plan: map<ResourceKey, PlanOperation>): set<ResourceKey> {
    set key | key in plan && plan[key].Publishes()
  }

  // ---- Preparing the commits ----

  /** `c` is the commit made for the planned operation of its resource. */
  ghost predicate MadeFor(t: Task, key: ResourceKey, c: Commit) {
    key in t.plan && exists chunks :: IsMade(t, key, c, chunks)
  }

  /** A snapshot is addressed by its content, and its chunks are among the given ones. */
  ghost predicate StoresChunks(c: Commit, chunks: seq<Chunk>) {
    && NamesItsBytes(c.change)
    && (c.change.BinarySnapshot? ==> forall h :: h in c.change.chunkHashes ==> h in HashesOf(chunks))
  }

  /** What is known once some resources have been prepared. `newChunks` are the chunks of
      the snapshots among `made`, whose commits `batch` lists by counter. */
  datatype Prepared = Prepared(made: map<ResourceKey, Commit>, batch: seq<Commit>, newChunks: seq<Chunk>,
    failed: set<ResourceKey>)

  ghost predicate AllMade(t: Task, made: map<ResourceKey, Commit>, chunks: seq<Chunk>) {
    forall key :: key in made ==> MadeFor(t, key, made[key]) && StoresChunks(made[key], chunks)
  }

  ghost predicate AllFailed(t: Task, failed: set<ResourceKey>) {
    forall key :: key in failed ==> key in t.plan && UploadFails(t, key)
  }

  /** `batch` lists the made commits, one per resource. */
  ghost predicate ListsMade(batch: seq<Commit>, made: map<ResourceKey, Commit>) {
    && (forall i :: 0 <= i < |batch| ==> batch[i].resource in made && made[batch[i].resource] == batch[i])
    && (forall key :: key in made ==> made[key].resource == key && made[key] in batch)
    && (forall i, j :: 0 <= i < j < |batch| ==> batch[i].resource != batch[j].resource)
  }

  /** The batch counts up from `from` and ends at `to`. */
  ghost predicate CountedTo(from: nat, batch: seq<Commit>, to: nat) {
    Increasing(from, batch) && to == if batch == [] then from else batch[|batch| - 1].counter
  }

  predicate NoStrayChunks(p: Prepared) {
    p.batch == [] ==> p.newChunks == []
  }

  ghost predicate PreparedOk(t: Task, done: set<ResourceKey>, p: Prepared, counter: nat) {
    && p.made.Keys + p.failed == done && p.made.Keys !! p.failed
    && AllFailed(t, p.failed) && AllMade(t, p.made, p.newChunks)
    && ListsMade(p.batch, p.made) && Cut(p.newChunks) && NoStrayChunks(p)
    && CountedTo(t.counter, p.batch, counter)
  }

  /** Every upload and deletion of the plan is prepared. */
  ghost predicate IsPrepared(t: Task, p: Prepared, counter: nat) {
    forall done :: done == Publishing(t.plan) ==> PreparedOk(t, done, p, counter)
  }

  lemma PreparedNothing(t: Task)
    ensures PreparedOk(t, {}, Prepared(map[], [], [], {}), t.counter)
  {
  }

  lemma PreparedFail(t: Task, done: set<ResourceKey>, p: Prepared, counter: nat, key: ResourceKey)
    requires PreparedOk(t, done, p, counter) && key !in done && key in t.plan && UploadFails(t, key)
    ensures PreparedOk(t, done + {key}, p.(failed := p.failed + {key}), counter)
  {
  }

  lemma PreparedAdd(
    t: Task, done: set<ResourceKey>, p: Prepared, counter: nat, key: ResourceKey, c: Commit, chunks: seq<Chunk>)
    requires PreparedOk(t, done, p, counter) && key !in done && MadeFor(t, key, c)
    requires StoresChunks(c, chunks) && Cut(chunks) && c.counter == counter + 1
    ensures PreparedOk(t, done + {key},
                       Prepared(p.made[key := c], p.batch + [c], p.newChunks + chunks, p.failed), counter + 1)
  {
    assert c.resource == key && key !in p.made;
    ListsMadeStep(p.batch, p.made, c);
    CountedStep(t.counter, p.batch, counter, c);
    JoinCut(p.newChunks, chunks);
    AllMadeStep(t, p.made, p.newChunks, key, c, chunks);
    KeysStep(p.made, p.failed, done, key, c);
  }

  lemma ListsMadeStep(batch: seq<Commit>, made: map<ResourceKey, Commit>, c: Commit)
    requires ListsMade(batch, made) && c.resource !in made
    ensures ListsMade(batch + [c], made[c.resource := c])
  {
    var made' := made[c.resource := c];
    forall key | key in made' ensures made'[key].resource == key && made'[key] in batch + [c] {
      if key != c.resource {
        assert made[key] in batch;
      }
    }
  }

  lemma CountedStep(from: nat, batch: seq<Commit>, to: nat, c: Commit)
    requires CountedTo(from, batch, to) && c.counter == to + 1
    ensures CountedTo(from, batch + [c], to + 1)
  {
    var all := batch + [c];
    forall i, j | 0 <= i < j < |all| ensures all[i].counter < all[j].counter {
      assert all[i] == batch[i];
      if j < |batch| {
        assert all[j] == batch[j];
      } else if i < |batch| - 1 {
        assert batch[i].counter < batch[|batch| - 1].counter;
      }
    }
  }

  lemma AllMadeStep(
    t: Task, made: map<ResourceKey, Commit>, chunks: seq<Chunk>, key: ResourceKey, c: Commit, more: seq<Chunk>)
    requires AllMade(t, made, chunks) && MadeFor(t, key, c) && StoresChunks(c, more)
    ensures AllMade(t, made[key := c], chunks + more)
  {
    assert HashesOf(chunks + more) == HashesOf(chunks) + HashesOf(more);
  }

  lemma KeysStep(
    made: map<ResourceKey, Commit>, failed: set<ResourceKey>, done: set<ResourceKey>, key: ResourceKey, c: Commit)
    requires made.Keys + failed == done && made.Keys !! failed && key !in done
    ensures var made' := made[key := c]; made'.Keys + failed == done + {key} && made'.Keys !! failed
  {
  }

  lemma PreparedFacts(t: Task, p: Prepared, counter: nat)
    requires IsPrepared(t, p, counter)
    ensures CountedTo(t.counter, p.batch, counter) && Cut(p.newChunks) && NoStrayChunks(p)
    ensures forall i, j :: 0 <= i < j < |p.batch| ==> p.batch[i].resource != p.batch[j].resource
  {
    assert PreparedOk(t, Publishing(t.plan), p, counter);
  }

  /** Where a commit of the batch comes from. */
  lemma MadeCommit(t: Task, p: Prepared, counter: nat, i: nat)
    requires IsPrepared(t, p, counter) && i < |p.batch|
    ensures var c := p.batch[i];
            c.resource in Publishing(t.plan) && MadeFor(t, c.resource, c) && StoresChunks(c, p.newChunks)
  {
    assert PreparedOk(t, Publishing(t.plan), p, counter);
    var key := p.batch[i].resource;
    assert p.made[key] == p.batch[i];
    assert MadeFor(t, key, p.made[key]);
  }

  // ---- New commits ----

  /** Distinct commits for distinct resources, none of them known yet. */
  ghost predicate NewBatch(commits: CommitMap, batch: seq<Commit>) {
    && (forall i :: 0 <= i < |batch| ==> batch[i].id !in commits)
    && (forall i, j :: 0 <= i < j < |batch| ==> batch[i].id != batch[j].id && batch[i].resource != batch[j].resource)
  }

  /** The made commits are new, and remembering them keeps every snapshot addressed. */
  lemma MadeBatchIsNew(t: Task, p: Prepared, counter: nat)
    requires IsPrepared(t, p, counter) && Publishing(t.plan) <= t.ids.Keys && Addressed(t.state.commits)
    requires forall key :: key in Publishing(t.plan) ==> t.ids[key] !in t.state.commits
    requires forall a, b :: a in Publishing(t.plan) && b in Publishing(t.plan) && t.ids[a] == t.ids[b] ==> a == b
    ensures NewBatch(t.state.commits, p.batch)
    ensures Addressed(t.state.commits + ById(p.batch))
  {
    assert PreparedOk(t, Publishing(t.plan), p, counter);
    forall i | 0 <= i < |p.batch|
      ensures p.batch[i].resource in Publishing(t.plan) && p.batch[i].id == t.ids[p.batch[i].resource]
      ensures StoresChunks(p.batch[i], p.newChunks)
    {
      MadeCommit(t, p, counter, i);
    }
    assert NewBatch(t.state.commits, p.batch);
    BatchStaysAddressed(t.state.commits, p.batch, p.newChunks);
  }

  lemma BatchStaysAddressed(commits: CommitMap, batch: seq<Commit>, chunks: seq<Chunk>)
    requires Addressed(commits) && NewBatch(commits, batch)
    requires forall i :: 0 <= i < |batch| ==> StoresChunks(batch[i], chunks)
    ensures Addressed(commits + ById(batch))
  {
    ByIdMeaning(batch);
    forall id | id in commits + ById(batch) ensures NamesItsBytes((commits + ById(batch))[id].change) {
      if id in ById(batch) {
        var i :| 0 <= i < |batch| && batch[i] == ById(batch)[id];
        assert StoresChunks(batch[i], chunks);
      }
    }
  }

  lemma NextIsNew(commits: CommitMap, batch: seq<Commit>, i: nat)
    requires NewBatch(commits, batch) && i < |batch|
    ensures batch[i].id !in commits && batch[i].id !in commits + ById(batch[..i])
    ensures forall b :: b in batch[..i] ==> b.resource != batch[i].resource
    ensures batch[..i + 1] == batch[..i] + [batch[i]]
  {
    forall a, b | 0 <= a < b < |batch[..i]| ensures batch[..i][a].id != batch[..i][b].id {
      assert batch[a].id != batch[b].id;
    }
    ByIdMeaning(batch[..i]);
    forall b | b in batch[..i] ensures b.resource != batch[i].resource && b.id != batch[i].id {
      var k :| 0 <= k < i && batch[k] == b;
    }
  }

  // ---- Taking the batch over ----

  ghost predicate RememberedAt(t: Task, s: Replica, c: Commit, token: Token) {
    ViewOf(s, c.resource) == ViewOf(AfterCommit(t.crdt, t.state, t.PlannedFor(c.resource), c, token), c.resource)
  }

  /** `s` is the first state after the commits of `batch` were taken over one by one. */
  ghost predicate Remembered(t: Task, s: Replica, batch: seq<Commit>, tokens: seq<Token>) {
    && |tokens| == |batch| && s.commits == t.state.commits + ById(batch)
    && (forall i :: 0 <= i < |batch| ==> RememberedAt(t, s, batch[i], tokens[i]))
    && (forall key :: (forall c :: c in batch ==> c.resource != key) ==> ViewOf(s, key) == ViewOf(t.state, key))
  }

  lemma RememberStep(t: Task, s: Replica, batch: seq<Commit>, tokens: seq<Token>, c: Commit, token: Token)
    requires Remembered(t, s, batch, tokens) && c.id !in s.commits && c.id !in t.state.commits
    requires forall b :: b in batch ==> b.resource != c.resource
    ensures Remembered(t, AfterCommit(t.crdt, s, t.PlannedFor(c.resource), c, token), batch + [c], tokens + [token])
  {
    var s' := AfterCommit(t.crdt, s, t.PlannedFor(c.resource), c, token);
    RememberViews(t, s, s', batch, tokens, c, token);
    assert (batch + [c])[..|batch|] == batch;
    AfterCommitRemembers(t.crdt, s, t.PlannedFor(c.resource), c, token);
    MergeThenAdd(t.state.commits, ById(batch), c);
  }

  lemma MergeThenAdd(m: CommitMap, n: CommitMap, c: Commit)
    ensures (m + n)[c.id := c] == m + n[c.id := c]
  {
  }

  lemma RememberViews(t: Task, s: Replica, s': Replica, batch: seq<Commit>, tokens: seq<Token>, c: Commit, token: Token)
    requires Remembered(t, s, batch, tokens) && c.id !in s.commits && c.id !in t.state.commits
    requires forall b :: b in batch ==> b.resource != c.resource
    requires s' == AfterCommit(t.crdt, s, t.PlannedFor(c.resource), c, token)
    ensures forall i :: 0 <= i < |batch + [c]| ==> RememberedAt(t, s', (batch + [c])[i], (tokens + [token])[i])
    ensures forall key :: (forall b :: b in batch + [c] ==> b.resource != key) ==>
      ViewOf(s', key) == ViewOf(t.state, key)
  {
    var all := batch + [c];
    AfterCommitView(t.crdt, s, t.state, t.PlannedFor(c.resource), c, token);
    forall other | other != c.resource ensures ViewOf(s', other) == ViewOf(s, other) {
      AfterCommitElsewhere(t.crdt, s, t.PlannedFor(c.resource), c, token, other);
    }
    forall i | 0 <= i < |batch| ensures RememberedAt(t, s', batch[i], tokens[i]) {
      assert batch[i] in batch && RememberedAt(t, s, batch[i], tokens[i]);
    }
    forall key | forall b :: b in all ==> b.resource != key ensures ViewOf(s', key) == ViewOf(t.state, key) {
      assert c in all && forall b :: b in batch ==> b in all;
    }
  }

  /** Once the batch is taken over, every upload and deletion has its outcome. */
  lemma BatchProgress(t: Task, p: Prepared, counter: nat, s: Replica, tokens: seq<Token>, indexes: Indexes)
    requires IsPrepared(t, p, counter) && Remembered(t, s, p.batch, tokens)
    ensures Progress(t, s, indexes, Publishing(t.plan), p.failed)
  {
    assert PreparedOk(t, Publishing(t.plan), p, counter);
    forall key | key in Publishing(t.plan) ensures HasOutcome(t, s, indexes, key, key in p.failed) {
      if key in p.failed {
        FailedKeepsView(t, p, counter, s, tokens, key);
      } else {
        MadeHasOutcome(t, p, counter, s, tokens, key, indexes);
      }
    }
    forall key | key !in Publishing(t.plan) ensures ViewOf(s, key) == ViewOf(t.state, key) {
      FailedKeepsView(t, p, counter, s, tokens, key);
    }
  }

  lemma FailedKeepsView(t: Task, p: Prepared, counter: nat, s: Replica, tokens: seq<Token>, key: ResourceKey)
    requires IsPrepared(t, p, counter) && key !in p.made && Remembered(t, s, p.batch, tokens)
    ensures ViewOf(s, key) == ViewOf(t.state, key)
  {
    assert PreparedOk(t, Publishing(t.plan), p, counter);
    forall c | c in p.batch ensures c.resource != key {
      var i :| 0 <= i < |p.batch| && p.batch[i] == c;
      assert p.batch[i].resource in p.made;
    }
  }

  lemma MadeHasOutcome(
    t: Task, p: Prepared, counter: nat, s: Replica, tokens: seq<Token>, key: ResourceKey, indexes: Indexes)
    requires IsPrepared(t, p, counter) && key in p.made && key in Publishing(t.plan)
      && Remembered(t, s, p.batch, tokens)
    ensures HasOutcome(t, s, indexes, key, false)
  {
    var c := p.made[key];
    assert PreparedOk(t, Publishing(t.plan), p, counter);
    assert MadeFor(t, key, c);
    var chunks :| IsMade(t, key, c, chunks);
    var i :| 0 <= i < |p.batch| && p.batch[i] == c;
    assert RememberedAt(t, s, p.batch[i], tokens[i]);
    assert PublishedAs(t, s, key, c, chunks, tokens[i]);
  }

  // ---- Storing the batch ----

  /** No chunk stops being listed. */
  ghost predicate KeepsIndexed(before: Indexes, after: Indexes) {
    forall h :: Indexed(before, h) ==> Indexed(after, h)
  }

  lemma BatchStoreIsConsistent(r: Store, batch: CommitBatch, order: seq<CursorKey>)
    requires Consistent(r.packs, r.indexes) && WellSealed(batch.packs) && DistinctIds(batch.commits)
    ensures var r' := ApplyAll(r, BatchLog(batch, order));
            && Consistent(r'.packs, r'.indexes) && KeepsIndexed(r.indexes, r'.indexes)
            && r'.indexes == WithPacks(r, batch.packs).indexes
  {
    WithPacksKeepsConsistency(r, batch.packs);
    BatchWritesIndexes(r, batch, order);
  }

  ghost predicate ReadableBatch(batch: seq<Commit>, indexes: Indexes) {
    forall c :: c in batch && c.change.BinarySnapshot? ==> AllIndexed(indexes, c.change.chunkHashes)
  }

  /** When no built pack meets an index stored under its identifier, every uploaded
      snapshot can be read back. */
  lemma UploadsAreReadable(
    t: Task, p: Prepared, counter: nat, r: Store, found: set<Digest>, groups: seq<seq<Chunk>>, packs: seq<Pack>)
    requires IsPrepared(t, p, counter) && Consistent(r.packs, r.indexes) && FreshIds(packs, r.indexes)
    requires forall h :: h in found <==> h in HashesOf(p.newChunks) && Indexed(r.indexes, h)
    requires IsPacking(Missing(p.newChunks, found), groups, packs)
    ensures ReadableBatch(p.batch, WithPacks(r, packs).indexes)
  {
    assert PreparedOk(t, Publishing(t.plan), p, counter);
    PublishedIsReadableIff(r, p.newChunks, found, groups, packs);
    forall c | c in p.batch && c.change.BinarySnapshot?
      ensures AllIndexed(WithPacks(r, packs).indexes, c.change.chunkHashes)
    {
      assert StoresChunks(p.made[c.resource], p.newChunks);
    }
  }

  lemma NothingToPack(found: set<Digest>, groups: seq<seq<Chunk>>, packs: seq<Pack>)
    requires IsPacking(Missing([], found), groups, packs)
    ensures packs == []
  {
  }

  /** Storing a batch: `stored` is the remote after packs, indexes, commits and segments. */
  ghost predicate Uploaded(p: Prepared, packs: seq<Pack>, order: seq<CursorKey>, before: Store, stored: Store) {
    && Lists(order, GroupKeys(p.batch)) && stored == ApplyAll(before, BatchLog(CommitBatch(packs, p.batch), order))
    && (p.batch == [] ==> packs == []) && KeepsIndexed(before.indexes, stored.indexes)
    && (FreshIds(packs, before.indexes) ==> ReadableBatch(p.batch, stored.indexes))
  }

  /** The batch was stored with whatever packs it took, in whatever order. */
  ghost predicate IsStored(p: Prepared, before: Store, stored: Store) {
    exists packs, order :: Uploaded(p, packs, order, before, stored)
  }

  // ---- Conflicts and acknowledgements ----

  function RecordedConflicts(
    conflicts: set<ConflictRecord>, scopes: set<ScopeId>, plan: map<ResourceKey, PlanOperation>)
    : set<ConflictRecord>
  {
    (set c | c in conflicts && c.resource.scope !in scopes)
    + (set key | key in plan && plan[key].Conflict? :: plan[key].record)
  }

  /** After a reconcile of named scopes a resource of those scopes is listed if and only if
      it is in conflict now, with the record of this plan; all others are listed as before.
      A reconcile of all scopes, which names none, forgets nothing. */
  lemma RecordedConflictsMeaning(
    conflicts: set<ConflictRecord>, scopes: set<ScopeId>, plan: map<ResourceKey, PlanOperation>, c: ConflictRecord)
    requires forall key :: key in plan ==> plan[key].Key() == key
    ensures var after := RecordedConflicts(conflicts, scopes, plan);
            var now := c.resource in plan && plan[c.resource] == Conflict(c);
            && (c.resource.scope in scopes ==> (c in after <==> now))
            && (c.resource.scope !in scopes ==> (c in after <==> c in conflicts || now))
  {
  }

  lemma GlobalReconcileForgetsNoConflict(conflicts: set<ConflictRecord>, plan: map<ResourceKey, PlanOperation>)
    ensures conflicts <= RecordedConflicts(conflicts, {}, plan)
  {
  }

  function Unconflicted(plan: map<ResourceKey, PlanOperation>): set<ResourceKey> {
    set key | key in plan && !plan[key].Conflict?
  }

  /** The acknowledgements once `client` has acknowledged the heads of `keys`. */
  function WithAcks(acks: map<AckKey, ResourceAck>, client: ClientId, commits: CommitMap, keys: set<ResourceKey>)
    : map<AckKey, ResourceAck>
  {
    acks + map k: AckKey | k in (set key | key in keys :: AckKey(client, key)) ::
             ResourceAck(client, k.resource, Heads(commits, k.resource), {})
  }

  /** A carried-out plan acknowledges the known heads of every planned resource that is
      not in conflict, pins nothing, and leaves every other acknowledgement as it was. */
  lemma AcknowledgedMeaning(
    acks: map<AckKey, ResourceAck>, client: ClientId, commits: CommitMap, plan: map<ResourceKey, PlanOperation>,
    k: AckKey)
    ensures var after := WithAcks(acks, client, commits, Unconflicted(plan));
            if k.client == client && k.resource in plan && !plan[k.resource].Conflict?
            then k in after && after[k] == ResourceAck(client, k.resource, Heads(commits, k.resource), {})
            else (k in after <==> k in acks) && (k in acks ==> after[k] == acks[k])
  {
  }

  lemma AcknowledgeStep(
    acks: map<AckKey, ResourceAck>, list: seq<ResourceAck>, client: ClientId, commits: CommitMap,
    done: set<ResourceKey>,
    key: ResourceKey)
    requires PutAcks(acks, list) == WithAcks(acks, client, commits, done)
    ensures PutAcks(acks, list + [ResourceAck(client, key, Heads(commits, key), {})]) ==
      WithAcks(acks, client, commits, done + {key})
  {
    var ack := ResourceAck(client, key, Heads(commits, key), {});
    assert (list + [ack])[..|list|] == list;
    OneMoreAck(acks, client, commits, done, key);
  }

  lemma OneMoreAck(
    acks: map<AckKey, ResourceAck>, client: ClientId, commits: CommitMap, keys: set<ResourceKey>, key: ResourceKey)
    ensures WithAcks(acks, client, commits, keys + {key})
            == WithAcks(acks, client, commits,
              keys)[AckKey(client, key) := ResourceAck(client, key, Heads(commits, key), {})]
  {
    var all, before := WithAcks(acks, client, commits, keys + {key}), WithAcks(acks, client, commits, keys);
    var after := before[AckKey(client, key) := ResourceAck(client, key, Heads(commits, key), {})];
    forall k ensures k in all <==> k in after
             ensures k in all ==> all[k] == after[k] {
    }
  }

  lemma WellPlannedGrows(plan: map<ResourceKey, PlanOperation>, commits: CommitMap, batch: seq<Commit>)
    requires WellPlanned(plan, commits) && NewBatch(commits, batch)
    ensures WellPlanned(plan, commits + ById(batch))
  {
    ByIdMeaning(batch);
    forall key | key in plan && plan[key].Download?
      ensures plan[key].remote.heads <= ResourceCommits(commits + ById(batch), key).Keys
    {
      assert forall id :: id in commits ==> id !in ById(batch);
    }
  }
}
