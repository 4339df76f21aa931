/** What another client can rely on when a write sequence is cut short anywhere
    (`commit_batch` and `compact_catalog` in src/v2_remote.rs). */
module Durability {
  import opened Types
  import opened CommitGraph
  import opened Binary
  import opened Remote
  import opened ChunkStore
  import opened Retention
  import opened Catalog
  import opened CatalogProofs

  /** Every chunk the commit names has an index entry and a stored pack. */
  ghost predicate ChunksStored(r: Store, c: Commit) {
    c.change.BinarySnapshot? ==>
      forall h :: h in c.change.chunkHashes ==> exists id ::
        id in r.indexes && id in r.packs && ListsHash(r.indexes[id], h)
  }

  ghost predicate Backed(r: Store, e: CatalogEvent) {
    e.commitId in r.commits && EventOf(r.commits[e.commitId]) == e && ChunksStored(r, r.commits[e.commitId])
  }

  /** Every visible event can be loaded, and its content read. */
  ghost predicate Durable(r: Store) {
    forall e :: e in Visible(r) ==> Backed(r, e)
  }

  /** Nothing that `r` stores is missing or different in `r'`. */
  ghost predicate Keeps(r: Store, r': Store) {
    && Submap(r.commits, r'.commits)
    && (forall id :: id in r.indexes ==> id in r'.indexes && r'.indexes[id] == r.indexes[id])
    && r.packs.Keys <= r'.packs.Keys
    && r'.snapshots == r.snapshots
  }

  lemma KeepsIsTransitive(a: Store, b: Store, c: Store)
    requires Keeps(a, b) && Keeps(b, c)
    ensures Keeps(a, c)
  {
  }

  lemma BackedGrows(r: Store, r': Store, e: CatalogEvent)
    requires Keeps(r, r') && Backed(r, e)
    ensures Backed(r', e)
  {
    var c := r.commits[e.commitId];
    if c.change.BinarySnapshot? {
      forall h | h in c.change.chunkHashes
        ensures exists id :: id in r'.indexes && id in r'.packs && ListsHash(r'.indexes[id], h)
      {
        var id :| id in r.indexes && id in r.packs && ListsHash(r.indexes[id], h);
        assert id in r'.indexes && id in r'.packs && ListsHash(r'.indexes[id], h);
      }
    }
  }

  /** Adding objects, and segments whose events are already backed, keeps the store durable. */
  lemma DurableGrows(r: Store, r': Store, added: set<Segment>)
    requires WellFormed(r) && Durable(r) && Keeps(r, r') && r'.segments == r.segments + added
    requires forall q :: q in added ==> WellFormedSegment(q)
    requires forall q, e :: q in added && e in q.events ==> Backed(r', e)
    ensures Durable(r')
  {
    forall e | e in Visible(r') ensures Backed(r', e) {
      VisibleMeaning(r, e);
      VisibleMeaning(r', e);
      assert CoveredAt(r', e.Key()) == CoveredAt(r, e.Key());
      if e in Visible(r) {
        BackedGrows(r, r', e);
      }
    }
  }

  // ---- commit_batch ----

  /** A batch as a client builds it: sealed packs, new identifiers, and counters beyond
      what any snapshot covers of the author. */
  ghost predicate OwnBatch(r: Store, batch: CommitBatch) {
    && WellSealed(batch.packs) && DistinctIds(batch.commits)
    && forall c :: c in batch.commits ==> c.id !in r.commits && c.counter > CoveredAt(r, GroupKey(c))
  }

  /** Every chunk the batch's commits name is listed once the packs and indexes are written. */
  ghost predicate ChunksListed(r: Store, batch: CommitBatch) {
    forall c :: c in batch.commits && c.change.BinarySnapshot? ==>
      AllIndexed(WithPacks(r, batch.packs).indexes, c.change.chunkHashes)
  }

  ghost predicate Publishable(r: Store, batch: CommitBatch) {
    OwnBatch(r, batch) && ChunksListed(r, batch)
  }

  lemma PackPrefix(r: Store, packs: seq<Pack>)
    requires Consistent(r.packs, r.indexes) && WellSealed(packs)
    ensures var r' := ApplyAll(r, PackWrites(packs));
            Keeps(r, r') && r'.segments == r.segments && r'.commits == r.commits && Consistent(r'.packs, r'.indexes)
            && forall p :: p in packs ==> p.id in r'.packs && r'.packs[p.id] == p.data
  {
    PackWritesMeaning(r, packs);
    var r' := ApplyAll(r, PackWrites(packs));
    forall id | id in r'.packs ensures Digest(r'.packs[id]) == id {
      assert id in r.packs || exists p :: p in packs && p.id == id && r'.packs[id] == p.data;
    }
    forall p | p in packs ensures r'.packs[p.id] == p.data {
      assert Digest(r'.packs[p.id]) == Digest(p.data);
    }
  }

  lemma IndexPrefix(r: Store, packs: seq<Pack>)
    requires Consistent(r.packs, r.indexes) && WellSealed(packs)
    requires forall p :: p in packs ==> p.id in r.packs && r.packs[p.id] == p.data
    ensures var r' := ApplyAll(r, IndexWrites(packs));
            Keeps(r, r') && r'.segments == r.segments && r'.commits == r.commits && Consistent(r'.packs, r'.indexes)
  {
    IndexWritesMeaning(r, packs);
    var r' := ApplyAll(r, IndexWrites(packs));
    forall id | id in r'.indexes && id !in r.indexes
      ensures r'.indexes[id].packId == id && id in r'.packs && forall pc :: pc in r'.indexes[id].chunks ==>
        Slices(r'.packs[id], pc)
    {
      var i: nat :| Writer(packs, i, r.indexes, id);
      assert packs[i] in packs;
    }
  }

  lemma CommitPrefix(r: Store, commits: seq<Commit>)
    requires DistinctIds(commits)
    ensures var r' := ApplyAll(r, CommitWrites(commits));
            Keeps(r, r') && r'.segments == r.segments && r'.packs == r.packs && r'.indexes == r.indexes
  {
    CommitWritesMeaning(r, commits);
  }

  lemma BatchEventsAreBacked(r: Store, batch: CommitBatch, r': Store)
    requires Consistent(r.packs, r.indexes) && Publishable(r, batch)
    requires r' == ApplyAll(WithPacks(r, batch.packs), CommitWrites(batch.commits))
    ensures forall c :: c in batch.commits ==> Backed(r', EventOf(c))
  {
    WithPacksKeepsConsistency(r, batch.packs);
    var r1 := WithPacks(r, batch.packs);
    PackWritesFrame(r, batch.packs);
    IndexWritesFrame(ApplyAll(r, PackWrites(batch.packs)), batch.packs);
    CommitWritesMeaning(r1, batch.commits);
    forall c | c in batch.commits ensures Backed(r', EventOf(c)) {
      assert r'.commits[c.id] == c;
      if c.change.BinarySnapshot? {
        forall h | h in c.change.chunkHashes
          ensures exists id :: id in r'.indexes && id in r'.packs && ListsHash(r'.indexes[id], h)
        {
          assert Indexed(r1.indexes, h);
          var id :| id in r1.indexes && ListsHash(r1.indexes[id], h);
          assert id in r'.indexes && id in r'.packs && ListsHash(r'.indexes[id], h);
        }
      }
    }
  }

  /** The store after the first `i` packs, `j` indexes, `k` commits and `n` segments. */
  function Partial(r: Store, batch: CommitBatch, order: seq<CursorKey>, i: nat, j: nat, k: nat, n: nat): Store
    requires i <= |batch.packs| && j <= |batch.packs| && k <= |batch.commits| && n <= |order|
  {
    ApplyAll(
      ApplyAll(ApplyAll(ApplyAll(r, PackWrites(batch.packs[..i])), IndexWrites(batch.packs[..j])),
        CommitWrites(batch.commits[..k])),
      SegmentWrites(batch.commits, order[..n]))
  }

  /** How far each kind of write has come after `cut` writes. */
  lemma PrefixIsPartial(
    r: Store, batch: CommitBatch, order: seq<CursorKey>, cut: nat)
    returns (i: nat, j: nat, k: nat, n: nat)
    requires cut <= |BatchLog(batch, order)|
    ensures i <= |batch.packs| && j <= |batch.packs| && k <= |batch.commits| && n <= |order|
    ensures (j > 0 ==> i == |batch.packs|) && (k > 0 ==> i == j == |batch.packs|)
    ensures n > 0 ==> i == j == |batch.packs| && k == |batch.commits|
    ensures ApplyAll(r, BatchLog(batch, order)[..cut]) == Partial(r, batch, order, i, j, k, n)
  {
    var p, c := |batch.packs|, |batch.commits|;
    i := if cut < p then cut else p;
    j := if cut < p then 0 else if cut < 2 * p then cut - p else p;
    k := if cut < 2 * p then 0 else if cut < 2 * p + c then cut - 2 * p else c;
    n := if cut < 2 * p + c then 0 else cut - 2 * p - c;
    var w1, w2, w3, w4 := PackWrites(batch.packs[..i]), IndexWrites(batch.packs[..j]),
      CommitWrites(batch.commits[..k]), SegmentWrites(batch.commits, order[..n]);
    assert BatchLog(batch, order)[..cut] == w1 + w2 + w3 + w4;
    ApplyConcat(r, w1, w2);
    ApplyConcat(r, w1 + w2, w3);
    ApplyConcat(r, w1 + w2 + w3, w4);
  }

  /** Before the first segment is written the store only gains objects nobody sees. */
  lemma BeforeSegments(r: Store, batch: CommitBatch, i: nat, j: nat, k: nat) returns (r': Store)
    requires Consistent(r.packs, r.indexes) && WellSealed(batch.packs) && DistinctIds(batch.commits)
    requires i <= |batch.packs| && j <= i && k <= |batch.commits|
    ensures r' == ApplyAll(ApplyAll(ApplyAll(r, PackWrites(batch.packs[..i])), IndexWrites(batch.packs[..j])),
      CommitWrites(batch.commits[..k]))
    ensures Keeps(r, r') && r'.segments == r.segments && Consistent(r'.packs, r'.indexes)
  {
    var r1 := ApplyAll(r, PackWrites(batch.packs[..i]));
    var r2 := ApplyAll(r1, IndexWrites(batch.packs[..j]));
    r' := ApplyAll(r2, CommitWrites(batch.commits[..k]));
    PackPrefix(r, batch.packs[..i]);
    assert forall p :: p in batch.packs[..j] ==> p in batch.packs[..i];
    IndexPrefix(r1, batch.packs[..j]);
    CommitPrefix(r2, batch.commits[..k]);
    KeepsIsTransitive(r, r1, r2);
    KeepsIsTransitive(r, r2, r');
  }

  lemma PartialIsDurable(r: Store, batch: CommitBatch, r3: Store, order: seq<CursorKey>)
    requires WellFormed(r) && Durable(r) && Keeps(r, r3) && r3.segments == r.segments
    requires forall c :: c in batch.commits ==> c.counter >= 1
    requires forall key :: key in order ==> key in GroupKeys(batch.commits)
    requires order != [] ==> forall c :: c in batch.commits ==> Backed(r3, EventOf(c))
    ensures var r' := ApplyAll(r3, SegmentWrites(batch.commits, order));
            Durable(r') && r'.packs == r3.packs && r'.indexes == r3.indexes
  {
    SegmentWritesMeaning(r3, batch.commits, order);
    AddedSegmentsAreBacked(batch, order, r3);
    var r' := ApplyAll(r3, SegmentWrites(batch.commits, order));
    DurableGrows(r, r', set key | key in order :: SegmentOf(batch.commits, key));
  }

  /** At every prefix of the writes of a batch each visible event has its stored commit,
      and each chunk that commit names has an index entry and a pack. */
  lemma EveryBatchPrefixIsDurable(r: Store, batch: CommitBatch, order: seq<CursorKey>, cut: nat)
    requires WellFormed(r) && Consistent(r.packs, r.indexes) && Durable(r)
    requires Publishable(r, batch) && Lists(order, GroupKeys(batch.commits)) && cut <= |BatchLog(batch, order)|
    ensures var r' := ApplyAll(r, BatchLog(batch, order)[..cut]);
            Durable(r') && Consistent(r'.packs, r'.indexes)
  {
    var i, j, k, n := PrefixIsPartial(r, batch, order, cut);
    var r3 := BeforeSegments(r, batch, i, j, k);
    if n > 0 {
      assert batch.packs[..i] == batch.packs && batch.packs[..j] == batch.packs && batch.commits[..k] == batch.commits;
      BatchEventsAreBacked(r, batch, r3);
    }
    PartialIsDurable(r, batch, r3, order[..n]);
  }

  ghost predicate DurableAt(r: Store, log: seq<Write>, cut: nat) {
    cut <= |log| ==> Durable(ApplyAll(r, log[..cut]))
  }

  /** No crash inside a batch leaves a visible event without its content if and only if the
      packs and indexes list every chunk of the batch. */
  lemma BatchPrefixesAreDurableIff(r: Store, batch: CommitBatch, order: seq<CursorKey>)
    requires WellFormed(r) && Consistent(r.packs, r.indexes) && Durable(r)
    requires OwnBatch(r, batch) && Lists(order, GroupKeys(batch.commits))
    ensures (forall cut: nat :: DurableAt(r, BatchLog(batch, order), cut)) <==> ChunksListed(r, batch)
  {
    var log := BatchLog(batch, order);
    if ChunksListed(r, batch) {
      forall cut: nat ensures DurableAt(r, log, cut) {
        if cut <= |log| {
          EveryBatchPrefixIsDurable(r, batch, order, cut);
        }
      }
    }
    if forall cut: nat :: DurableAt(r, log, cut) {
      assert DurableAt(r, log, |log|) && log[..|log|] == log;
      forall c | c in batch.commits && c.change.BinarySnapshot?
        ensures AllIndexed(WithPacks(r, batch.packs).indexes, c.change.chunkHashes)
      {
        PublishedCommitIsStored(r, batch, order, c);
      }
    }
  }

  /** A published commit is visible and stored as it is. */
  lemma PublishedCommitIsStored(r: Store, batch: CommitBatch, order: seq<CursorKey>, c: Commit)
    requires WellFormed(r) && OwnBatch(r, batch) && Lists(order, GroupKeys(batch.commits)) && c in batch.commits
    ensures var r' := ApplyAll(r, BatchLog(batch, order));
            && EventOf(c) in Visible(r') && r'.indexes == WithPacks(r, batch.packs).indexes
            && (Backed(r', EventOf(c)) && c.change.BinarySnapshot? ==> AllIndexed(r'.indexes, c.change.chunkHashes))
  {
    var r' := ApplyAll(r, BatchLog(batch, order));
    CommitBatchPublishes(r, batch, order);
    BatchWritesIndexes(r, batch, order);
    BatchSegmentsAreWellFormed(batch.commits);
    SegmentOfGroup(batch.commits, GroupKey(c));
    assert WellFormed(r');
    VisibleMeaning(r', EventOf(c));
    assert CoveredAt(r', GroupKey(c)) == CoveredAt(r, GroupKey(c)) && EventOf(c).Key() == GroupKey(c);
    assert SegmentOf(batch.commits, GroupKey(c)) in r'.segments;
    assert r'.commits[c.id] == c;
    if Backed(r', EventOf(c)) && c.change.BinarySnapshot? {
      forall h | h in c.change.chunkHashes ensures Indexed(r'.indexes, h) {
        var id :| id in r'.indexes && id in r'.packs && ListsHash(r'.indexes[id], h);
      }
    }
  }

  lemma BatchSegmentsAreWellFormed(commits: seq<Commit>)
    requires forall c :: c in commits ==> c.counter >= 1
    ensures forall k :: k in GroupKeys(commits) ==> WellFormedSegment(SegmentOf(commits, k))
  {
    forall k | k in GroupKeys(commits) ensures WellFormedSegment(SegmentOf(commits, k)) {
      SegmentOfGroup(commits, k);
    }
  }

  lemma AddedSegmentsAreBacked(batch: CommitBatch, order: seq<CursorKey>, r: Store)
    requires forall key :: key in order ==> key in GroupKeys(batch.commits)
    requires forall c :: c in batch.commits ==> c.counter >= 1
    requires order != [] ==> forall c :: c in batch.commits ==> Backed(r, EventOf(c))
    ensures forall key :: key in order ==> WellFormedSegment(SegmentOf(batch.commits, key))
    ensures forall key, e :: key in order && e in SegmentOf(batch.commits, key).events ==>
              Backed(r.(segments := r.segments + set k | k in order :: SegmentOf(batch.commits, k)), e)
  {
    var r' := r.(segments := r.segments + set k | k in order :: SegmentOf(batch.commits, k));
    forall key | key in order
      ensures WellFormedSegment(SegmentOf(batch.commits, key))
      ensures forall e :: e in SegmentOf(batch.commits, key).events ==> Backed(r', e)
    {
      SegmentOfGroup(batch.commits, key);
      forall e | e in SegmentOf(batch.commits, key).events ensures Backed(r', e) {
        assert Keeps(r, r');
        BackedGrows(r, r', e);
      }
    }
  }

  // ---- compact_catalog ----

  /** Once the pointer is swapped, dropping covered segments changes nothing a scan sees. */
  lemma CoveredSegmentsAreInvisible(r: Store, snapshot: Snapshot, dropped: set<Segment>, commits: CommitMap)
    requires WellFormed(r) && WellFormedSnapshot(snapshot) && dropped <= CoveredSegments(r.segments, snapshot)
    ensures var r1 := r.(snapshots := r.snapshots[snapshot.scope := snapshot]);
            Visible(r1.(segments := r.segments - dropped, commits := commits)) == Visible(r1)
  {
    var r1 := r.(snapshots := r.snapshots[snapshot.scope := snapshot]);
    var r2 := r1.(segments := r.segments - dropped, commits := commits);
    forall e ensures e in Visible(r2) <==> e in Visible(r1) {
      VisibleMeaning(r1, e);
      VisibleMeaning(r2, e);
      assert CoveredAt(r2, e.Key()) == CoveredAt(r1, e.Key());
      if q :| q in r1.segments && e in q.events && e.counter > CoveredAt(r1, e.Key()) {
        VisibleSegmentIsKept(r1, snapshot, q, e);
        assert q in r2.segments;
      }
    }
  }

  /** A segment with an event beyond the snapshot is not covered by it. */
  lemma VisibleSegmentIsKept(r1: Store, snapshot: Snapshot, q: Segment, e: CatalogEvent)
    requires snapshot.scope in r1.snapshots && r1.snapshots[snapshot.scope] == snapshot && WellFormedSnapshot(snapshot)
    requires WellFormedSegment(q) && e in q.events && e.counter > CoveredAt(r1, e.Key())
    ensures q !in CoveredSegments(r1.segments, snapshot)
  {
    assert q.Key() == e.Key() && 1 <= e.counter <= q.last;
    if q.scope == snapshot.scope {
      assert At(snapshot.cursors, q.Key()) == CoveredAt(r1, q.Key());
    } else {
      assert At(snapshot.cursors, q.Key()) == 0;
    }
  }

  /** After the swap, some covered segments and then some obsolete commits are gone. */
  lemma CompactionPrefix(
    r: Store, snapshot: Snapshot, segments: seq<Segment>, commits: seq<CommitId>, cut: nat)
    returns (j: nat, k: nat)
    requires 0 < cut <= |CompactionLog(snapshot, segments, commits)|
    ensures j <= |segments| && k <= |commits|
    ensures ApplyAll(r, CompactionLog(snapshot, segments, commits)[..cut])
            == r.(snapshots := r.snapshots[snapshot.scope := snapshot],
                  segments := r.segments - (set q | q in segments[..j]),
                  commits := r.commits - (set id | id in commits[..k]))
  {
    var log := CompactionLog(snapshot, segments, commits);
    j := if cut - 1 < |segments| then cut - 1 else |segments|;
    k := cut - 1 - j;
    var swap := [SwapSnapshot(snapshot)];
    var drops, removals := SegmentDrops(segments[..j]), CommitDrops(commits[..k]);
    assert log[..cut] == swap + drops + removals;
    ApplyConcat(r, swap, drops);
    ApplyConcat(r, swap + drops, removals);
    assert swap[..0] == [];
    assert ApplyAll(r, swap) == Apply(r, swap[0]);
    DropSegmentsMeaning(ApplyAll(r, swap), segments[..j]);
    DropCommitsMeaning(ApplyAll(r, swap + drops), commits[..k]);
  }

  /** What a full scan lists after the compaction. */
  ghost predicate WouldList(r: Store, c: Client, scope: ScopeId, obsolete: set<CommitId>, e: CatalogEvent) {
    if e.resource.scope == scope then (Held(c, e) && e.commitId !in obsolete) || Beyond(r, c, e) else e in Visible(r)
  }

  /** All of that is stored and nothing of it is dropped. */
  ghost predicate KeepsBacked(r: Store, c: Client, scope: ScopeId, obsolete: set<CommitId>) {
    forall e :: WouldList(r, c, scope, obsolete, e) ==> Backed(r, e) && e.commitId !in obsolete
  }

  lemma VisibleAfterSwap(
    r: Store, c: Client, scope: ScopeId, obsolete: set<CommitId>, dropped: set<Segment>, commits: CommitMap,
    e: CatalogEvent)
    requires WellFormed(r) && Keyed(c.commits) && Positive(c.commits)
    requires dropped <= CoveredSegments(r.segments, SnapshotOf(c, scope, obsolete))
    ensures e in Visible(r.(snapshots := r.snapshots[scope := SnapshotOf(c, scope, obsolete)],
                            segments := r.segments - dropped, commits := commits))
            <==> WouldList(r, c, scope, obsolete, e)
  {
    var snapshot := SnapshotOf(c, scope, obsolete);
    CompactedIsWellFormed(r, c, scope, obsolete);
    VisibleAfterCompaction(r, c, scope, obsolete, e);
    CoveredSegmentsAreInvisible(r, snapshot, dropped, commits);
    CoveredSegmentsAreInvisible(r, snapshot, CoveredSegments(r.segments, snapshot), r.commits - obsolete);
  }

  lemma DroppedKeepsBacked(r: Store, r': Store, removed: set<CommitId>, e: CatalogEvent)
    requires r'.packs == r.packs && r'.indexes == r.indexes && r'.commits == r.commits - removed
    ensures Backed(r', e) <==> Backed(r, e) && e.commitId !in removed
  {
  }

  /** The store after the swap and some of the deletions. */
  lemma AfterSwapIsDurable(
    r: Store, c: Client, scope: ScopeId, obsolete: set<CommitId>, dropped: set<Segment>, removed: set<CommitId>)
    requires WellFormed(r) && Keyed(c.commits) && Positive(c.commits)
    requires dropped <= CoveredSegments(r.segments, SnapshotOf(c, scope, obsolete)) && removed <= obsolete
    ensures var r' := r.(snapshots := r.snapshots[scope := SnapshotOf(c, scope, obsolete)],
                         segments := r.segments - dropped, commits := r.commits - removed);
            && (KeepsBacked(r, c, scope, obsolete) ==> Durable(r'))
            && (removed == obsolete && Durable(r') ==> KeepsBacked(r, c, scope, obsolete))
  {
    var r' := r.(snapshots := r.snapshots[scope := SnapshotOf(c, scope, obsolete)],
                 segments := r.segments - dropped, commits := r.commits - removed);
    forall e ensures e in Visible(r') <==> WouldList(r, c, scope, obsolete, e) {
      VisibleAfterSwap(r, c, scope, obsolete, dropped, r.commits - removed, e);
    }
    forall e ensures Backed(r', e) <==> Backed(r, e) && e.commitId !in removed {
      DroppedKeepsBacked(r, r', removed, e);
    }
  }

  /** No crash inside a compaction, by whatever client, leaves a visible event without its
      content if and only if all it would list is stored and not dropped. */
  lemma CompactionPrefixesAreDurableIff(
    r: Store, c: Client, scope: ScopeId, obsolete: set<CommitId>, segments: seq<Segment>, commits: seq<CommitId>)
    requires WellFormed(r) && Durable(r) && Keyed(c.commits) && Positive(c.commits)
    requires Lists(segments, CoveredSegments(r.segments, SnapshotOf(c, scope, obsolete))) && Lists(commits, obsolete)
    ensures (forall cut: nat :: DurableAt(r, CompactionLog(SnapshotOf(c, scope, obsolete), segments, commits), cut))
            <==> KeepsBacked(r, c, scope, obsolete)
  {
    var snapshot := SnapshotOf(c, scope, obsolete);
    var log := CompactionLog(snapshot, segments, commits);
    if KeepsBacked(r, c, scope, obsolete) {
      forall cut: nat ensures DurableAt(r, log, cut) {
        if 0 < cut <= |log| {
          var j, k := CompactionPrefix(r, snapshot, segments, commits, cut);
          AfterSwapIsDurable(r, c, scope, obsolete, set q | q in segments[..j], set id | id in commits[..k]);
        } else {
          assert log[..0] == [];
        }
      }
    }
    if forall cut: nat :: DurableAt(r, log, cut) {
      assert DurableAt(r, log, |log|) && log[..|log|] == log;
      CompactionLogMeaning(r, snapshot, obsolete, segments, commits);
      AfterSwapIsDurable(r, c, scope, obsolete, CoveredSegments(r.segments, snapshot), obsolete);
    }
  }

  /** A client that is fit to compact drops nothing that stays listed. */
  lemma FitCompactionIsDurable(r: Store, c: Client, scope: ScopeId, obsolete: set<CommitId>)
    requires Durable(r) && FitToCompact(r, c, scope, obsolete)
    requires forall e :: e in Visible(r) && e.commitId in obsolete ==> e.resource.scope == scope
    ensures KeepsBacked(r, c, scope, obsolete)
  {
    forall e | WouldList(r, c, scope, obsolete, e) ensures Backed(r, e) && e.commitId !in obsolete {
      assert e in Visible(r);
    }
  }
}
