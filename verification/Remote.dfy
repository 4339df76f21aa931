/** The remote as sets of immutable objects and the reference implementation that
    reads and writes them (src/v2_remote.rs). */
module Remote {
  import opened Types
  import opened Binary

  datatype CursorKey = CursorKey(client: ClientId, scope: ScopeId)

  type Cursors = map<CursorKey, nat>

  function At(cursors: Cursors, key: CursorKey): nat {
    if key in cursors then cursors[key] else 0
  }

  /** Pointwise maximum. */
  function MergeMax(a: Cursors, b: Cursors): (c: Cursors)
    ensures c.Keys == a.Keys + b.Keys
    ensures forall k: CursorKey :: At(c, k) == Max(At(a, k), At(b, k))
  {
    map k | k in a.Keys + b.Keys :: Max(At(a, k), At(b, k))
  }

  datatype CatalogEvent = CatalogEvent(client: ClientId, counter: nat, commitId: CommitId, resource: ResourceKey) {
    function Key(): CursorKey {
      CursorKey(client, resource.scope)
    }
  }

  function EventOf(c: Commit): CatalogEvent {
    CatalogEvent(c.author, c.counter, c.id, c.resource)
  }

  datatype Segment = Segment(client: ClientId, scope: ScopeId, first: nat, last: nat, events: set<CatalogEvent>) {
    function Key(): CursorKey {
      CursorKey(client, scope)
    }
  }

  datatype Snapshot = Snapshot(scope: ScopeId, events: set<CatalogEvent>, cursors: Cursors)

  datatype AckKey = AckKey(client: ClientId, resource: ResourceKey)

  datatype ResourceAck = ResourceAck(
    client: ClientId, resource: ResourceKey, observedHeads: set<CommitId>, pinned: set<CommitId>)

  /** Everything stored remotely. `snapshots` holds, per scope, the generation the
      latest pointer names. */
  datatype Store = Store(
    packs: map<Digest, Bytes>,
    indexes: map<Digest, PackIndex>,
    commits: CommitMap,
    segments: set<Segment>,
    snapshots: map<ScopeId, Snapshot>,
    acks: map<AckKey, ResourceAck>)

  // ---- What a scan returns ----

  /** What the current snapshot of the scope covers of one author. */
  function CoveredAt(r: Store, key: CursorKey): nat {
    if key.scope in r.snapshots then At(r.snapshots[key.scope].cursors, key) else 0
  }

  function Floor(r: Store, cursors: Cursors, key: CursorKey): nat {
    Max(At(cursors, key), CoveredAt(r, key))
  }

  function SnapshotHits(snapshot: Snapshot, scopes: set<ScopeId>, cursors: Cursors): set<CatalogEvent> {
    set e | e in snapshot.events && e.counter > At(cursors, e.Key()) && InScope(scopes, e.resource.scope)
  }

  function SegmentHits(segment: Segment, scopes: set<ScopeId>, floor: nat): set<CatalogEvent> {
    set e | e in segment.events && e.counter > floor && InScope(scopes, e.resource.scope)
  }

  /** Events found in the snapshots of `ps` and the segments of `qs`. */
  ghost function EventsFrom(
    r: Store, scopes: set<ScopeId>, cursors: Cursors, ps: set<ScopeId>, qs: set<Segment>): set<CatalogEvent>
  {
    (set p, e | p in ps && p in r.snapshots && InScope(scopes, p)
      && e in SnapshotHits(r.snapshots[p], scopes, cursors) :: e) +
    (set q, e | q in qs && InScope(scopes, q.scope) && q.last > Floor(r, cursors, q.Key())
                && e in SegmentHits(q, scopes, Floor(r, cursors, q.Key())) :: e)
  }

  ghost function ScanEvents(r: Store, scopes: set<ScopeId>, cursors: Cursors): set<CatalogEvent> {
    EventsFrom(r, scopes, cursors, r.snapshots.Keys, r.segments)
  }

  function LoadedFrom(commits: CommitMap, ids: set<CommitId>): CommitMap {
    map id | id in ids && id in commits :: commits[id]
  }

  /** What a client that has seen nothing finds. */
  ghost function Visible(r: Store): set<CatalogEvent> {
    ScanEvents(r, {}, map[])
  }

  /** The values a scan offers for a cursor: the request's, those of the snapshots `ps`,
      and the last counters of the segments `qs` that were not skipped. */
  ghost predicate Offers(
    r: Store, scopes: set<ScopeId>, cursors: Cursors, ps: set<ScopeId>, qs: set<Segment>, k: CursorKey, v: nat)
  {
    || (k in cursors && v == cursors[k])
    || (k.scope in ps && k.scope in r.snapshots && InScope(scopes, k.scope)
        && k in r.snapshots[k.scope].cursors && v == r.snapshots[k.scope].cursors[k])
    || (exists q :: q in qs && q.Key() == k && InScope(scopes, q.scope) && q.last > Floor(r, cursors, k) && v == q.last)
  }

  ghost predicate IsMaximum(
    r: Store, scopes: set<ScopeId>, cursors: Cursors, ps: set<ScopeId>, qs: set<Segment>, next: Cursors)
  {
    && (forall k :: k in next ==> Offers(r, scopes, cursors, ps, qs, k, next[k]))
    && (forall k, v :: Offers(r, scopes, cursors, ps, qs, k, v) ==> k in next && v <= next[k])
  }

  /** The cursors a scan returns: per author and scope the largest value on offer. */
  ghost predicate IsScanCursors(r: Store, scopes: set<ScopeId>, cursors: Cursors, next: Cursors) {
    IsMaximum(r, scopes, cursors, r.snapshots.Keys, r.segments, next)
  }

  ghost predicate WellFormedSnapshot(p: Snapshot) {
    && (forall k :: k in p.cursors ==> k.scope == p.scope)
    && (forall e :: e in p.events ==> e.resource.scope == p.scope && e.counter >= 1)
  }

  ghost predicate WellFormedSegment(q: Segment) {
    forall e :: e in q.events ==> e.Key() == q.Key() && 1 <= e.counter <= q.last
  }

  ghost predicate WellFormed(r: Store) {
    && (forall p :: p in r.snapshots ==> r.snapshots[p].scope == p && WellFormedSnapshot(r.snapshots[p]))
    && (forall q :: q in r.segments ==> WellFormedSegment(q))
  }

  // ---- Single writes ----

  datatype Write =
    | PutPack(id: Digest, data: Bytes)
    | PutIndex(id: Digest, index: PackIndex)
    | PutCommit(commit: Commit)
    | PutSegment(segment: Segment)
    | SwapSnapshot(snapshot: Snapshot)
    | DropSegment(dropped: Segment)
    | DropCommit(commitId: CommitId)

  /** Immutable objects are written only where nothing is stored yet. */
  function Apply(r: Store, w: Write): Store {
    match w
    case PutPack(id, data) => if id in r.packs then r else r.(packs := r.packs[id := data])
    case PutIndex(id, index) => if id in r.indexes then r else r.(indexes := r.indexes[id := index])
    case PutCommit(c) => if c.id in r.commits then r else r.(commits := r.commits[c.id := c])
    case PutSegment(q) => r.(segments := r.segments + {q})
    case SwapSnapshot(p) => r.(snapshots := r.snapshots[p.scope := p])
    case DropSegment(q) => r.(segments := r.segments - {q})
    case DropCommit(id) => r.(commits := r.commits - {id})
  }

  function ApplyAll(r: Store, log: seq<Write>): Store {
    if log == [] then r else Apply(ApplyAll(r, log[..|log| - 1]), log[|log| - 1])
  }

  lemma ApplyStep(r: Store, log: seq<Write>, w: Write)
    ensures ApplyAll(r, log + [w]) == Apply(ApplyAll(r, log), w)
  {
    assert (log + [w])[..|log|] == log;
  }

  lemma ApplyNext(r: Store, log: seq<Write>, i: nat)
    requires i < |log|
    ensures ApplyAll(r, log[..i + 1]) == Apply(ApplyAll(r, log[..i]), log[i])
  {
    assert log[..i + 1][..i] == log[..i];
  }

  lemma {:induction false} ApplyConcat(r: Store, a: seq<Write>, b: seq<Write>)
    ensures ApplyAll(r, a + b) == ApplyAll(ApplyAll(r, a), b)
  {
    if b == [] {
      assert a + b == a;
    } else {
      assert (a + b)[..|a + b| - 1] == a + b[..|b| - 1];
      ApplyConcat(r, a, b[..|b| - 1]);
    }
  }

  // ---- Batches ----

  datatype CommitBatch = CommitBatch(packs: seq<Pack>, commits: seq<Commit>)

  function GroupKey(c: Commit): CursorKey {
    CursorKey(c.author, c.resource.scope)
  }

  function GroupKeys(commits: seq<Commit>): set<CursorKey> {
    set c | c in commits :: GroupKey(c)
  }

  function Group(commits: seq<Commit>, key: CursorKey): seq<Commit> {
    if commits == [] then []
    else
      var rest, last := commits[..|commits| - 1], commits[|commits| - 1];
      if GroupKey(last) == key then Group(rest, key) + [last] else Group(rest, key)
  }

  function LastCounter(commits: seq<Commit>): nat {
    if commits == [] then 0 else Max(LastCounter(commits[..|commits| - 1]), commits[|commits| - 1].counter)
  }

  function FirstCounter(commits: seq<Commit>): nat {
    if commits == [] then 0
    else if |commits| == 1 then commits[0].counter
    else
      var rest := FirstCounter(commits[..|commits| - 1]);
      if commits[|commits| - 1].counter < rest then commits[|commits| - 1].counter else rest
  }

  /** The segment written for one (author, scope) group of a batch; its file lists the
      events by counter, so the first and last counters are the extremes. */
  function SegmentOf(commits: seq<Commit>, key: CursorKey): Segment {
    var group := Group(commits, key);
    Segment(key.client, key.scope, FirstCounter(group), LastCounter(group), set c | c in group :: EventOf(c))
  }

  function PackWrites(packs: seq<Pack>): seq<Write> {
    seq(|packs|, i requires 0 <= i < |packs| => PutPack(packs[i].id, packs[i].data))
  }

  function IndexWrites(packs: seq<Pack>): seq<Write> {
    seq(|packs|, i requires 0 <= i < |packs| => PutIndex(packs[i].id, packs[i].index))
  }

  function CommitWrites(commits: seq<Commit>): seq<Write> {
    seq(|commits|, i requires 0 <= i < |commits| => PutCommit(commits[i]))
  }

  function SegmentWrites(commits: seq<Commit>, order: seq<CursorKey>): seq<Write> {
    seq(|order|, i requires 0 <= i < |order| => PutSegment(SegmentOf(commits, order[i])))
  }

  /** The writes of a batch in the order they are made; `order` lists the groups. */
  function BatchLog(batch: CommitBatch, order: seq<CursorKey>): seq<Write> {
    PackWrites(batch.packs) + IndexWrites(batch.packs) + CommitWrites(batch.commits) + SegmentWrites(batch.commits,
      order)
  }

  ghost predicate Lists<T(!new)>(order: seq<T>, s: set<T>) {
    forall x :: x in order <==> x in s
  }

  /** The last acknowledgement of a client for a resource replaces the earlier ones. */
  function PutAcks(acks: map<AckKey, ResourceAck>, list: seq<ResourceAck>): map<AckKey, ResourceAck> {
    if list == [] then acks
    else
      var last := list[|list| - 1];
      PutAcks(acks, list[..|list| - 1])[AckKey(last.client, last.resource) := last]
  }

  // ---- Chunk lookup and reads ----

  datatype Location = Location(hash: Digest, packId: Digest, offset: nat, length: nat)

  datatype ReadError = MissingChunk | MissingPack | ShortPack | Corrupt

  datatype Result<T> = Ok(value: T) | Err(error: ReadError)

  ghost predicate Indexed(indexes: map<Digest, PackIndex>, h: Digest) {
    exists id :: id in indexes && ListsHash(indexes[id], h)
  }

  /** `loc` is an entry for `h` in the index file `file`. */
  ghost predicate EntryIn(indexes: map<Digest, PackIndex>, file: Digest, h: Digest, loc: Location) {
    && file in indexes && loc.hash == h && loc.packId == indexes[file].packId
    && PackedChunk(h, loc.offset, loc.length) in indexes[file].chunks
  }

  /** One location for every wanted hash that some index lists; which of several is
      left open, as it depends on the order in which index files are listed. */
  ghost predicate IsLookup(indexes: map<Digest, PackIndex>, wanted: set<Digest>, found: map<Digest, Location>) {
    && (forall h :: h in found <==> h in wanted && Indexed(indexes, h))
    && (forall h :: h in found ==> exists file :: EntryIn(indexes, file, h, found[h]))
  }

  function ReadRange(packs: map<Digest, Bytes>, loc: Location): Result<Bytes> {
    if loc.packId !in packs then Err(MissingPack)
    else if loc.offset + loc.length > |packs[loc.packId]| then Err(ShortPack)
    else
      var data := packs[loc.packId][loc.offset..loc.offset + loc.length];
      if Digest(data) != loc.hash then Err(Corrupt) else Ok(data)
  }

  /** A read gives bytes only if they have the address asked for, and otherwise says whether
      the pack is not there, is too short, or holds something else. */
  lemma ReadRangeMeaning(packs: map<Digest, Bytes>, loc: Location)
    ensures var read := ReadRange(packs, loc);
            && (read.Ok? ==> read.value == loc.hash.preimage && |read.value| == loc.length)
            && (read == Err(MissingPack) <==> loc.packId !in packs)
            && (read == Err(ShortPack) <==> loc.packId in packs && |packs[loc.packId]| < loc.offset + loc.length)
            && (read == Err(Corrupt) <==>
                  && loc.packId in packs && loc.offset + loc.length <= |packs[loc.packId]|
                  && packs[loc.packId][loc.offset..loc.offset + loc.length] != loc.hash.preimage)
            && read != Err(MissingChunk)
  {
    if ReadRange(packs, loc).Ok? {
      assert loc.hash == Digest(ReadRange(packs, loc).value);
    }
  }

  // ---- Compaction ----

  function CoveredSegments(segments: set<Segment>, snapshot: Snapshot): set<Segment> {
    set q | q in segments && q.last <= At(snapshot.cursors, q.Key())
  }

  /** The store after a compaction: new snapshot, no covered segment, no obsolete commit. */
  function Compacted(r: Store, snapshot: Snapshot, obsolete: set<CommitId>): Store {
    r.(snapshots := r.snapshots[snapshot.scope := snapshot],
       segments := r.segments - CoveredSegments(r.segments, snapshot),
       commits := r.commits - obsolete)
  }

  function SegmentDrops(segments: seq<Segment>): seq<Write> {
    seq(|segments|, i requires 0 <= i < |segments| => DropSegment(segments[i]))
  }

  function CommitDrops(ids: seq<CommitId>): seq<Write> {
    seq(|ids|, i requires 0 <= i < |ids| => DropCommit(ids[i]))
  }

  function CompactionLog(snapshot: Snapshot, segments: seq<Segment>, commits: seq<CommitId>): seq<Write> {
    [SwapSnapshot(snapshot)]
    + SegmentDrops(segments) + CommitDrops(commits)
  }

  // ---- The reference implementation ----

  class LocalFolderRemote {
    var packs: map<Digest, Bytes>
    var indexes: map<Digest, PackIndex>
    var commits: CommitMap
    var segments: set<Segment>
    var snapshots: map<ScopeId, Snapshot>
    var acks: map<AckKey, ResourceAck>

    function Contents(): Store
      reads this
    {
      Store(packs, indexes, commits, segments, snapshots, acks)
    }

    constructor ()
      ensures Contents() == Store(map[], map[], map[], {}, map[], map[])
    {
      packs, indexes, commits, segments, snapshots, acks := map[], map[], map[], {}, map[], map[];
    }

    /** The first loop of a scan: every snapshot in scope. */
    method ScanSnapshots(scopes: set<ScopeId>, cursors: Cursors)
      returns (events: set<CatalogEvent>, next: Cursors, covered: Cursors)
      requires WellFormed(Contents())
      ensures events == EventsFrom(Contents(), scopes, cursors, snapshots.Keys, {})
      ensures IsMaximum(Contents(), scopes, cursors, snapshots.Keys, {}, next)
      ensures forall k: CursorKey :: At(covered, k) == if InScope(scopes, k.scope) then CoveredAt(Contents(), k) else 0
    {
      ghost var r := Contents();
      events, next, covered := {}, cursors, map[];
      var todo := snapshots.Keys;
      while todo != {}
        invariant todo <= r.snapshots.Keys
        invariant events == EventsFrom(r, scopes, cursors, r.snapshots.Keys - todo, {})
        invariant IsMaximum(r, scopes, cursors, r.snapshots.Keys - todo, {}, next)
        invariant forall k: CursorKey :: At(covered, k) == if k.scope !in todo && InScope(scopes, k.scope)
          then CoveredAt(r, k) else 0
      {
        var p :| p in todo;
        SnapshotStep(r, scopes, cursors, r.snapshots.Keys - todo, p, next);
        assert r.snapshots.Keys - (todo - {p}) == (r.snapshots.Keys - todo) + {p};
        todo := todo - {p};
        if InScope(scopes, p) {
          var snapshot := snapshots[p];
          covered := MergeMax(covered, snapshot.cursors);
          next := MergeMax(next, snapshot.cursors);
          events := events + SnapshotHits(snapshot, scopes, cursors);
        }
      }
      assert r.snapshots.Keys - todo == r.snapshots.Keys;
    }

    /** Reads the snapshots and then the segments, in whatever order they are listed. */
    method ScanCatalog(scopes: set<ScopeId>, cursors: Cursors)
      returns (events: set<CatalogEvent>, next: Cursors, covered: Cursors)
      requires WellFormed(Contents())
      ensures events == ScanEvents(Contents(), scopes, cursors)
      ensures IsScanCursors(Contents(), scopes, cursors, next)
      ensures forall k: CursorKey :: InScope(scopes, k.scope) ==> At(covered, k) == CoveredAt(Contents(), k)
    {
      ghost var r := Contents();
      events, next, covered := ScanSnapshots(scopes, cursors);
      var left := segments;
      ghost var seen: set<Segment> := {};
      while left != {}
        invariant left <= r.segments && seen == r.segments - left
        invariant events == EventsFrom(r, scopes, cursors, r.snapshots.Keys, seen)
        invariant IsMaximum(r, scopes, cursors, r.snapshots.Keys, seen, next)
      {
        var q :| q in left;
        SegmentStep(r, scopes, cursors, seen, q, next);
        left := left - {q};
        seen := seen + {q};
        if InScope(scopes, q.scope) {
          var floor := Max(At(cursors, q.Key()), At(covered, q.Key()));
          if q.last > floor {
            events := events + SegmentHits(q, scopes, floor);
            next := MergeMax(next, map[q.Key() := q.last]);
          }
        }
      }
      assert seen == r.segments;
    }

    method LoadCommits(ids: set<CommitId>) returns (loaded: Option<CommitMap>)
      ensures loaded.Some? <==> ids <= commits.Keys
      ensures loaded.Some? ==> loaded.value == LoadedFrom(commits, ids)
    {
      if ids <= commits.Keys {
        loaded := Some(LoadedFrom(commits, ids));
      } else {
        loaded := None;
      }
    }

    method PutPacks(batch: CommitBatch)
      modifies this
      ensures Contents() == ApplyAll(old(Contents()), PackWrites(batch.packs))
    {
      ghost var r, log := Contents(), PackWrites(batch.packs);
      for i := 0 to |batch.packs|
        invariant Contents() == ApplyAll(r, log[..i])
      {
        ApplyNext(r, log, i);
        if batch.packs[i].id !in packs {
          packs := packs[batch.packs[i].id := batch.packs[i].data];
        }
      }
      assert log[..|log|] == log;
    }

    method PutIndexes(batch: CommitBatch)
      modifies this
      ensures Contents() == ApplyAll(old(Contents()), IndexWrites(batch.packs))
    {
      ghost var r, log := Contents(), IndexWrites(batch.packs);
      for i := 0 to |batch.packs|
        invariant Contents() == ApplyAll(r, log[..i])
      {
        ApplyNext(r, log, i);
        if batch.packs[i].id !in indexes {
          indexes := indexes[batch.packs[i].id := batch.packs[i].index];
        }
      }
      assert log[..|log|] == log;
    }

    method PutCommits(batch: CommitBatch)
      modifies this
      ensures Contents() == ApplyAll(old(Contents()), CommitWrites(batch.commits))
    {
      ghost var r, log := Contents(), CommitWrites(batch.commits);
      for i := 0 to |batch.commits|
        invariant Contents() == ApplyAll(r, log[..i])
      {
        ApplyNext(r, log, i);
        if batch.commits[i].id !in commits {
          commits := commits[batch.commits[i].id := batch.commits[i]];
        }
      }
      assert log[..|log|] == log;
    }

    /** One segment per (author, scope), in an arbitrary order of the groups. */
    method PutSegments(batch: CommitBatch) returns (ghost order: seq<CursorKey>)
      modifies this
      ensures Lists(order, GroupKeys(batch.commits))
      ensures Contents() == ApplyAll(old(Contents()), SegmentWrites(batch.commits, order))
    {
      ghost var r := Contents();
      var todo := GroupKeys(batch.commits);
      order := [];
      while todo != {}
        invariant todo <= GroupKeys(batch.commits)
        invariant forall k :: k in order <==> k in GroupKeys(batch.commits) && k !in todo
        invariant Contents() == ApplyAll(r, SegmentWrites(batch.commits, order))
      {
        var k :| k in todo;
        todo := todo - {k};
        ghost var w := PutSegment(SegmentOf(batch.commits, k));
        ApplyStep(r, SegmentWrites(batch.commits, order), w);
        assert SegmentWrites(batch.commits, order + [k]) == SegmentWrites(batch.commits, order) + [w];
        order := order + [k];
        segments := segments + {SegmentOf(batch.commits, k)};
      }
    }

    /** Packs, then indexes, then commits, then the segments that make them visible. */
    method CommitBatch(batch: CommitBatch) returns (ghost order: seq<CursorKey>)
      modifies this
      ensures Lists(order, GroupKeys(batch.commits))
      ensures Contents() == ApplyAll(old(Contents()), BatchLog(batch, order))
    {
      ghost var r := Contents();
      PutPacks(batch);
      PutIndexes(batch);
      PutCommits(batch);
      order := PutSegments(batch);
      ApplyConcat(r, PackWrites(batch.packs), IndexWrites(batch.packs));
      ApplyConcat(r, PackWrites(batch.packs) + IndexWrites(batch.packs), CommitWrites(batch.commits));
      ApplyConcat(r, PackWrites(batch.packs) + IndexWrites(batch.packs) + CommitWrites(batch.commits),
        SegmentWrites(batch.commits, order));
    }

    method LookupChunks(wanted: set<Digest>) returns (found: map<Digest, Location>)
      ensures IsLookup(indexes, wanted, found)
    {
      found := map[];
      var todo := indexes.Keys;
      while todo != {}
        invariant todo <= indexes.Keys
        invariant forall h :: h in found ==> h in wanted && exists file :: EntryIn(indexes, file, h, found[h])
        invariant forall id, h :: id in indexes && id !in todo && h in wanted && ListsHash(indexes[id], h) ==>
          h in found
      {
        var id :| id in todo;
        todo := todo - {id};
        var index := indexes[id];
        for i := 0 to |index.chunks|
          invariant forall h :: h in found ==> h in wanted && exists file :: EntryIn(indexes, file, h, found[h])
          invariant forall other, h ::
            other in indexes && other !in todo && other != id && h in wanted && ListsHash(indexes[other], h) ==>
              h in found
          invariant forall k :: 0 <= k < i && index.chunks[k].hash in wanted ==> index.chunks[k].hash in found
        {
          var chunk := index.chunks[i];
          if chunk.hash in wanted && chunk.hash !in found {
            var loc := Location(chunk.hash, index.packId, chunk.offset, chunk.length);
            assert EntryIn(indexes, id, chunk.hash, loc);
            found := found[chunk.hash := loc];
          }
        }
      }
      forall h | h in found ensures Indexed(indexes, h) {
        var file :| EntryIn(indexes, file, h, found[h]);
        assert ListsHash(indexes[file], h);
      }
    }

    /** Stops at the first range that is missing, short or corrupt. */
    method ReadRanges(ranges: seq<Location>) returns (data: Result<seq<Bytes>>)
      ensures data.Ok? <==> forall i :: 0 <= i < |ranges| ==> ReadRange(packs, ranges[i]).Ok?
      ensures data.Ok? ==> |data.value| == |ranges|
      ensures data.Ok? ==> forall i :: 0 <= i < |ranges| ==> data.value[i] == ReadRange(packs, ranges[i]).value
      ensures data.Err? ==> exists i :: 0 <= i < |ranges| && ReadRange(packs, ranges[i]) == Err(data.error)
                                        && forall j :: 0 <= j < i ==> ReadRange(packs, ranges[j]).Ok?
    {
      var out: seq<Bytes> := [];
      for i := 0 to |ranges|
        invariant |out| == i
        invariant forall k :: 0 <= k < i ==> ReadRange(packs, ranges[k]) == Ok(out[k])
      {
        var range := ReadRange(packs, ranges[i]);
        if range.Err? {
          return Err(range.error);
        }
        out := out + [range.value];
      }
      data := Ok(out);
    }

    method WriteAcknowledgements(acknowledgements: seq<ResourceAck>)
      modifies this`acks
      ensures acks == PutAcks(old(acks), acknowledgements)
    {
      for i := 0 to |acknowledgements|
        invariant acks == PutAcks(old(acks), acknowledgements[..i])
      {
        assert acknowledgements[..i + 1][..i] == acknowledgements[..i];
        acks := acks[AckKey(acknowledgements[i].client, acknowledgements[i].resource) := acknowledgements[i]];
      }
      assert acknowledgements[..|acknowledgements|] == acknowledgements;
    }

    method ListAcknowledgements(resources: set<ResourceKey>) returns (listed: map<AckKey, ResourceAck>)
      ensures listed == map k | k in acks && (resources == {} || acks[k].resource in resources) :: acks[k]
    {
      listed := map k | k in acks && (resources == {} || acks[k].resource in resources) :: acks[k];
    }

    method DeletePackObjects(ids: set<Digest>)
      modifies this`packs, this`indexes
      ensures packs == old(packs) - ids && indexes == old(indexes) - ids
    {
      var todo := ids;
      while todo != {}
        invariant todo <= ids
        invariant packs == old(packs) - (ids - todo) && indexes == old(indexes) - (ids - todo)
      {
        var id :| id in todo;
        todo := todo - {id};
        packs, indexes := packs - {id}, indexes - {id};
      }
      assert ids - todo == ids;
    }

    method DropCovered(snapshot: Snapshot) returns (ghost dropped: seq<Segment>)
      modifies this`segments
      ensures Lists(dropped, CoveredSegments(old(segments), snapshot))
      ensures segments == old(segments) - CoveredSegments(old(segments), snapshot)
    {
      ghost var before := segments;
      dropped := [];
      var todo := segments;
      while todo != {}
        invariant todo <= before
        invariant forall q :: q in dropped <==> q in CoveredSegments(before, snapshot) && q !in todo
        invariant segments == before - (CoveredSegments(before, snapshot) - todo)
      {
        var q :| q in todo;
        todo := todo - {q};
        if q.last <= At(snapshot.cursors, q.Key()) {
          dropped := dropped + [q];
          segments := segments - {q};
        }
      }
    }

    method DropCommits(obsolete: set<CommitId>) returns (ghost dropped: seq<CommitId>)
      modifies this`commits
      ensures Lists(dropped, obsolete)
      ensures commits == old(commits) - obsolete
    {
      dropped := [];
      var todo := obsolete;
      while todo != {}
        invariant todo <= obsolete
        invariant forall id :: id in dropped <==> id in obsolete && id !in todo
        invariant commits == old(commits) - (obsolete - todo)
      {
        var id :| id in todo;
        todo := todo - {id};
        dropped := dropped + [id];
        commits := commits - {id};
      }
      assert obsolete - todo == obsolete;
    }

    /** Points the scope at the new snapshot first; only then drops what it covers, and
        the obsolete commits last. */
    method CompactCatalog(snapshot: Snapshot, obsolete: set<CommitId>)
      returns (ghost droppedSegments: seq<Segment>, ghost droppedCommits: seq<CommitId>)
      modifies this
      ensures Lists(droppedSegments, CoveredSegments(old(segments), snapshot)) && Lists(droppedCommits, obsolete)
      ensures Contents() == ApplyAll(old(Contents()), CompactionLog(snapshot, droppedSegments, droppedCommits))
      ensures Contents() == Compacted(old(Contents()), snapshot, obsolete)
    {
      snapshots := snapshots[snapshot.scope := snapshot];
      droppedSegments := DropCovered(snapshot);
      droppedCommits := DropCommits(obsolete);
      CompactionLogMeaning(old(Contents()), snapshot, obsolete, droppedSegments, droppedCommits);
    }
  }

  lemma {:induction false} DropSegmentsMeaning(r: Store, segments: seq<Segment>)
    ensures ApplyAll(r, SegmentDrops(segments)) == r.(segments := r.segments - set q | q in segments)
  {
    if segments != [] {
      var rest, last := segments[..|segments| - 1], segments[|segments| - 1];
      DropSegmentsMeaning(r, rest);
      assert SegmentDrops(segments)[..|rest|] == SegmentDrops(rest);
      assert segments == rest + [last];
      assert (set q | q in segments) == (set q | q in rest) + {last};
    } else {
      assert r.segments - (set q | q in segments) == r.segments;
    }
  }

  lemma {:induction false} DropCommitsMeaning(r: Store, ids: seq<CommitId>)
    ensures ApplyAll(r, CommitDrops(ids)) == r.(commits := r.commits - set id | id in ids)
  {
    if ids != [] {
      var rest, last := ids[..|ids| - 1], ids[|ids| - 1];
      DropCommitsMeaning(r, rest);
      assert CommitDrops(ids)[..|rest|] == CommitDrops(rest);
      assert ids == rest + [last];
      assert (set id | id in ids) == (set id | id in rest) + {last};
      assert r.commits - (set id | id in ids) == (r.commits - set id | id in rest) - {last};
    } else {
      assert r.commits - (set id | id in ids) == r.commits;
    }
  }

  lemma CompactionLogMeaning(
    r: Store, snapshot: Snapshot, obsolete: set<CommitId>, segments: seq<Segment>, commits: seq<CommitId>)
    requires Lists(segments, CoveredSegments(r.segments, snapshot)) && Lists(commits, obsolete)
    ensures ApplyAll(r, CompactionLog(snapshot, segments, commits)) == Compacted(r, snapshot, obsolete)
  {
    var swap := [SwapSnapshot(snapshot)];
    var drops, removals := SegmentDrops(segments), CommitDrops(commits);
    ApplyConcat(r, swap, drops);
    ApplyConcat(r, swap + drops, removals);
    assert ApplyAll(r, swap) == Apply(r, swap[0]);
    DropSegmentsMeaning(ApplyAll(r, swap), segments);
    DropCommitsMeaning(ApplyAll(r, swap + drops), commits);
    assert (set q | q in segments) == CoveredSegments(r.segments, snapshot);
    assert (set id | id in commits) == obsolete;
  }

  lemma SnapshotStep(r: Store, scopes: set<ScopeId>, cursors: Cursors, ps: set<ScopeId>, p: ScopeId, next: Cursors)
    requires WellFormed(r) && p in r.snapshots
    requires IsMaximum(r, scopes, cursors, ps, {}, next)
    ensures if InScope(scopes, p) then
              && IsMaximum(r, scopes, cursors, ps + {p}, {}, MergeMax(next, r.snapshots[p].cursors))
              && EventsFrom(r, scopes, cursors, ps + {p}, {}) ==
                 EventsFrom(r, scopes, cursors, ps, {}) + SnapshotHits(r.snapshots[p], scopes, cursors)
            else
              && IsMaximum(r, scopes, cursors, ps + {p}, {}, next)
              && EventsFrom(r, scopes, cursors, ps + {p}, {}) == EventsFrom(r, scopes, cursors, ps, {})
  {
    SnapshotMaximum(r, scopes, cursors, ps, p, next);
    SnapshotEvents(r, scopes, cursors, ps, p);
  }

  lemma SnapshotOffers(
    r: Store, scopes: set<ScopeId>, cursors: Cursors, ps: set<ScopeId>, p: ScopeId, k: CursorKey, v: nat)
    requires p in r.snapshots && (k in r.snapshots[p].cursors ==> k.scope == p)
    ensures Offers(r, scopes, cursors, ps + {p}, {}, k, v) <==>
      || Offers(r, scopes, cursors, ps, {}, k, v)
      || (InScope(scopes, p) && k in r.snapshots[p].cursors && v == r.snapshots[p].cursors[k])
  {
  }

  lemma SnapshotMaximum(r: Store, scopes: set<ScopeId>, cursors: Cursors, ps: set<ScopeId>, p: ScopeId, next: Cursors)
    requires WellFormed(r) && p in r.snapshots && IsMaximum(r, scopes, cursors, ps, {}, next)
    ensures IsMaximum(r, scopes, cursors, ps + {p}, {}, if InScope(scopes, p)
      then MergeMax(next, r.snapshots[p].cursors) else next)
  {
    var merged := if InScope(scopes, p) then MergeMax(next, r.snapshots[p].cursors) else next;
    forall k | k in merged ensures Offers(r, scopes, cursors, ps + {p}, {}, k, merged[k]) {
      SnapshotOffers(r, scopes, cursors, ps, p, k, merged[k]);
      assert merged[k] == At(merged, k);
    }
    forall k, v | Offers(r, scopes, cursors, ps + {p}, {}, k, v) ensures k in merged && v <= merged[k] {
      SnapshotOffers(r, scopes, cursors, ps, p, k, v);
      assert k in merged ==> merged[k] == At(merged, k);
    }
  }

  lemma SnapshotEvents(r: Store, scopes: set<ScopeId>, cursors: Cursors, ps: set<ScopeId>, p: ScopeId)
    requires p in r.snapshots
    ensures EventsFrom(r, scopes, cursors, ps + {p}, {}) ==
            EventsFrom(r, scopes, cursors, ps, {}) + if InScope(scopes, p)
              then SnapshotHits(r.snapshots[p], scopes, cursors) else {}
  {
  }

  lemma SegmentOffers(
    r: Store, scopes: set<ScopeId>, cursors: Cursors, ps: set<ScopeId>, qs: set<Segment>, q: Segment, k: CursorKey,
    v: nat)
    ensures Offers(r, scopes, cursors, ps, qs + {q}, k, v) <==>
      || Offers(r, scopes, cursors, ps, qs, k, v)
      || (k == q.Key() && v == q.last && InScope(scopes, q.scope) && q.last > Floor(r, cursors, q.Key()))
  {
  }

  lemma SegmentMaximum(r: Store, scopes: set<ScopeId>, cursors: Cursors, qs: set<Segment>, q: Segment, next: Cursors)
    requires IsMaximum(r, scopes, cursors, r.snapshots.Keys, qs, next)
    ensures IsMaximum(r, scopes, cursors, r.snapshots.Keys, qs + {q},
                      if InScope(scopes, q.scope) && q.last > Floor(r, cursors, q.Key())
                        then MergeMax(next, map[q.Key() := q.last]) else next)
  {
    var ps := r.snapshots.Keys;
    var taken := InScope(scopes, q.scope) && q.last > Floor(r, cursors, q.Key());
    var merged := if taken then MergeMax(next, map[q.Key() := q.last]) else next;
    forall k | k in merged ensures Offers(r, scopes, cursors, ps, qs + {q}, k, merged[k]) {
      SegmentOffers(r, scopes, cursors, ps, qs, q, k, merged[k]);
      assert merged[k] == At(merged, k);
    }
    forall k, v | Offers(r, scopes, cursors, ps, qs + {q}, k, v) ensures k in merged && v <= merged[k] {
      SegmentOffers(r, scopes, cursors, ps, qs, q, k, v);
      assert k in merged ==> merged[k] == At(merged, k);
    }
  }

  lemma SegmentStep(r: Store, scopes: set<ScopeId>, cursors: Cursors, qs: set<Segment>, q: Segment, next: Cursors)
    requires IsMaximum(r, scopes, cursors, r.snapshots.Keys, qs, next)
    ensures var floor := Floor(r, cursors, q.Key());
            if InScope(scopes, q.scope) && q.last > floor then
              && IsMaximum(r, scopes, cursors, r.snapshots.Keys, qs + {q}, MergeMax(next, map[q.Key() := q.last]))
              && EventsFrom(r, scopes, cursors, r.snapshots.Keys, qs + {q}) ==
                 EventsFrom(r, scopes, cursors, r.snapshots.Keys, qs) + SegmentHits(q, scopes, floor)
            else
              && IsMaximum(r, scopes, cursors, r.snapshots.Keys, qs + {q}, next)
              && EventsFrom(r, scopes, cursors, r.snapshots.Keys, qs + {q}) ==
                 EventsFrom(r, scopes, cursors, r.snapshots.Keys, qs)
  {
    SegmentMaximum(r, scopes, cursors, qs, q, next);
    SegmentEvents(r, scopes, cursors, qs, q);
  }

  lemma SegmentEvents(r: Store, scopes: set<ScopeId>, cursors: Cursors, qs: set<Segment>, q: Segment)
    ensures EventsFrom(r, scopes, cursors, r.snapshots.Keys, qs + {q}) ==
            EventsFrom(r, scopes, cursors, r.snapshots.Keys, qs) +
            if InScope(scopes, q.scope) && q.last > Floor(r, cursors, q.Key())
            then SegmentHits(q, scopes, Floor(r, cursors, q.Key())) else {}
  {
  }
}
