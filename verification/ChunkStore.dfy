/** Reading back what was packed: deduplicated publishing, the read path and pack
    garbage collection (src/v2_remote.rs, src/runtime.rs). */
module ChunkStore {
  import opened Types
  import opened Binary
  import opened Remote

  type Packs = map<Digest, Bytes>
  type Indexes = map<Digest, PackIndex>

  ghost predicate Slices(data: Bytes, pc: PackedChunk) {
    pc.offset + pc.length <= |data| && Digest(data[pc.offset..pc.offset + pc.length]) == pc.hash
  }

  /** Packs are content-addressed, and every index belongs to a stored pack and lists
      only stretches of it that hash to the listed address. */
  ghost predicate Consistent(packs: Packs, indexes: Indexes) {
    && (forall id :: id in packs ==> Digest(packs[id]) == id)
    && (forall id :: id in indexes ==>
          && indexes[id].packId == id && id in packs
          && forall pc :: pc in indexes[id].chunks ==> Slices(packs[id], pc))
  }

  ghost predicate AllIndexed(indexes: Indexes, hashes: seq<Digest>) {
    forall h :: h in hashes ==> Indexed(indexes, h)
  }

  /** The only bytes a list of content addresses can stand for. */
  ghost function ContentOf(hashes: seq<Digest>): Bytes {
    if hashes == [] then [] else ContentOf(hashes[..|hashes| - 1]) + hashes[|hashes| - 1].preimage
  }

  lemma LocationReads(packs: Packs, indexes: Indexes, h: Digest, loc: Location, file: Digest)
    requires Consistent(packs, indexes) && EntryIn(indexes, file, h, loc)
    ensures ReadRange(packs, loc) == Ok(h.preimage)
  {
    assert Slices(packs[file], PackedChunk(h, loc.offset, loc.length));
  }

  /** Every chunk of a manifest looked up, or nothing when one is not listed. */
  method Locate(
    remote: LocalFolderRemote, hashes: seq<Digest>)
    returns (ranges: Option<seq<Location>>, ghost found: map<Digest, Location>)
    ensures IsLookup(remote.indexes, (set h | h in hashes), found)
    ensures ranges.Some? <==> AllIndexed(remote.indexes, hashes)
    ensures ranges.Some? ==> |ranges.value| == |hashes|
    ensures ranges.Some? ==> forall k: nat :: k < |hashes| ==> hashes[k] in found && ranges.value[k] == found[hashes[k]]
  {
    var locations := remote.LookupChunks(set h | h in hashes);
    found := locations;
    var list: seq<Location> := [];
    for i := 0 to |hashes|
      invariant |list| == i
      invariant forall k: nat :: k < i ==> hashes[k] in locations && list[k] == locations[hashes[k]]
    {
      if hashes[i] !in locations {
        assert hashes[i] in hashes && !Indexed(remote.indexes, hashes[i]);
        ranges := None;
        return;
      }
      list := list + [locations[hashes[i]]];
    }
    ranges := Some(list);
  }

  lemma FailedRange(packs: Packs, ranges: seq<Location>, error: ReadError)
    requires exists i :: 0 <= i < |ranges| && ReadRange(packs, ranges[i]) == Err(error)
    ensures error != MissingChunk
  {
    var i :| 0 <= i < |ranges| && ReadRange(packs, ranges[i]) == Err(error);
    ReadRangeMeaning(packs, ranges[i]);
  }

  lemma FoundIsWanted(
    indexes: Indexes, hashes: seq<Digest>, ranges: seq<Location>, found: map<Digest, Location>, i: nat)
    requires IsLookup(indexes, (set h | h in hashes), found)
    requires i < |hashes| == |ranges| && hashes[i] in found && ranges[i] == found[hashes[i]]
    ensures ranges[i].hash == hashes[i]
  {
    var file :| EntryIn(indexes, file, hashes[i], found[hashes[i]]);
  }

  /** The binary branch of `content_for_remote`: look every chunk up, read the ranges
      and join them in manifest order. Whatever the store holds, bytes that are returned are
      those the manifest stands for. */
  method ReadSnapshot(remote: LocalFolderRemote, hashes: seq<Digest>) returns (r: Result<Bytes>)
    ensures r.Ok? ==> r.value == ContentOf(hashes)
    ensures r == Err(MissingChunk) <==> !AllIndexed(remote.indexes, hashes)
    ensures Consistent(remote.packs, remote.indexes) ==> (r.Ok? <==> AllIndexed(remote.indexes, hashes))
  {
    var ranges;
    ghost var found;
    ranges, found := Locate(remote, hashes);
    if ranges.None? {
      return Err(MissingChunk);
    }
    if Consistent(remote.packs, remote.indexes) {
      forall k: nat | k < |hashes| ensures ReadRange(remote.packs, ranges.value[k]) == Ok(hashes[k].preimage) {
        var h := hashes[k];
        assert h in found && ranges.value[k] == found[h];
        var file :| EntryIn(remote.indexes, file, h, found[h]);
        LocationReads(remote.packs, remote.indexes, hashes[k], ranges.value[k], file);
      }
    }
    var data := remote.ReadRanges(ranges.value);
    if data.Err? {
      FailedRange(remote.packs, ranges.value, data.error);
      return Err(data.error);
    }
    var output: Bytes := [];
    for i := 0 to |hashes|
      invariant output == ContentOf(hashes[..i])
    {
      assert hashes[..i + 1][..i] == hashes[..i];
      ReadRangeMeaning(remote.packs, ranges.value[i]);
      FoundIsWanted(remote.indexes, hashes, ranges.value, found, i);
      output := output + data.value[i];
    }
    assert hashes[..|hashes|] == hashes;
    r := Ok(output);
  }

  // ---- Publishing ----

  /** Chunks as the chunker cuts them: filed under their own hash, neither empty nor
      longer than a 32-bit length. */
  ghost predicate Cut(chunks: seq<Chunk>) {
    forall c :: c in chunks ==> c.hash == Digest(c.data) && 0 < |c.data| <= Binary.U32_MAX
  }

  function HashesOf(chunks: seq<Chunk>): seq<Digest> {
    seq(|chunks|, i requires 0 <= i < |chunks| => chunks[i].hash)
  }

  /** The chunks a lookup did not find. */
  function Missing(chunks: seq<Chunk>, found: set<Digest>): seq<Chunk> {
    if chunks == [] then []
    else
      var rest, last := chunks[..|chunks| - 1], chunks[|chunks| - 1];
      if last.hash in found then Missing(rest, found) else Missing(rest, found) + [last]
  }

  lemma {:induction false} MissingMembers(chunks: seq<Chunk>, found: set<Digest>)
    ensures forall c :: c in Missing(chunks, found) <==> c in chunks && c.hash !in found
  {
    if chunks != [] {
      var rest := chunks[..|chunks| - 1];
      MissingMembers(rest, found);
      assert chunks == rest + [chunks[|rest|]];
    }
  }

  /** Any contiguous partition of the data is recovered from its manifest. */
  lemma {:induction false} ManifestDenotesData(chunks: seq<Chunk>)
    requires Cut(chunks)
    ensures ContentOf(HashesOf(chunks)) == Join(chunks)
  {
    if chunks != [] {
      var rest := chunks[..|chunks| - 1];
      ManifestDenotesData(rest);
      assert HashesOf(chunks)[..|chunks| - 1] == HashesOf(rest);
    }
  }

  /** Packs made by the packer: sealed and cut along their own index. */
  ghost predicate WellSealed(packs: seq<Pack>) {
    forall p :: p in packs ==>
      && p.id == Digest(p.data) == p.index.packId
      && forall pc :: pc in p.index.chunks ==> Slices(p.data, pc)
  }

  lemma BuiltPacksAreWellSealed(chunks: seq<Chunk>, groups: seq<seq<Chunk>>, packs: seq<Pack>)
    requires Cut(chunks) && IsPacking(chunks, groups, packs)
    ensures WellSealed(packs)
  {
    DistinctProperties(chunks);
    forall n | 0 <= n < |packs| ensures WellSealed([packs[n]]) {
      forall c | c in groups[n] ensures c in chunks {
        FlattenMembers(groups, c);
      }
      SealedGroupIsWellSealed(groups[n]);
    }
    forall p | p in packs ensures WellSealed([p]) {
      var n :| 0 <= n < |packs| && packs[n] == p;
    }
  }

  lemma SealedGroupIsWellSealed(group: seq<Chunk>)
    requires Cut(group)
    ensures WellSealed([Seal(group)])
  {
    var p := Seal(group);
    forall pc | pc in p.index.chunks ensures Slices(p.data, pc) {
      var i :| 0 <= i < |p.index.chunks| && p.index.chunks[i] == pc;
      LayoutSlices(group, i);
    }
  }

  /** Packs already stored stay; those of the batch are there afterwards. */
  ghost predicate PacksAdded(before: Packs, packs: seq<Pack>, after: Packs) {
    && before.Keys <= after.Keys
    && (forall id :: id in before ==> after[id] == before[id])
    && (forall p :: p in packs ==> p.id in after)
    && (forall id :: id in after && id !in before ==> exists p :: p in packs && p.id == id && after[id] == p.data)
  }

  lemma PacksAddedStep(before: Packs, rest: seq<Pack>, mid: Packs, last: Pack)
    requires PacksAdded(before, rest, mid)
    ensures PacksAdded(before, rest + [last], if last.id in mid then mid else mid[last.id := last.data])
  {
    var after := if last.id in mid then mid else mid[last.id := last.data];
    forall id | id in after && id !in before
      ensures exists p :: p in rest + [last] && p.id == id && after[id] == p.data
    {
      if id in mid {
        var p :| p in rest && p.id == id && mid[id] == p.data;
        assert p in rest + [last];
      } else {
        assert last in rest + [last];
      }
    }
  }

  lemma {:induction false} PackWritesMeaning(r: Store, packs: seq<Pack>)
    ensures var r' := ApplyAll(r, PackWrites(packs));
      r' == r.(packs := r'.packs) && PacksAdded(r.packs, packs, r'.packs)
  {
    if packs != [] {
      var rest, last := packs[..|packs| - 1], packs[|packs| - 1];
      PackWritesMeaning(r, rest);
      assert PackWrites(packs)[..|packs| - 1] == PackWrites(rest);
      assert packs == rest + [last];
      PacksAddedStep(r.packs, rest, ApplyAll(r, PackWrites(rest)).packs, last);
    }
  }

  /** An index is written for the first pack of each new identifier and for no other. */
  ghost predicate WritesIndexOf(packs: seq<Pack>, i: nat, indexes: Indexes)
    requires i < |packs|
  {
    packs[i].id !in indexes && forall j :: 0 <= j < i ==> packs[j].id != packs[i].id
  }

  ghost predicate Writer(packs: seq<Pack>, i: nat, indexes: Indexes, id: Digest) {
    i < |packs| && packs[i].id == id && WritesIndexOf(packs, i, indexes)
  }

  lemma WriterPrefix(packs: seq<Pack>, n: nat, i: nat, indexes: Indexes, id: Digest)
    requires i < n <= |packs|
    ensures Writer(packs[..n], i, indexes, id) <==> Writer(packs, i, indexes, id)
  {
    assert forall j :: 0 <= j < n ==> packs[..n][j] == packs[j];
  }

  /** `after` keeps every index of `before` and adds the index of each writer. */
  ghost predicate IndexesAdded(before: Indexes, packs: seq<Pack>, after: Indexes) {
    && (forall id :: id in before ==> id in after && after[id] == before[id])
    && (forall p :: p in packs ==> p.id in after)
    && (forall i: nat, id :: Writer(packs, i, before, id) ==> id in after && after[id] == packs[i].index)
    && (forall id :: id in after && id !in before ==> exists i: nat :: Writer(packs, i, before, id))
  }

  lemma IndexesAddedStep(before: Indexes, packs: seq<Pack>, mid: Indexes, after: Indexes)
    requires packs != [] && IndexesAdded(before, packs[..|packs| - 1], mid)
    requires var last := packs[|packs| - 1]; after == if last.id in mid then mid else mid[last.id := last.index]
    ensures IndexesAdded(before, packs, after)
  {
    var n := |packs| - 1;
    var rest, last := packs[..n], packs[n];
    assert packs == rest + [last];
    forall i: nat, id | Writer(packs, i, before, id) ensures id in after && after[id] == packs[i].index {
      if i < n {
        WriterPrefix(packs, n, i, before, id);
        assert rest[i] in rest;
      } else {
        LateWriterIsNew(before, packs, mid, id);
      }
    }
    forall id | id in after && id !in before ensures exists i: nat :: Writer(packs, i, before, id) {
      if id in mid {
        var i: nat :| Writer(rest, i, before, id);
        WriterPrefix(packs, n, i, before, id);
      } else {
        NewIdHasLastWriter(before, packs, mid);
        assert Writer(packs, n, before, id);
      }
    }
  }

  lemma LateWriterIsNew(before: Indexes, packs: seq<Pack>, mid: Indexes, id: Digest)
    requires packs != [] && IndexesAdded(before, packs[..|packs| - 1], mid)
    requires Writer(packs, |packs| - 1, before, id)
    ensures id !in mid
  {
    var rest := packs[..|packs| - 1];
    forall i: nat ensures !Writer(rest, i, before, id) {
      assert i < |rest| ==> rest[i] == packs[i];
    }
  }

  lemma NewIdHasLastWriter(before: Indexes, packs: seq<Pack>, mid: Indexes)
    requires packs != [] && IndexesAdded(before, packs[..|packs| - 1], mid)
    requires packs[|packs| - 1].id !in mid
    ensures Writer(packs, |packs| - 1, before, packs[|packs| - 1].id)
  {
    assert forall j :: 0 <= j < |packs| - 1 ==> packs[..|packs| - 1][j] == packs[j] && packs[j] in packs[..|packs| - 1];
  }

  lemma {:induction false} IndexWritesMeaning(r: Store, packs: seq<Pack>)
    ensures var r' := ApplyAll(r, IndexWrites(packs));
            r' == r.(indexes := r'.indexes) && IndexesAdded(r.indexes, packs, r'.indexes)
  {
    if packs != [] {
      var n := |packs| - 1;
      IndexWritesMeaning(r, packs[..n]);
      assert IndexWrites(packs)[..n] == IndexWrites(packs[..n]);
      IndexesAddedStep(r.indexes, packs, ApplyAll(r, IndexWrites(packs[..n])).indexes,
        ApplyAll(r, IndexWrites(packs)).indexes);
    }
  }

  /** The pack and index writes of a batch. */
  function WithPacks(r: Store, packs: seq<Pack>): Store {
    ApplyAll(ApplyAll(r, PackWrites(packs)), IndexWrites(packs))
  }

  lemma WithPacksKeepsConsistency(r: Store, packs: seq<Pack>)
    requires Consistent(r.packs, r.indexes) && WellSealed(packs)
    ensures var r' := WithPacks(r, packs);
            && Consistent(r'.packs, r'.indexes)
            && forall h :: Indexed(r.indexes, h) ==> Indexed(r'.indexes, h)
  {
    PackWritesMeaning(r, packs);
    var r1 := ApplyAll(r, PackWrites(packs));
    IndexWritesMeaning(r1, packs);
    var r' := WithPacks(r, packs);
    AddedPacksAreConsistent(r.packs, r.indexes, packs, r'.packs, r'.indexes);
    forall h | Indexed(r.indexes, h) ensures Indexed(r'.indexes, h) {
      var id :| id in r.indexes && ListsHash(r.indexes[id], h);
      assert id in r'.indexes && ListsHash(r'.indexes[id], h);
    }
  }

  lemma AddedPacksAreConsistent(packs: Packs, indexes: Indexes, added: seq<Pack>, packs': Packs, indexes': Indexes)
    requires Consistent(packs, indexes) && WellSealed(added)
    requires PacksAdded(packs, added, packs') && IndexesAdded(indexes, added, indexes')
    ensures Consistent(packs', indexes')
  {
    forall id | id in packs' ensures id == Digest(packs'[id]) {
      if id !in packs {
        var p :| p in added && p.id == id && packs'[id] == p.data;
      }
    }
    forall id | id in indexes'
      ensures indexes'[id].packId == id && id in packs' && forall pc :: pc in indexes'[id].chunks ==>
        Slices(packs'[id], pc)
    {
      if id !in indexes {
        var i: nat :| Writer(added, i, indexes, id);
        assert added[i] in added;
        assert Digest(packs'[id]) == Digest(added[i].data);
      }
    }
  }

  /** No pack of the batch shares its identifier with an index already stored or with
      another pack of the batch. */
  ghost predicate FreshIds(packs: seq<Pack>, indexes: Indexes) {
    forall i: nat :: i < |packs| ==> WritesIndexOf(packs, i, indexes)
  }

  /** Publishing only the missing chunks makes the whole manifest readable exactly when
      every built pack is new. An index is skipped when one with the same pack
      identifier exists, even if that one cuts the same bytes differently. */
  lemma PublishedIsReadableIff(
    r: Store, chunks: seq<Chunk>, found: set<Digest>, groups: seq<seq<Chunk>>, packs: seq<Pack>)
    requires Consistent(r.packs, r.indexes) && Cut(chunks)
    requires forall h :: h in found <==> h in HashesOf(chunks) && Indexed(r.indexes, h)
    requires IsPacking(Missing(chunks, found), groups, packs)
    ensures AllIndexed(WithPacks(r, packs).indexes, HashesOf(chunks)) <==> FreshIds(packs, r.indexes)
  {
    if FreshIds(packs, r.indexes) {
      MissingMembers(chunks, found);
      BuiltPacksAreWellSealed(Missing(chunks, found), groups, packs);
      WithPacksKeepsConsistency(r, packs);
      forall h | h in HashesOf(chunks) ensures Indexed(WithPacks(r, packs).indexes, h) {
        if h !in found {
          FreshPackListsItsChunks(r, chunks, found, groups, packs, h);
        }
      }
    } else {
      var i: nat :| i < |packs| && !WritesIndexOf(packs, i, r.indexes);
      SkippedIndexLosesItsChunks(r, chunks, found, groups, packs, i);
    }
  }

  lemma FreshPackListsItsChunks(
    r: Store, chunks: seq<Chunk>, found: set<Digest>, groups: seq<seq<Chunk>>, packs: seq<Pack>, h: Digest)
    requires h in HashesOf(chunks) && h !in found && IsPacking(Missing(chunks, found), groups, packs)
    requires FreshIds(packs, r.indexes)
    ensures Indexed(WithPacks(r, packs).indexes, h)
  {
    var missing := Missing(chunks, found);
    MissingMembers(chunks, found);
    PackWritesMeaning(r, packs);
    IndexWritesMeaning(ApplyAll(r, PackWrites(packs)), packs);
    var n :| 0 <= n < |chunks| && chunks[n].hash == h;
    assert chunks[n] in missing;
    var at, entry, c := EachHashInExactlyOnePack(missing, groups, packs, h);
    assert Writer(packs, at, r.indexes, packs[at].id);
  }

  /** A hash that only pack `i` lists stays unlisted when that index is skipped. */
  lemma SkippedIndexListsNothing(r: Store, packs: seq<Pack>, i: nat, h: Digest)
    requires i < |packs| && !WritesIndexOf(packs, i, r.indexes) && !Indexed(r.indexes, h)
    requires forall j: nat :: j < |packs| && j != i ==> !ListsHash(packs[j].index, h)
    ensures !Indexed(WithPacks(r, packs).indexes, h)
  {
    var r1 := ApplyAll(r, PackWrites(packs));
    PackWritesMeaning(r, packs);
    IndexWritesMeaning(r1, packs);
    var r' := WithPacks(r, packs);
    forall id | id in r'.indexes ensures !ListsHash(r'.indexes[id], h) {
      if id !in r.indexes {
        var j: nat :| Writer(packs, j, r.indexes, id);
        assert j != i;
      }
    }
  }

  /** The chunks of a pack whose index was skipped are listed nowhere. */
  lemma SkippedIndexLosesItsChunks(
    r: Store, chunks: seq<Chunk>, found: set<Digest>, groups: seq<seq<Chunk>>, packs: seq<Pack>, i: nat)
    requires forall h :: h in found <==> h in HashesOf(chunks) && Indexed(r.indexes, h)
    requires IsPacking(Missing(chunks, found), groups, packs)
    requires i < |packs| && !WritesIndexOf(packs, i, r.indexes)
    ensures exists c :: c in groups[i] && c.hash in HashesOf(chunks) && !Indexed(WithPacks(r, packs).indexes, c.hash)
  {
    var missing := Missing(chunks, found);
    MissingMembers(chunks, found);
    DistinctProperties(missing);
    var c := groups[i][0];
    assert c in groups[i];
    FlattenMembers(groups, c);
    assert c in missing;
    var n :| 0 <= n < |chunks| && chunks[n] == c;
    assert HashesOf(chunks)[n] == c.hash;
    assert c.hash in Hashes(missing);
    var at, entry, same := EachHashInExactlyOnePack(missing, groups, packs, c.hash);
    SealListsItsChunks(groups[i], c.hash);
    assert c.hash in Hashes(groups[i]);
    SkippedIndexListsNothing(r, packs, i, c.hash);
  }

  function OneByte(a: Byte): Chunk {
    Chunk(Digest([a]), [a])
  }

  function TwoBytes(a: Byte, b: Byte): Chunk {
    Chunk(Digest([a, b]), [a, b])
  }

  lemma SealOfOne(c: Chunk)
    requires |c.data| <= Binary.U32_MAX
    ensures Seal([c]).data == c.data && Seal([c]).id == Digest(c.data) == Seal([c]).index.packId
    ensures Seal([c]).index.chunks == [PackedChunk(c.hash, 0, |c.data|)]
  {
    assert [c][..0] == [];
    assert Join([c]) == c.data && Layout([c]) == [PackedChunk(c.hash, 0, |c.data|)];
  }

  lemma SealOfTwo(a: Byte, b: Byte)
    ensures Seal([OneByte(a), OneByte(b)]).data == [a, b] && Seal([OneByte(a), OneByte(b)]).id == Digest([a, b])
  {
    var parts := [OneByte(a), OneByte(b)];
    assert parts[..1] == [OneByte(a)] && [OneByte(a)][..0] == [];
    assert Join([OneByte(a)]) == [a] && Join(parts) == [a, b];
  }

  lemma HashesOfOne(c: Chunk)
    ensures Hashes([c]) == {c.hash}
  {
    assert [c][0] in [c];
    assert forall d :: d in [c] ==> d == c;
  }

  lemma FlattenOfOne(group: seq<Chunk>)
    ensures Flatten([group]) == group
  {
    var groups := [group];
    assert groups[..0] == [];
    assert Flatten(groups[..0]) == [];
  }

  lemma DistinctOfTwo(x: Chunk, y: Chunk)
    requires x.hash != y.hash
    ensures Distinct([x, y]) == [x, y]
  {
    var one, two := [x], [x, y];
    assert one[..0] == [] && two[..1] == one;
    HashesOfOne(x);
    assert Distinct(one) == one;
  }

  lemma TwoChunksArePacked(a: Byte, b: Byte)
    requires a != b
    ensures var parts := [OneByte(a), OneByte(b)]; IsPacking(parts, [parts], [Seal(parts)])
  {
    var x, y := OneByte(a), OneByte(b);
    var parts := [x, y];
    assert x.data[0] != y.data[0];
    SealOfTwo(a, b);
    FlattenOfOne(parts);
    DistinctOfTwo(x, y);
    assert |Seal(parts).data| < TARGET_PACK_SIZE + LargestChunk(parts);
  }

  /** The remote after the file "ab" was stored as one chunk. */
  function OneFileStored(a: Byte, b: Byte): Store {
    var whole := Seal([TwoBytes(a, b)]);
    Store(map[whole.id := whole.data], map[whole.id := whole.index], map[], {}, map[], map[])
  }

  /** Two new files "a" and "b" published in one run: their pack has the bytes, hence the
      identifier, of the stored one; its index is not written and neither file can be read. */
  lemma SplitFilesCollideWithAStoredPack(a: Byte, b: Byte)
    requires a != b
    ensures var r, parts := OneFileStored(a, b), [OneByte(a), OneByte(b)];
            && Consistent(r.packs, r.indexes) && AllIndexed(r.indexes, [Digest([a, b])])
            && IsPacking(parts, [parts], [Seal(parts)]) && !FreshIds([Seal(parts)], r.indexes)
            && forall c :: c in parts ==> !Indexed(WithPacks(r, [Seal(parts)]).indexes, c.hash)
  {
    SealOfOne(TwoBytes(a, b));
    SealOfTwo(a, b);
    TwoChunksArePacked(a, b);
    assert Slices([a, b], PackedChunk(Digest([a, b]), 0, 2)) by {
      assert [a, b][0..2] == [a, b];
    }
    var r, packs := OneFileStored(a, b), [Seal([OneByte(a), OneByte(b)])];
    assert ListsHash(r.indexes[Digest([a, b])], Digest([a, b])) by {
      assert r.indexes[Digest([a, b])].chunks[0].hash == Digest([a, b]);
    }
    assert !WritesIndexOf(packs, 0, r.indexes);
    NothingElseIsListed(a, b, a);
    NothingElseIsListed(a, b, b);
    SkippedIndexListsNothing(r, packs, 0, OneByte(a).hash);
    SkippedIndexListsNothing(r, packs, 0, OneByte(b).hash);
  }

  lemma NothingElseIsListed(a: Byte, b: Byte, x: Byte)
    ensures !Indexed(OneFileStored(a, b).indexes, OneByte(x).hash)
  {
    SealOfOne(TwoBytes(a, b));
    assert |[x]| != |[a, b]|;
  }

  /** What was readable stays readable, and reads the same: a manifest determines its
      bytes and no write removes an index. */
  lemma LaterWritesKeepReads(r: Store, packs: seq<Pack>, hashes: seq<Digest>)
    requires Consistent(r.packs, r.indexes) && WellSealed(packs)
    requires AllIndexed(r.indexes, hashes)
    ensures AllIndexed(WithPacks(r, packs).indexes, hashes)
  {
    WithPacksKeepsConsistency(r, packs);
  }

  // ---- Garbage collection ----

  /** Packs no located live chunk sits in. */
  function DeadPacks(packs: Packs, found: map<Digest, Location>): set<Digest> {
    packs.Keys - set h | h in found :: found[h].packId
  }

  /** A live chunk was located in the pack. */
  ghost predicate InUse(found: map<Digest, Location>, id: Digest) {
    exists h :: h in found && found[h].packId == id
  }

  /** Exactly the packs in use stay, and each of them has an index that lists a live chunk. */
  lemma CollectedPacks(packs: Packs, indexes: Indexes, live: set<Digest>, found: map<Digest, Location>)
    requires Consistent(packs, indexes) && IsLookup(indexes, live, found)
    ensures forall id :: id in packs - DeadPacks(packs, found) <==> id in packs && InUse(found, id)
    ensures forall id :: id in packs - DeadPacks(packs, found) ==>
      id in indexes && exists h :: h in live && ListsHash(indexes[id], h)
  {
    forall id | id in packs - DeadPacks(packs, found)
      ensures InUse(found, id) && id in indexes && exists h :: h in live && ListsHash(indexes[id], h)
    {
      var h :| h in found && found[h].packId == id;
      var file :| EntryIn(indexes, file, h, found[h]);
      assert file == id && ListsHash(indexes[id], h);
    }
  }

  /** Deleting the dead packs leaves every live manifest readable or unreadable as it
      was, although only one of possibly several copies of each chunk was located. */
  lemma GarbageCollectionKeepsLiveReads(
    packs: Packs, indexes: Indexes, live: set<Digest>, found: map<Digest, Location>, hashes: seq<Digest>)
    requires Consistent(packs, indexes) && IsLookup(indexes, live, found)
    requires forall h :: h in hashes ==> h in live
    ensures var dead := DeadPacks(packs, found);
            && Consistent(packs - dead, indexes - dead)
            && (AllIndexed(indexes - dead, hashes) <==> AllIndexed(indexes, hashes))
  {
    var dead := DeadPacks(packs, found);
    forall h | h in live ensures Indexed(indexes - dead, h) <==> Indexed(indexes, h) {
      if Indexed(indexes, h) {
        var file :| EntryIn(indexes, file, h, found[h]);
        assert file !in dead;
        assert ListsHash((indexes - dead)[file], h);
      }
      if Indexed(indexes - dead, h) {
        var id :| id in indexes - dead && ListsHash((indexes - dead)[id], h);
        assert ListsHash(indexes[id], h);
      }
    }
  }
}
