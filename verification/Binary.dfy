/** Packing of content-addressed chunks (src/binary.rs). */
module Binary {
  import opened Types

  /** Four mebibytes. */
  const TARGET_PACK_SIZE: nat := 4_194_304
  const U32_MAX: nat := 0xFFFF_FFFF

  /** One chunk with the hash it is filed under. */
  datatype Chunk = Chunk(hash: Digest, data: Bytes)

  datatype PackedChunk = PackedChunk(hash: Digest, offset: nat, length: nat)

  datatype PackIndex = PackIndex(packId: Digest, chunks: seq<PackedChunk>)

  datatype Pack = Pack(id: Digest, data: Bytes, index: PackIndex)

  function LengthU32(n: nat): nat {
    if n > U32_MAX then U32_MAX else n
  }

  function Hashes(chunks: seq<Chunk>): set<Digest> {
    set c | c in chunks :: c.hash
  }

  function Join(chunks: seq<Chunk>): Bytes {
    if chunks == [] then [] else Join(chunks[..|chunks| - 1]) + chunks[|chunks| - 1].data
  }

  /** Keep the first chunk of each hash. */
  function Distinct(chunks: seq<Chunk>): seq<Chunk> {
    if chunks == [] then []
    else
      var rest, last := chunks[..|chunks| - 1], chunks[|chunks| - 1];
      if last.hash in Hashes(rest) then Distinct(rest) else Distinct(rest) + [last]
  }

  /** Where each chunk of a group starts once the group is concatenated. */
  function Layout(group: seq<Chunk>): (layout: seq<PackedChunk>)
    ensures |layout| == |group|
  {
    if group == [] then []
    else
      var rest, last := group[..|group| - 1], group[|group| - 1];
      Layout(rest) + [PackedChunk(last.hash, |Join(rest)|, LengthU32(|last.data|))]
  }

  /** Content-address a buffer and stamp the id into its index. */
  function SealPack(buf: Bytes, chunks: seq<PackedChunk>): Pack {
    Pack(Digest(buf), buf, PackIndex(Digest(buf), chunks))
  }

  function Seal(group: seq<Chunk>): Pack {
    SealPack(Join(group), Layout(group))
  }

  function Flatten(groups: seq<seq<Chunk>>): seq<Chunk> {
    if groups == [] then [] else Flatten(groups[..|groups| - 1]) + groups[|groups| - 1]
  }

  function LargestChunk(chunks: seq<Chunk>): (n: nat)
    ensures forall c :: c in chunks ==> |c.data| <= n
  {
    if chunks == [] then 0 else Max(LargestChunk(chunks[..|chunks| - 1]), |chunks[|chunks| - 1].data|)
  }

  /** `packs` are the sealed `groups`: a split of the distinct chunks, in order, into
      non-empty runs; every pack but the last has reached the target and none is
      larger than the target by a whole chunk. */
  ghost predicate IsPacking(chunks: seq<Chunk>, groups: seq<seq<Chunk>>, packs: seq<Pack>) {
    && Flatten(groups) == Distinct(chunks)
    && |packs| == |groups|
    && (forall i :: 0 <= i < |groups| ==> groups[i] != [] && packs[i] == Seal(groups[i]))
    && (forall i :: 0 <= i < |packs| - 1 ==> |packs[i].data| >= 4_194_304)
    && (forall i :: 0 <= i < |packs| ==> |packs[i].data| < 4_194_304 + LargestChunk(chunks))
  }

  /** What a chunker returns: no empty chunk, so an empty buffer has no pending chunk. */
  predicate NonEmpty(chunks: seq<Chunk>) {
    forall c :: c in chunks ==> c.data != []
  }

  lemma DistinctStep(chunks: seq<Chunk>, i: nat)
    requires i < |chunks|
    ensures Hashes(chunks[..i + 1]) == Hashes(chunks[..i]) + {chunks[i].hash}
    ensures if chunks[i].hash in Hashes(chunks[..i])
            then Hashes(chunks[..i + 1]) == Hashes(chunks[..i]) && Distinct(chunks[..i + 1]) == Distinct(chunks[..i])
            else Distinct(chunks[..i + 1]) == Distinct(chunks[..i]) + [chunks[i]]
  {
    assert chunks[..i + 1] == chunks[..i] + [chunks[i]];
    assert chunks[..i + 1][..i] == chunks[..i];
  }

  lemma GroupStep(group: seq<Chunk>, c: Chunk)
    ensures Join(group + [c]) == Join(group) + c.data
    ensures Layout(group + [c]) == Layout(group) + [PackedChunk(c.hash, |Join(group)|, LengthU32(|c.data|))]
  {
    assert (group + [c])[..|group|] == group;
  }

  lemma FlattenStep(groups: seq<seq<Chunk>>, group: seq<Chunk>)
    ensures Flatten(groups + [group]) == Flatten(groups) + group
  {
    assert (groups + [group])[..|groups|] == groups;
  }

  ghost predicate Sealed(groups: seq<seq<Chunk>>, packs: seq<Pack>) {
    |packs| == |groups| && forall k :: 0 <= k < |groups| ==> groups[k] != [] && packs[k] == Seal(groups[k])
  }

  ghost predicate Full(packs: seq<Pack>, largest: nat) {
    forall k :: 0 <= k < |packs| ==> TARGET_PACK_SIZE <= |packs[k].data| < TARGET_PACK_SIZE + largest
  }

  lemma SealStep(groups: seq<seq<Chunk>>, packs: seq<Pack>, group: seq<Chunk>)
    requires Sealed(groups, packs) && group != []
    ensures Sealed(groups + [group], packs + [Seal(group)])
    ensures Flatten(groups + [group]) == Flatten(groups) + group
  {
    FlattenStep(groups, group);
  }

  lemma FullStep(packs: seq<Pack>, pack: Pack, largest: nat)
    requires Full(packs, largest) && TARGET_PACK_SIZE <= |pack.data| < TARGET_PACK_SIZE + largest
    ensures Full(packs + [pack], largest)
  {
  }

  /** The last buffer is flushed when it is not empty, whatever its size. */
  lemma FlushLast(chunks: seq<Chunk>, groups: seq<seq<Chunk>>, packs: seq<Pack>, group: seq<Chunk>)
    requires Sealed(groups, packs) && Full(packs, LargestChunk(chunks)) && |Join(group)| < TARGET_PACK_SIZE
    requires Flatten(groups) + group == Distinct(chunks)
    ensures group == [] ==> IsPacking(chunks, groups, packs)
    ensures group != [] ==> IsPacking(chunks, groups + [group], packs + [Seal(group)])
  {
    if group == [] {
      assert Flatten(groups) + group == Flatten(groups);
    } else {
      SealStep(groups, packs, group);
    }
  }

  /** What the loop keeps after the first `i` chunks: the sealed packs, and the pending
      `group` of which `buf` and `chunks` are the bytes and the layout. */
  ghost predicate Building(newChunks: seq<Chunk>, i: nat, seen: set<Digest>, buf: Bytes, chunks: seq<PackedChunk>,
                           group: seq<Chunk>, groups: seq<seq<Chunk>>, packs: seq<Pack>)
    requires i <= |newChunks|
  {
    && seen == Hashes(newChunks[..i])
    && buf == Join(group) && chunks == Layout(group) && (group != [] <==> buf != [])
    && Flatten(groups) + group == Distinct(newChunks[..i])
    && Sealed(groups, packs)
  }

  lemma SkipChunk(newChunks: seq<Chunk>, i: nat, seen: set<Digest>, buf: Bytes, chunks: seq<PackedChunk>,
                  group: seq<Chunk>, groups: seq<seq<Chunk>>, packs: seq<Pack>)
    requires i < |newChunks| && Building(newChunks, i, seen, buf, chunks, group, groups, packs)
    requires newChunks[i].hash in seen
    ensures Building(newChunks, i + 1, seen, buf, chunks, group, groups, packs)
  {
    DistinctStep(newChunks, i);
  }

  lemma AddChunk(newChunks: seq<Chunk>, i: nat, seen: set<Digest>, buf: Bytes, chunks: seq<PackedChunk>,
                 group: seq<Chunk>, groups: seq<seq<Chunk>>, packs: seq<Pack>)
    requires i < |newChunks| && Building(newChunks, i, seen, buf, chunks, group, groups, packs)
    requires newChunks[i].hash !in seen && newChunks[i].data != []
    ensures var c := newChunks[i];
            Building(newChunks, i + 1, seen + {c.hash}, buf + c.data,
                     chunks + [PackedChunk(c.hash, |buf|, LengthU32(|c.data|))], group + [c], groups, packs)
  {
    DistinctStep(newChunks, i);
    GroupStep(group, newChunks[i]);
    assert Flatten(groups) + (group + [newChunks[i]]) == (Flatten(groups) + group) + [newChunks[i]];
  }

  lemma SealGroup(newChunks: seq<Chunk>, i: nat, seen: set<Digest>, buf: Bytes, chunks: seq<PackedChunk>,
                  group: seq<Chunk>, groups: seq<seq<Chunk>>, packs: seq<Pack>)
    requires i <= |newChunks| && Building(newChunks, i, seen, buf, chunks, group, groups, packs) && buf != []
    ensures Building(newChunks, i, seen, [], [], [], groups + [group], packs + [SealPack(buf, chunks)])
  {
    SealStep(groups, packs, group);
    assert Flatten(groups + [group]) + [] == Flatten(groups) + group;
  }

  method BuildPacks(newChunks: seq<Chunk>) returns (packs: seq<Pack>, ghost groups: seq<seq<Chunk>>)
    requires NonEmpty(newChunks)
    ensures IsPacking(newChunks, groups, packs)
  {
    packs, groups := [], [];
    var seen: set<Digest>, buf: Bytes, chunks: seq<PackedChunk> := {}, [], [];
    ghost var group: seq<Chunk> := [];
    for i := 0 to |newChunks|
      invariant Building(newChunks, i, seen, buf, chunks, group, groups, packs)
      invariant |buf| < TARGET_PACK_SIZE && Full(packs, LargestChunk(newChunks))
    {
      var chunk := newChunks[i];
      if chunk.hash in seen {
        SkipChunk(newChunks, i, seen, buf, chunks, group, groups, packs);
        continue;
      }
      AddChunk(newChunks, i, seen, buf, chunks, group, groups, packs);
      seen := seen + {chunk.hash};
      chunks := chunks + [PackedChunk(chunk.hash, |buf|, LengthU32(|chunk.data|))];
      buf := buf + chunk.data;
      group := group + [chunk];
      if |buf| >= TARGET_PACK_SIZE {
        SealGroup(newChunks, i + 1, seen, buf, chunks, group, groups, packs);
        FullStep(packs, SealPack(buf, chunks), LargestChunk(newChunks));
        packs := packs + [SealPack(buf, chunks)];
        groups := groups + [group];
        buf, chunks, group := [], [], [];
      }
    }
    assert newChunks[..|newChunks|] == newChunks;
    FlushLast(newChunks, groups, packs, group);
    if buf != [] {
      packs := packs + [SealPack(buf, chunks)];
      groups := groups + [group];
    }
  }

  // ---- What a packing means ----

  /** The entry's range of the pack holds the data. */
  ghost predicate Cuts(pack: Bytes, entry: PackedChunk, data: Bytes) {
    entry.offset + entry.length <= |pack| && pack[entry.offset..entry.offset + entry.length] == data
  }

  lemma CutsLonger(pack: Bytes, more: Bytes, entry: PackedChunk, data: Bytes)
    requires Cuts(pack, entry, data)
    ensures Cuts(pack + more, entry, data)
  {
    assert (pack + more)[entry.offset..entry.offset + entry.length]
        == pack[entry.offset..entry.offset + entry.length];
  }

  /** Every listed chunk can be cut back out of its pack, as far as 32 bits of length reach. */
  lemma {:induction false} LayoutSlices(group: seq<Chunk>, i: nat)
    requires i < |group|
    ensures Layout(group)[i].hash == group[i].hash && Cuts(Join(group), Layout(group)[i], Recorded(group[i]))
  {
    var rest, last := group[..|group| - 1], group[|group| - 1];
    assert group == rest + [last];
    GroupStep(rest, last);
    if i < |rest| {
      LayoutSlices(rest, i);
      CutsLonger(Join(rest), last.data, Layout(rest)[i], Recorded(group[i]));
    } else {
      assert Join(group)[|Join(rest)|..] == last.data;
    }
  }

  /** As much of a chunk as 32 bits of length can count. */
  function Recorded(c: Chunk): Bytes {
    if |c.data| < 0x1_0000_0000 then c.data else c.data[..0xFFFF_FFFF]
  }

  /** No hash occurs twice among the distinct chunks, and none is lost. */
  lemma {:induction false} DistinctProperties(chunks: seq<Chunk>)
    ensures Hashes(Distinct(chunks)) == Hashes(chunks)
    ensures Unrepeated(Distinct(chunks))
    ensures forall c :: c in Distinct(chunks) ==> c in chunks
  {
    if chunks != [] {
      var rest, last := chunks[..|chunks| - 1], chunks[|chunks| - 1];
      DistinctProperties(rest);
      assert chunks == rest + [last];
      assert Hashes(chunks) == Hashes(rest) + {last.hash};
      assert Hashes(Distinct(rest) + [last]) == Hashes(Distinct(rest)) + {last.hash};
      assert forall i :: 0 <= i < |Distinct(rest)| ==> Distinct(rest)[i].hash in Hashes(Distinct(rest));
    }
  }

  lemma {:induction false} FlattenMembers(groups: seq<seq<Chunk>>, c: Chunk)
    ensures c in Flatten(groups) <==> exists i :: 0 <= i < |groups| && c in groups[i]
  {
    if groups != [] {
      var rest := groups[..|groups| - 1];
      FlattenMembers(rest, c);
      if c in Flatten(groups) && c in Flatten(rest) {
        var i :| 0 <= i < |rest| && c in rest[i];
        assert c in groups[i];
      }
    }
  }

  ghost predicate Unrepeated(chunks: seq<Chunk>) {
    forall i, j :: 0 <= i < j < |chunks| ==> chunks[i].hash != chunks[j].hash
  }

  lemma UnrepeatedSplit(a: seq<Chunk>, b: seq<Chunk>)
    requires Unrepeated(a + b)
    ensures Unrepeated(a)
    ensures forall x, y :: x in a && y in b ==> x.hash != y.hash
  {
    var all := a + b;
    assert forall i :: 0 <= i < |a| ==> all[i] == a[i];
    assert forall j :: 0 <= j < |b| ==> all[|a| + j] == b[j];
    forall x, y | x in a && y in b ensures x.hash != y.hash {
      var i :| 0 <= i < |a| && a[i] == x;
      var j :| 0 <= j < |b| && b[j] == y;
      assert all[i].hash != all[|a| + j].hash;
    }
  }

  /** In a flattening without repeated hashes no hash occurs in two groups. */
  lemma {:induction false} GroupsAreDisjoint(groups: seq<seq<Chunk>>, i: nat, j: nat, a: Chunk, b: Chunk)
    requires i < j < |groups| && a in groups[i] && b in groups[j] && Unrepeated(Flatten(groups))
    ensures a.hash != b.hash
  {
    var rest, last := groups[..|groups| - 1], groups[|groups| - 1];
    UnrepeatedSplit(Flatten(rest), last);
    if j < |rest| {
      GroupsAreDisjoint(rest, i, j, a, b);
    } else {
      assert a in rest[i];
      FlattenMembers(rest, a);
    }
  }

  /** The listed hashes of a sealed group are those of its chunks. */
  lemma {:induction false} LayoutHashes(group: seq<Chunk>, i: nat)
    requires i < |group|
    ensures Layout(group)[i].hash == group[i].hash
  {
    var rest := group[..|group| - 1];
    if i < |rest| {
      LayoutHashes(rest, i);
    }
  }

  ghost predicate ListsHash(index: PackIndex, h: Digest) {
    exists i :: 0 <= i < |index.chunks| && index.chunks[i].hash == h
  }

  lemma SealListsItsChunks(group: seq<Chunk>, h: Digest)
    ensures ListsHash(Seal(group).index, h) <==> h in Hashes(group)
  {
    forall i: nat | i < |group| ensures Layout(group)[i].hash == group[i].hash {
      LayoutHashes(group, i);
    }
    if h in Hashes(group) {
      var i :| 0 <= i < |group| && group[i].hash == h;
      assert Seal(group).index.chunks[i].hash == h;
    }
  }

  /** Each distinct hash is listed by exactly one pack, by an entry that cuts a chunk with
      that hash out of it. */
  lemma EachHashInExactlyOnePack(chunks: seq<Chunk>, groups: seq<seq<Chunk>>, packs: seq<Pack>, h: Digest)
    returns (at: nat, entry: nat, c: Chunk)
    requires IsPacking(chunks, groups, packs) && h in Hashes(chunks)
    ensures at < |packs| && entry < |packs[at].index.chunks| && packs[at].index.chunks[entry].hash == h
    ensures c in chunks && c.hash == h
    ensures (forall x :: x in chunks ==> |x.data| <= U32_MAX) ==>
      Cuts(packs[at].data, packs[at].index.chunks[entry], c.data)
    ensures forall i: nat :: i < |packs| && i != at ==> !ListsHash(packs[i].index, h)
  {
    DistinctProperties(chunks);
    c :| c in Distinct(chunks) && c.hash == h;
    FlattenMembers(groups, c);
    var n :| 0 <= n < |groups| && c in groups[n];
    var m :| 0 <= m < |groups[n]| && groups[n][m] == c;
    at, entry := n, m;
    LayoutHashes(groups[at], entry);
    if forall x :: x in chunks ==> |x.data| <= U32_MAX {
      GroupCuts(chunks, groups, at, entry);
    }
    forall i: nat | i < |packs| && i != at ensures !ListsHash(packs[i].index, h) {
      SealListsItsChunks(groups[i], h);
      if h in Hashes(groups[i]) {
        var b :| b in groups[i] && b.hash == h;
        if i < at {
          GroupsAreDisjoint(groups, i, at, b, c);
        } else {
          GroupsAreDisjoint(groups, at, i, c, b);
        }
        assert false;
      }
    }
  }

  lemma GroupCuts(chunks: seq<Chunk>, groups: seq<seq<Chunk>>, at: nat, entry: nat)
    requires Flatten(groups) == Distinct(chunks) && at < |groups| && entry < |groups[at]|
    requires forall x :: x in chunks ==> |x.data| <= U32_MAX
    ensures Cuts(Join(groups[at]), Layout(groups[at])[entry], groups[at][entry].data)
  {
    DistinctProperties(chunks);
    forall x | x in groups[at] ensures |x.data| <= U32_MAX {
      FlattenMembers(groups, x);
    }
    LayoutSlices(groups[at], entry);
  }

  function TotalBytes(packs: seq<Pack>): nat {
    if packs == [] then 0 else TotalBytes(packs[..|packs| - 1]) + |packs[|packs| - 1].data|
  }

  function TotalLength(chunks: seq<Chunk>): nat {
    if chunks == [] then 0 else TotalLength(chunks[..|chunks| - 1]) + |chunks[|chunks| - 1].data|
  }

  lemma {:induction false} TotalLengthConcat(a: seq<Chunk>, b: seq<Chunk>)
    ensures TotalLength(a + b) == TotalLength(a) + TotalLength(b)
  {
    if b == [] {
      assert a + b == a;
    } else {
      assert (a + b)[..|a + b| - 1] == a + b[..|b| - 1];
      TotalLengthConcat(a, b[..|b| - 1]);
    }
  }

  lemma {:induction false} JoinLength(chunks: seq<Chunk>)
    ensures |Join(chunks)| == TotalLength(chunks)
  {
    if chunks != [] {
      JoinLength(chunks[..|chunks| - 1]);
    }
  }

  /** No byte is stored twice and none is dropped. */
  lemma PackedBytesAreConserved(chunks: seq<Chunk>, groups: seq<seq<Chunk>>, packs: seq<Pack>)
    requires IsPacking(chunks, groups, packs)
    ensures TotalBytes(packs) == TotalLength(Distinct(chunks))
  {
    SealedBytesAreConserved(groups, packs);
  }

  lemma {:induction false} SealedBytesAreConserved(groups: seq<seq<Chunk>>, packs: seq<Pack>)
    requires |packs| == |groups| && forall i :: 0 <= i < |groups| ==> packs[i] == Seal(groups[i])
    ensures TotalBytes(packs) == TotalLength(Flatten(groups))
  {
    if packs != [] {
      var n := |packs| - 1;
      SealedBytesAreConserved(groups[..n], packs[..n]);
      TotalLengthConcat(Flatten(groups[..n]), groups[n]);
      JoinLength(groups[n]);
    }
  }
}
