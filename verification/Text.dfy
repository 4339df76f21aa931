/** The UTF-16 middle diff behind `TextDoc::set_text` (src/text.rs). */
module Text {
  import opened Types

  /** A Unicode scalar value: any code point except the surrogates. */
  newtype Scalar = x: int | 0 <= x < 0xD800 || 0xE000 <= x < 0x11_0000

  /** A UTF-16 code unit. */
  newtype Unit = x: int | 0 <= x < 0x1_0000

  const U32_MAX: nat := 0xFFFF_FFFF

  /** UTF-16 encoding of one scalar (section 2.1 of RFC 2781). */
  function EncodeScalar(c: Scalar): (units: seq<Unit>)
    ensures 1 <= |units| <= 2
    ensures !IsLow(units[0])
    ensures |units| == 2 ==> IsLow(units[1])
  {
    if c < 0x1_0000 then [c as int as Unit]
    else
      var u := c as int - 0x1_0000;
      [(0xD800 + u / 0x400) as Unit, (0xDC00 + u % 0x400) as Unit]
  }

  predicate IsLow(u: Unit) {
    0xDC00 <= u < 0xE000
  }

  function Encode(s: seq<Scalar>): seq<Unit> {
    if s == [] then [] else EncodeScalar(s[0]) + Encode(s[1..])
  }

  predicate IsHigh(u: Unit) {
    0xD800 <= u < 0xDC00
  }

  /** The text that some units encode, if they encode one (section 2.2 of RFC 2781). */
  function Decode(units: seq<Unit>): Option<seq<Scalar>> {
    if units == [] then Some([])
    else if IsLow(units[0]) then None
    else if !IsHigh(units[0]) then Prepended(units[0] as int as Scalar, Decode(units[1..]))
    else if |units| == 1 || !IsLow(units[1]) then None
    else Prepended(Paired(units[0], units[1]), Decode(units[2..]))
  }

  /** The character of a surrogate pair. */
  function Paired(high: Unit, low: Unit): Scalar
    requires IsHigh(high) && IsLow(low)
  {
    ((high as int - 0xD800) * 0x400 + (low as int - 0xDC00) + 0x1_0000) as Scalar
  }

  function Prepended(c: Scalar, rest: Option<seq<Scalar>>): Option<seq<Scalar>> {
    if rest.Some? then Some([c] + rest.value) else None
  }

  /** Encoding a text and decoding the units are each other's inverse. */
  lemma DecodesIff(units: seq<Unit>, s: seq<Scalar>)
    ensures Decode(units) == Some(s) <==> units == Encode(s)
  {
    EncodedIsDecoded(s);
    DecodedIsEncoded(units);
  }

  lemma {:induction false} EncodedIsDecoded(s: seq<Scalar>)
    ensures Decode(Encode(s)) == Some(s)
  {
    if s != [] {
      var first, rest := EncodeScalar(s[0]), Encode(s[1..]);
      EncodedIsDecoded(s[1..]);
      assert (first + rest)[|first|..] == rest;
      assert s == [s[0]] + s[1..];
    }
  }

  lemma {:induction false} DecodedIsEncoded(units: seq<Unit>)
    ensures Decode(units).Some? ==> Encode(Decode(units).value) == units
  {
    if units != [] && Decode(units).Some? {
      var n := if IsHigh(units[0]) then 2 else 1;
      DecodedIsEncoded(units[n..]);
      var s := Decode(units).value;
      assert s[1..] == Decode(units[n..]).value;
      assert units == units[..n] + units[n..];
      assert EncodeScalar(s[0]) == units[..n];
    }
  }

  /** Code-unit offset at which the i-th scalar starts. */
  function Offset(s: seq<Scalar>, i: nat): nat
    requires i <= |s|
  {
    if i == 0 then 0 else Offset(s, i - 1) + |EncodeScalar(s[i - 1])|
  }

  /** A cut before unit `cut` falls inside a surrogate pair. */
  predicate SplitsPair(units: seq<Unit>, cut: nat) {
    cut < |units| && IsLow(units[cut])
  }

  /** The k-th units from the front agree. */
  predicate HeadMatch(a: seq<Unit>, b: seq<Unit>, k: nat) {
    k < |a| && k < |b| && a[k] == b[k]
  }

  /** The k-th units from the back agree. */
  predicate TailMatch(a: seq<Unit>, b: seq<Unit>, k: nat) {
    k < |a| && k < |b| && a[|a| - 1 - k] == b[|b| - 1 - k]
  }

  /** `n` is the length of the longest common prefix. */
  ghost predicate IsCommonPrefix(a: seq<Unit>, b: seq<Unit>, n: nat) {
    n <= |a| && n <= |b| && (forall k: nat :: k < n ==> HeadMatch(a, b, k)) && !HeadMatch(a, b, n)
  }

  /** `n` is the length of the longest common suffix that leaves the first `p` units
      of both sides alone. */
  ghost predicate IsCommonSuffix(a: seq<Unit>, b: seq<Unit>, p: nat, n: nat) {
    && p + n <= |a| && p + n <= |b|
    && (forall k: nat :: k < n ==> TailMatch(a, b, k))
    && (p + n < |a| && p + n < |b| ==> !TailMatch(a, b, n))
  }

  function Saturate(n: nat): nat {
    if n > U32_MAX then U32_MAX else n
  }

  /** `i` is the first scalar starting at or after code unit `cut`, or the end. */
  predicate IsCeiling(s: seq<Scalar>, cut: nat, i: nat) {
    && i <= |s|
    && (i < |s| ==> cut <= Offset(s, i))
    && (forall j: nat :: j < i ==> Offset(s, j) < cut)
  }

  /** Replace `count` units of `a` at `at`. */
  function Splice(a: seq<Unit>, at: nat, count: nat, insert: seq<Unit>): seq<Unit>
    requires at + count <= |a|
  {
    a[..at] + insert + a[at + count..]
  }

  /** The inserted stretch, from unit `p` to the last `s` units of `b`, is empty or
      begins and ends between characters. */
  predicate CutsAreClean(b: seq<Unit>, p: nat, s: nat)
    requires p + s <= |b|
  {
    p + s == |b| || (!SplitsPair(b, p) && !SplitsPair(b, |b| - s))
  }

  /** Common prefix, then maximal non-overlapping common suffix; the scan over the
      characters of `after` maps the two cuts back to character positions, and what is
      inserted are the characters that start between them. The edited text reads as `after`
      exactly when the cuts are clean; `SplicedUnits` says what it is in any case. */
  method DiffMiddle(before: seq<Scalar>, after: seq<Scalar>)
    returns (start: nat, delLen: nat, insert: seq<Scalar>, ghost p: nat, ghost s: nat, ghost from: nat, ghost to: nat)
    ensures IsCommonPrefix(Encode(before), Encode(after), p)
    ensures IsCommonSuffix(Encode(before), Encode(after), p, s)
    ensures var n := |Encode(before)| - p - s;
            && start == (if p < 0x1_0000_0000 then p else 0xFFFF_FFFF)
            && delLen == (if n < 0x1_0000_0000 then n else 0xFFFF_FFFF)
    ensures IsCeiling(after, p, from) && IsCeiling(after, |Encode(after)| - s, to) && from <= to
    ensures insert == after[from..to]
    ensures IsBetween(Encode(after), p, |Encode(after)| - s, Encode(insert))
    ensures p <= U32_MAX && |Encode(before)| - p - s <= U32_MAX ==>
              (Decode(Splice(Encode(before), start, delLen, Encode(insert))) == Some(after)
               <==> CutsAreClean(Encode(after), p, s))
  {
    var a, b := Encode(before), Encode(after);
    var prefix := CommonPrefix(a, b);
    var suffix := CommonSuffix(a, b, prefix);
    p, s := prefix, suffix;
    var i, j := CharacterBounds(after, prefix, |b| - suffix);
    from, to := i, j;
    EditReads(a, after, prefix, suffix, i, j);
    InsertedUnits(after, prefix, |b| - suffix, i, j);
    start, delLen, insert := Saturate(prefix), Saturate(|a| - prefix - suffix), after[i..j];
  }

  /** The first loop of `diff_middle`. */
  method CommonPrefix(a: seq<Unit>, b: seq<Unit>) returns (prefix: nat)
    ensures IsCommonPrefix(a, b, prefix)
  {
    prefix := 0;
    while prefix < |a| && prefix < |b| && a[prefix] == b[prefix]
      invariant prefix <= |a| && prefix <= |b|
      invariant forall k: nat :: k < prefix ==> HeadMatch(a, b, k)
    {
      prefix := prefix + 1;
    }
  }

  /** The second loop: it stops where the prefix begins. */
  method CommonSuffix(a: seq<Unit>, b: seq<Unit>, prefix: nat) returns (suffix: nat)
    requires IsCommonPrefix(a, b, prefix)
    ensures IsCommonSuffix(a, b, prefix, suffix)
  {
    suffix := 0;
    while suffix < |a| - prefix && suffix < |b| - prefix && a[|a| - 1 - suffix] == b[|b| - 1 - suffix]
      invariant prefix + suffix <= |a| && prefix + suffix <= |b|
      invariant forall k: nat :: k < suffix ==> TailMatch(a, b, k)
    {
      suffix := suffix + 1;
    }
  }

  /** The last loop of `diff_middle`: the first characters that start at or after the two
      cuts. */
  method CharacterBounds(after: seq<Scalar>, prefix: nat, insertEnd: nat) returns (from: nat, to: nat)
    requires prefix <= insertEnd <= |Encode(after)|
    ensures IsCeiling(after, prefix, from) && IsCeiling(after, insertEnd, to)
  {
    var cu := 0;
    from, to := |after|, |after|;
    var startSet := false;
    var i: nat := 0;
    while i < |after|
      invariant i <= |after| && cu == Offset(after, i)
      invariant to == |after|
      invariant forall j: nat :: j < i ==> Offset(after, j) < insertEnd
      invariant startSet ==> IsCeiling(after, prefix, from)
      invariant !startSet ==> from == |after| && forall j: nat :: j < i ==> Offset(after, j) < prefix
    {
      if !startSet && cu >= prefix {
        from := i;
        startSet := true;
      }
      if cu >= insertEnd {
        to := i;
        break;
      }
      cu := cu + |EncodeScalar(after[i])|;
      i := i + 1;
    }
  }

  lemma {:induction false} EncodeConcat(s: seq<Scalar>, t: seq<Scalar>)
    ensures Encode(s + t) == Encode(s) + Encode(t)
  {
    if s == [] {
      assert s + t == t;
    } else {
      EncodeConcat(s[1..], t);
      assert (s + t)[1..] == s[1..] + t && (s + t)[0] == s[0];
      assert Encode(s + t) == EncodeScalar(s[0]) + (Encode(s[1..]) + Encode(t));
    }
  }

  lemma {:induction false} OffsetIsLength(s: seq<Scalar>, i: nat)
    requires i <= |s|
    ensures Offset(s, i) == |Encode(s[..i])|
  {
    if i > 0 {
      OffsetIsLength(s, i - 1);
      assert s[..i] == s[..i - 1] + [s[i - 1]];
      EncodeConcat(s[..i - 1], [s[i - 1]]);
    }
  }

  lemma {:induction false} OffsetBehindFirst(s: seq<Scalar>, j: nat)
    requires j < |s|
    ensures Offset(s, j + 1) == |EncodeScalar(s[0])| + Offset(s[1..], j)
  {
    if j > 0 {
      OffsetBehindFirst(s, j - 1);
      assert s[1..][j - 1] == s[j];
    }
  }

  lemma CeilingIsMonotone(s: seq<Scalar>, p: nat, q: nat, i: nat, j: nat)
    requires p <= q && IsCeiling(s, p, i) && IsCeiling(s, q, j)
    ensures i <= j
  {
  }

  /** The ceiling of a cut is the cut itself, or one unit later when the cut falls
      inside a surrogate pair. */
  lemma {:induction false} CeilingOffset(s: seq<Scalar>, cut: nat, i: nat)
    requires cut <= |Encode(s)| && IsCeiling(s, cut, i)
    ensures Offset(s, i) == if SplitsPair(Encode(s), cut) then cut + 1 else cut
  {
    if s == [] {
    } else if i == 0 {
      assert !IsLow(Encode(s)[0]);
    } else {
      assert Offset(s, 0) < cut;
      var head, rest := EncodeScalar(s[0]), s[1..];
      forall j: nat | j <= |rest| ensures Offset(s, j + 1) == |head| + Offset(rest, j) {
        OffsetBehindFirst(s, j);
      }
      if cut < |head| {
        assert Offset(rest, 0) == 0;
      } else {
        forall j: nat | j < i - 1 ensures Offset(rest, j) < cut - |head| {
          assert Offset(s, j + 1) < cut;
        }
        CeilingOffset(rest, cut - |head|, i - 1);
      }
    }
  }

  lemma EncodeSlice(s: seq<Scalar>, i: nat, j: nat)
    requires i <= j <= |s|
    ensures Offset(s, i) <= Offset(s, j) <= |Encode(s)|
    ensures Encode(s[i..j]) == Encode(s)[Offset(s, i)..Offset(s, j)]
  {
    assert s[..j] == s[..i] + s[i..j];
    EncodeConcat(s[..i], s[i..j]);
    assert s == s[..j] + s[j..];
    EncodeConcat(s[..j], s[j..]);
    OffsetIsLength(s, i);
    OffsetIsLength(s, j);
  }

  /** The inserted stretch is the middle of `after`, unit for unit, exactly when both
      cuts are clean or the stretch is empty. */
  lemma MiddleLaw(after: seq<Scalar>, p: nat, e: nat, from: nat, to: nat)
    requires p <= e <= |Encode(after)| && IsCeiling(after, p, from) && IsCeiling(after, e, to)
    ensures from <= to
    ensures var b := Encode(after);
            Encode(after[from..to]) == b[p..e] <==> p == e || (!SplitsPair(b, p) && !SplitsPair(b, e))
  {
    var b := Encode(after);
    CeilingIsMonotone(after, p, e, from, to);
    CeilingOffset(after, p, from);
    CeilingOffset(after, e, to);
    EncodeSlice(after, from, to);
    if p < e && SplitsPair(b, p) && from < |after| {
      // The insertion would start with a scalar's first unit, the middle with a low one.
      FirstUnitOfScalar(after, from);
      assert b[p..e][0] == b[p];
      assert from < to ==> Encode(after[from..to])[0] == b[Offset(after, from)] by {
        if from < to { EncodeSlice(after, from, from + 1); }
      }
    }
  }

  /** Keeping a common prefix and suffix, a splice gives `b` exactly when it inserts
      the middle of `b`. */
  lemma SpliceGivesTarget(a: seq<Unit>, b: seq<Unit>, p: nat, s: nat, ins: seq<Unit>)
    requires IsCommonPrefix(a, b, p) && IsCommonSuffix(a, b, p, s)
    ensures Splice(a, p, |a| - p - s, ins) == b <==> ins == b[p..|b| - s]
  {
    var e := |b| - s;
    var result := Splice(a, p, |a| - p - s, ins);
    SpliceKeepsBothEnds(a, b, p, s, ins);
    assert b == b[..p] + b[p..e] + b[e..];
    if result == b {
      assert |ins| == e - p;
      assert ins == result[p..e];
    }
  }

  /** A cut inside a surrogate pair moves behind the pair. */
  function CutEnd(b: seq<Unit>, cut: nat): nat {
    if cut < |b| && SplitsPair(b, cut) then cut + 1 else cut
  }

  /** What an edit between the cuts gives: the unit that a split pair at the first cut
      leaves behind is lost, and the one at the second comes twice. */
  function Spliced(b: seq<Unit>, p: nat, e: nat): seq<Unit>
    requires p <= e <= |b|
  {
    b[..p] + b[CutEnd(b, p)..CutEnd(b, e)] + b[e..]
  }

  /** When the edited text reads as the new one. */
  lemma {:induction false} EditReads(a: seq<Unit>, after: seq<Scalar>, p: nat, s: nat, from: nat, to: nat)
    requires var b := Encode(after); IsCommonPrefix(a, b, p) && IsCommonSuffix(a, b, p, s)
    requires IsCeiling(after, p, from) && IsCeiling(after, |Encode(after)| - s, to)
    ensures from <= to
    ensures var edited := Splice(a, p, |a| - p - s, Encode(after[from..to]));
            Decode(edited) == Some(after) <==> CutsAreClean(Encode(after), p, s)
  {
    EditLaw(a, after, p, s, from, to);
    DecodesIff(Splice(a, p, |a| - p - s, Encode(after[from..to])), after);
  }

  /** `ins` are the units between the cuts, each moved behind a pair it splits. */
  ghost predicate IsBetween(b: seq<Unit>, p: nat, e: nat, ins: seq<Unit>) {
    p <= e && CutEnd(b, p) <= CutEnd(b, e) <= |b| && ins == b[CutEnd(b, p)..CutEnd(b, e)]
  }

  /** So that is what applying the edit gives, whatever the cuts. */
  lemma SplicedUnits(a: seq<Unit>, b: seq<Unit>, p: nat, s: nat, ins: seq<Unit>)
    requires IsCommonPrefix(a, b, p) && IsCommonSuffix(a, b, p, s) && IsBetween(b, p, |b| - s, ins)
    ensures Splice(a, p, |a| - p - s, ins) == Spliced(b, p, |b| - s)
  {
    SpliceKeepsBothEnds(a, b, p, s, ins);
  }

  lemma InsertedUnits(after: seq<Scalar>, p: nat, e: nat, from: nat, to: nat)
    requires p <= e <= |Encode(after)| && IsCeiling(after, p, from) && IsCeiling(after, e, to) && from <= to
    ensures IsBetween(Encode(after), p, e, Encode(after[from..to]))
  {
    CeilingOffset(after, p, from);
    CeilingOffset(after, e, to);
    EncodeSlice(after, from, to);
  }

  lemma SpliceKeepsBothEnds(a: seq<Unit>, b: seq<Unit>, p: nat, s: nat, ins: seq<Unit>)
    requires IsCommonPrefix(a, b, p) && IsCommonSuffix(a, b, p, s)
    ensures Splice(a, p, |a| - p - s, ins) == b[..p] + ins + b[|b| - s..]
  {
    assert a[..p] == b[..p] by {
      forall k: nat | k < p ensures a[..p][k] == b[..p][k] {
        assert HeadMatch(a, b, k);
      }
    }
    var tail, same := a[|a| - s..], b[|b| - s..];
    assert tail == same by {
      forall k: nat | k < s ensures tail[k] == same[k] {
        assert TailMatch(a, b, s - 1 - k);
      }
    }
  }

  /** The splice law, in both directions. */
  lemma EditLaw(a: seq<Unit>, after: seq<Scalar>, p: nat, s: nat, from: nat, to: nat)
    requires var b := Encode(after); IsCommonPrefix(a, b, p) && IsCommonSuffix(a, b, p, s)
    requires IsCeiling(after, p, from) && IsCeiling(after, |Encode(after)| - s, to)
    ensures from <= to
    ensures Splice(a, p, |a| - p - s, Encode(after[from..to])) == Encode(after) <==> CutsAreClean(Encode(after), p, s)
  {
    MiddleLaw(after, p, |Encode(after)| - s, from, to);
    SpliceGivesTarget(a, Encode(after), p, s, Encode(after[from..to]));
  }

  lemma FirstUnitOfScalar(s: seq<Scalar>, i: nat)
    requires i < |s|
    ensures Offset(s, i) < |Encode(s)| && !IsLow(Encode(s)[Offset(s, i)])
  {
    EncodeSlice(s, i, i + 1);
    assert s[i..i + 1] == [s[i]];
    assert Encode(s[i..i + 1]) == EncodeScalar(s[i]);
    assert Encode(s)[Offset(s, i)] == Encode(s[i..i + 1])[0];
  }

  /** Two emoji that share a high surrogate: the prefix cut falls inside the pair, so
      by the law above no edit the diff returns can produce the new text. */
  lemma SharedHighSurrogate(p: nat, s: nat)
    requires IsCommonPrefix(Encode([0x1F600]), Encode([0x1F601]), p)
    requires IsCommonSuffix(Encode([0x1F600]), Encode([0x1F601]), p, s)
    ensures !CutsAreClean(Encode([0x1F601]), p, s)
  {
    var a, b := Encode([0x1F600]), Encode([0x1F601]);
    assert a == EncodeScalar(0x1F600) + Encode([]) == [0xD83D, 0xDE00];
    assert b == EncodeScalar(0x1F601) + Encode([]) == [0xD83D, 0xDE01];
    assert HeadMatch(a, b, 0) && !HeadMatch(a, b, 1) && !TailMatch(a, b, 0);
  }
}
