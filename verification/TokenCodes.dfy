/**
 The codes of match lengths and distances: the tables that `tr_static_init` fills,
 and what an entry means in terms of the bases and extra bits of RFC 1951 section 3.2.5.
 */
module TokenCodes {
  import opened Arith
  import opened InflateSpec
  import opened InflateSound

  /** Code c and some extra bits can express the length lc + 3. */
  ghost predicate ExpressesLength(c: int, lc: int) {
    0 <= c < 29 && 0 <= lc + 3 - LengthBase(c) < Pow2(LengthExtra(c))
  }

  /** Code c and some extra bits can express the distance d + 1. */
  ghost predicate ExpressesDist(c: int, d: int) {
    0 <= c < 30 && 0 <= d + 1 - DistanceBase(c) < Pow2(DistanceExtra(c))
  }

  /** Lengths are consecutive from code to code; so are distances. */
  lemma NextLength(c: nat)
    requires c < 28
    ensures LengthExtra(c) <= 5 && 3 <= LengthBase(c) && LengthBase(c) + Span(LengthExtra(c) + 16) <= 259
    ensures LengthBase(c) + Span(LengthExtra(c) + 16) == if c < 27 then LengthBase(c + 1) else 259
  {
    hide *;
    LengthTable(c);
    if c < 14 {
      NextShort(c);
    } else {
      NextLong(c);
    }
  }

  lemma NextShort(c: nat)
    requires c < 14
    ensures LengthBase(c) + Span(LengthExtra(c) + 16) == LengthBase(c + 1)
  {
    hide Pow2;
  }

  lemma NextLong(c: nat)
    requires 14 <= c < 28
    ensures LengthBase(c) + Span(LengthExtra(c) + 16) == if c < 27 then LengthBase(c + 1) else 259
  {
    hide Pow2;
  }

  lemma NextDistance(c: nat)
    requires c < 30
    ensures DistanceExtra(c) <= 13 && 1 <= DistanceBase(c) && DistanceBase(c) + Span(DistanceExtra(c) + 16) <= 32769
    ensures DistanceBase(c) + Span(DistanceExtra(c) + 16) == if c < 29 then DistanceBase(c + 1) else 32769
    ensures c < 16 ==> DistanceBase(c) + Span(DistanceExtra(c) + 16) <= 257
    ensures c >= 16 ==> DistanceExtra(c) >= 7
  {
    hide *;
    DistanceTable(c);
    if c < 16 {
      NextNear(c);
    } else if c < 23 {
      NextFar(c);
    } else {
      NextFarther(c);
    }
  }

  lemma NextNear(c: nat)
    requires c < 16
    ensures DistanceBase(c) + Span(DistanceExtra(c) + 16) == DistanceBase(c + 1) <= 257
  {
    hide Pow2;
  }

  lemma NextFar(c: nat)
    requires 16 <= c < 23
    ensures DistanceExtra(c) >= 7 && DistanceBase(c) + Span(DistanceExtra(c) + 16) == DistanceBase(c + 1)
  {
    hide Pow2;
  }

  lemma NextFarther(c: nat)
    requires 23 <= c < 30
    ensures DistanceExtra(c) >= 7
    ensures DistanceBase(c) + Span(DistanceExtra(c) + 16) == if c < 29 then DistanceBase(c + 1) else 32769
  {
    hide Pow2;
  }

  lemma SpanIs(extra: nat)
    requires extra <= 13
    ensures Span(extra + 16) == Pow2(extra)
  {
  }

  lemma Bases()
    ensures LengthBase(0) == 3 && LengthBase(28) == 258 && LengthExtra(28) == 0 && Pow2(0) == 1
    ensures DistanceBase(0) == 1 && DistanceBase(16) == 257
  {
  }

  // ----- tr_static_init

  /** The first `length` entries of _length_code[]. */
  ghost predicate LengthsUpTo(code: seq<int>, length: int) {
    |code| == 256 && 0 <= length <= 256 && forall lc :: 0 <= lc < length ==> ExpressesLength(code[lc], lc)
  }

  lemma LengthEntry(code: seq<int>, length: int, c: int)
    requires LengthsUpTo(code, length) && length < 256 && ExpressesLength(c, length)
    ensures LengthsUpTo(code[length := c], length + 1)
  {
    hide ExpressesLength;
  }

  /** The entries of one length code. */
  method FillLengths(code: array<int>, c: nat, length0: nat) returns (length: nat)
    requires LengthsUpTo(code[..], length0) && c < 28 && length0 + 3 == LengthBase(c)
    modifies code
    ensures LengthsUpTo(code[..], length) && length + 3 == if c < 27 then LengthBase(c + 1) else 259
  {
    hide *;
    NextLength(c);
    SpanIs(LengthExtra(c));
    length := length0;
    var n, size := 0, Pow2(LengthExtra(c));
    while n < size
      invariant n <= size && length == length0 + n && LengthsUpTo(code[..], length)
    {
      ghost var was := code[..];
      LengthBounds(was, length);
      Expressed(c, length);
      LengthEntry(was, length, c);
      code[length] := c;
      assert code[..] == was[length := c];
      length := length + 1;
      n := n + 1;
    }
  }

  lemma LengthBounds(code: seq<int>, length: int)
    requires LengthsUpTo(code, length)
    ensures |code| == 256 && 0 <= length <= 256
  {
  }

  lemma Expressed(c: nat, lc: int)
    requires c < 29 && 0 <= lc + 3 - LengthBase(c) < Pow2(LengthExtra(c))
    ensures ExpressesLength(c, lc)
  {
  }

  /** _length_code[] and base_length[] */
  method LengthCodes() returns (code: array<int>, base: array<int>)
    ensures fresh(code) && fresh(base) && base.Length == 29
    ensures LengthsUpTo(code[..], 256) && code.Length == 256 && code[255] == 28
    ensures forall c :: 0 <= c < 28 ==> base[c] + 3 == LengthBase(c)
  {
    hide *;
    code, base := new int[256](i => 0), new int[29](i => 0);
    var length := 0;
    Bases();
    LengthNone(code[..]);
    for c := 0 to 28
      invariant fresh(code) && fresh(base) && code != base && base.Length == 29
      invariant LengthsUpTo(code[..], length) && length + 3 == (if c < 28 then LengthBase(c) else 259)
      invariant forall k :: 0 <= k < c ==> base[k] + 3 == LengthBase(k)
    {
      base[c] := length;
      length := FillLengths(code, c, length);
    }
    LengthBounds(code[..], length);
    ghost var all := code[..];
    Expressed(28, 255);
    LengthLast(all);
    code[length - 1] := 28;
    assert code[..] == all[255 := 28];
  }

  lemma LengthNone(code: seq<int>)
    requires |code| == 256
    ensures LengthsUpTo(code, 0)
  {
  }

  lemma LengthLast(code: seq<int>)
    requires LengthsUpTo(code, 256) && ExpressesLength(28, 255)
    ensures |code| == 256 && LengthsUpTo(code[255 := 28], 256)
  {
    hide ExpressesLength;
  }

  /** d_code: where the code of distance d + 1 is found in _dist_code[]. */
  function DistIndex(d: nat): nat {
    if d < 256 then d else 256 + d / 128
  }

  /** What index i of _dist_code[] must hold: a code for every distance looked up there. */
  ghost predicate DistEntry(c: int, i: int) {
    0 <= c < 30 &&
    if i < 256 then ExpressesDist(c, i)
    else 128 * (i - 256) + 1 >= DistanceBase(c) && 128 * (i - 256) + 128 < DistanceBase(c) + Pow2(DistanceExtra(c))
  }

  lemma DistEntryUse(c: int, d: nat)
    requires DistEntry(c, DistIndex(d))
    ensures ExpressesDist(c, d)
  {
    hide DistanceBase, DistanceExtra, Pow2;
  }

  /** The entries of _dist_code[] from lo up to hi. */
  ghost predicate DistsUpTo(code: seq<int>, lo: int, hi: int) {
    |code| == 512 && 0 <= lo <= hi <= 512 && forall i :: lo <= i < hi ==> DistEntry(code[i], i)
  }

  lemma DistMore(code: seq<int>, lo: int, hi: int, c: int)
    requires DistsUpTo(code, lo, hi) && hi < 512 && DistEntry(c, hi)
    ensures DistsUpTo(code[hi := c], lo, hi + 1)
    ensures forall k, l :: k <= l <= hi && DistsUpTo(code, k, l) ==> DistsUpTo(code[hi := c], k, l)
  {
    hide DistEntry;
  }

  lemma DistBounds(code: seq<int>, lo: int, hi: int)
    requires DistsUpTo(code, lo, hi)
    ensures |code| == 512 && 0 <= lo <= hi <= 512
  {
  }

  lemma DistLow(c: nat, d: int)
    requires c < 16 && 0 <= d + 1 - DistanceBase(c) < Pow2(DistanceExtra(c)) && d < 256
    ensures DistEntry(c, d)
  {
  }

  /** A code of 7 or more extra bits covers whole multiples of 128. */
  lemma DistHigh(c: nat, base: int, n: int, i: int)
    requires 16 <= c < 30 && DistanceExtra(c) >= 7 && 128 * base + 1 == DistanceBase(c) && base >= 0
    requires 0 <= n < Pow2(DistanceExtra(c) - 7) && i == 256 + base + n
    ensures DistEntry(c, i)
  {
    Halves(DistanceExtra(c));
    hide DistanceBase, DistanceExtra;
  }

  lemma Halves(e: nat)
    requires e >= 7
    ensures Pow2(e) == 128 * Pow2(e - 7)
  {
    Pow2Add(7, e - 7);
    assert Pow2(3) == 8 && Pow2(7) == 16 * Pow2(3);
  }

  method FillDists(code: array<int>, c: nat, dist0: nat) returns (dist: nat)
    requires DistsUpTo(code[..], 0, dist0) && c < 16 && dist0 + 1 == DistanceBase(c)
    modifies code
    ensures DistsUpTo(code[..], 0, dist) && dist + 1 == DistanceBase(c + 1)
  {
    hide *;
    NextDistance(c);
    SpanIs(DistanceExtra(c));
    dist := dist0;
    var n, size := 0, Pow2(DistanceExtra(c));
    while n < size
      invariant n <= size && dist == dist0 + n && DistsUpTo(code[..], 0, dist)
    {
      ghost var was := code[..];
      DistBounds(was, 0, dist);
      DistLow(c, dist);
      DistMore(was, 0, dist, c);
      code[dist] := c;
      assert code[..] == was[dist := c];
      dist := dist + 1;
      n := n + 1;
    }
  }

  method FillHighDists(code: array<int>, c: nat, dist0: nat) returns (dist: nat)
    requires DistsUpTo(code[..], 0, 256) && DistsUpTo(code[..], 258, 256 + dist0)
    requires 16 <= c < 30 && 128 * dist0 + 1 == DistanceBase(c)
    modifies code
    ensures DistsUpTo(code[..], 0, 256) && DistsUpTo(code[..], 258, 256 + dist)
    ensures 128 * dist + 1 == if c < 29 then DistanceBase(c + 1) else 32769
  {
    hide *;
    NextDistance(c);
    SpanIs(DistanceExtra(c));
    Halves(DistanceExtra(c));
    dist := dist0;
    var n, size := 0, Pow2(DistanceExtra(c) - 7);
    while n < size
      invariant n <= size && dist == dist0 + n && DistsUpTo(code[..], 0, 256) && DistsUpTo(code[..], 258, 256 + dist)
    {
      ghost var was := code[..];
      DistBounds(was, 258, 256 + dist);
      DistHigh(c, dist0, n, 256 + dist);
      DistMore(was, 258, 256 + dist, c);
      code[256 + dist] := c;
      assert code[..] == was[256 + dist := c];
      dist := dist + 1;
      n := n + 1;
    }
  }

  /** _dist_code[] and base_dist[]; entries 256 and 257 of the former are never used. */
  method DistCodes() returns (code: array<int>, base: array<int>)
    ensures fresh(code) && fresh(base) && base.Length == 30
    ensures DistsUpTo(code[..], 0, 256) && DistsUpTo(code[..], 258, 512)
    ensures forall c :: 0 <= c < 30 ==> base[c] + 1 == DistanceBase(c)
  {
    hide *;
    code, base := new int[512](i => 0), new int[30](i => 0);
    var dist := 0;
    Bases();
    DistNone(code[..], 0);
    for c := 0 to 16
      invariant fresh(code) && fresh(base) && code != base && base.Length == 30
      invariant DistsUpTo(code[..], 0, dist) && dist + 1 == DistanceBase(c)
      invariant forall k :: 0 <= k < c ==> base[k] + 1 == DistanceBase(k)
    {
      base[c] := dist;
      dist := FillDists(code, c, dist);
    }
    dist := dist / 128;
    DistBounds(code[..], 0, 256);
    DistNone(code[..], 258);
    for c := 16 to 30
      invariant fresh(code) && fresh(base) && code != base && base.Length == 30
      invariant DistsUpTo(code[..], 0, 256) && DistsUpTo(code[..], 258, 256 + dist)
      invariant 128 * dist + 1 == (if c < 30 then DistanceBase(c) else 32769)
      invariant forall k :: 0 <= k < c ==> base[k] + 1 == DistanceBase(k)
    {
      base[c] := dist * 128;
      dist := FillHighDists(code, c, dist);
    }
  }

  lemma DistNone(code: seq<int>, lo: int)
    requires |code| == 512 && 0 <= lo <= 512
    ensures DistsUpTo(code, lo, lo)
  {
  }
}
