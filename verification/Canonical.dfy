/**
 Canonical codes (RFC 1951 section 3.2.2): the code of a symbol is determined by
 the code lengths alone.  Codes of one length are consecutive, in symbol order,
 and start where the shorter codes leave off.
 */
module Canonical {
  import opened Arith

  /** How many entries of s equal x. */
  function Count(s: seq<int>, x: int): (n: nat)
    ensures n <= |s|
  {
    if s == [] then 0 else Count(s[..|s| - 1], x) + (if s[|s| - 1] == x then 1 else 0)
  }

  lemma {:induction false} CountAppend(s: seq<int>, t: seq<int>, x: int)
    ensures Count(s + t, x) == Count(s, x) + Count(t, x)
  {
    if t == [] {
      assert s + t == s;
    } else {
      var u := t[..|t| - 1];
      assert (s + t)[..|s + t| - 1] == s + u;
      CountAppend(s, u, x);
    }
  }

  lemma CountSnoc(s: seq<int>, y: int, x: int)
    ensures Count(s + [y], x) == Count(s, x) + (if y == x then 1 else 0)
  {
    assert (s + [y])[..|s|] == s;
  }

  lemma {:induction false} CountMono(s: seq<int>, i: nat, j: nat, x: int)
    requires i <= j <= |s|
    ensures Count(s[..i], x) <= Count(s[..j], x)
    decreases j
  {
    if i < j {
      assert s[..j] == s[..j - 1] + [s[j - 1]];
      CountSnoc(s[..j - 1], s[j - 1], x);
      CountMono(s, i, j - 1, x);
    }
  }

  lemma CountStep(s: seq<int>, i: nat, x: int)
    requires i < |s|
    ensures Count(s[..i + 1], x) == Count(s[..i], x) + (if s[i] == x then 1 else 0)
  {
    assert s[..i + 1] == s[..i] + [s[i]];
    CountSnoc(s[..i], s[i], x);
  }

  /** cnt[b] is the number of codes of length b, for every length up to |cnt| - 1. */
  ghost predicate Counts(lens: seq<int>, cnt: seq<int>) {
    forall b :: 0 < b < |cnt| ==> cnt[b] == Count(lens, b)
  }

  /** Code space used by the codes of length at most b, in units of length b. */
  function Used(cnt: seq<int>, b: nat): int
    requires b < |cnt|
  {
    if b == 0 then 0 else 2 * Used(cnt, b - 1) + cnt[b]
  }

  /** No length is over-subscribed. */
  ghost predicate Fits(cnt: seq<int>) {
    && (forall b :: 0 <= b < |cnt| ==> cnt[b] >= 0)
    && (forall b: nat :: b < |cnt| ==> Used(cnt, b) <= Pow2(b))
  }

  lemma {:induction false} UsedNonNegative(cnt: seq<int>, b: nat)
    requires b < |cnt| && forall i :: 0 <= i < |cnt| ==> cnt[i] >= 0
    ensures Used(cnt, b) >= 0
  {
    if b > 0 {
      UsedNonNegative(cnt, b - 1);
    }
  }

  /** The code space at length m that the lengths in s up to m take, entry by entry. */
  ghost function Space(s: seq<int>, m: nat): nat {
    if s == [] then 0
    else Space(s[1..], m) + (if 0 <= s[0] <= m then Pow2(m - s[0]) else 0)
  }

  lemma CountHead(s: seq<int>, x: int)
    requires s != []
    ensures Count(s, x) == Count(s[1..], x) + (if s[0] == x then 1 else 0)
  {
    CountAppend([s[0]], s[1..], x);
    assert s == [s[0]] + s[1..];
    CountSnoc([], s[0], x);
    assert [] + [s[0]] == [s[0]];
  }

  lemma {:induction false} SpaceStep(s: seq<int>, m: nat)
    ensures Space(s, m + 1) == 2 * Space(s, m) + Count(s, m + 1)
  {
    if s != [] {
      SpaceStep(s[1..], m);
      CountHead(s, m + 1);
    }
  }

  lemma {:induction false} SpaceZero(s: seq<int>)
    requires forall i :: 0 <= i < |s| ==> 0 < s[i]
    ensures Space(s, 0) == 0
  {
    if s != [] {
      SpaceZero(s[1..]);
    }
  }

  /** Counting by length and adding up entry by entry measure the same code space. */
  lemma {:induction false} SpaceIsUsed(s: seq<int>, cnt: seq<int>, m: nat)
    requires Counts(s, cnt) && m < |cnt| && forall i :: 0 <= i < |s| ==> 0 < s[i]
    ensures Space(s, m) == Used(cnt, m)
  {
    if m == 0 {
      SpaceZero(s);
    } else {
      SpaceIsUsed(s, cnt, m - 1);
      SpaceStep(s, m - 1);
    }
  }

  /** Counting is multiplicity. */
  lemma {:induction false} CountIsMultiplicity(s: seq<int>, x: int)
    ensures Count(s, x) == multiset(s)[x]
  {
    if s != [] {
      var u := s[..|s| - 1];
      CountIsMultiplicity(u, x);
      assert s == u + [s[|s| - 1]];
    }
  }

  lemma {:induction false} CountNone(s: seq<int>, x: int)
    requires x !in s
    ensures Count(s, x) == 0
  {
    if s != [] {
      CountNone(s[..|s| - 1], x);
    }
  }

  /** Space as a sum of one term for each entry. */
  lemma {:induction false} SpaceSum(s: seq<int>, g: seq<int>, m: nat)
    requires |g| == |s|
    requires forall i :: 0 <= i < |s| ==> g[i] == if 0 <= s[i] <= m then Pow2(m - s[i]) else 0
    ensures Space(s, m) == Sum(g)
  {
    if s != [] {
      SpaceSum(s[1..], g[1..], m);
    }
  }

  /** How many codes have length 1 to b. */
  function Total(cnt: seq<int>, b: nat): int
    requires b < |cnt|
  {
    if b == 0 then 0 else Total(cnt, b - 1) + cnt[b]
  }

  ghost function CountUpTo(s: seq<int>, b: nat): nat {
    if b == 0 then 0 else CountUpTo(s, b - 1) + Count(s, b)
  }

  lemma {:induction false} CountUpToHead(s: seq<int>, b: nat)
    requires s != []
    ensures CountUpTo(s, b) == CountUpTo(s[1..], b) + (if 1 <= s[0] <= b then 1 else 0)
  {
    if b > 0 {
      CountUpToHead(s, b - 1);
      CountHead(s, b);
    }
  }

  lemma {:induction false} CountUpToAll(s: seq<int>, b: nat)
    requires forall i :: 0 <= i < |s| ==> 1 <= s[i] <= b
    ensures CountUpTo(s, b) == |s|
  {
    if s == [] {
      CountUpToNone(b);
    } else {
      CountUpToHead(s, b);
      CountUpToAll(s[1..], b);
    }
  }

  /** When the counts account for every entry, every entry is in range. */
  lemma {:induction false} CountUpToRange(s: seq<int>, b: nat)
    ensures CountUpTo(s, b) <= |s|
    ensures CountUpTo(s, b) == |s| ==> forall i :: 0 <= i < |s| ==> 1 <= s[i] <= b
  {
    if s == [] {
      CountUpToNone(b);
    } else {
      CountUpToHead(s, b);
      CountUpToRange(s[1..], b);
    }
  }

  lemma {:induction false} CountUpToNone(b: nat)
    ensures CountUpTo([], b) == 0
  {
    if b > 0 {
      CountUpToNone(b - 1);
    }
  }

  lemma {:induction false} TotalIsCountUpTo(s: seq<int>, cnt: seq<int>, b: nat)
    requires Counts(s, cnt) && b < |cnt|
    ensures Total(cnt, b) == CountUpTo(s, b)
  {
    if b > 0 {
      TotalIsCountUpTo(s, cnt, b - 1);
    }
  }

  /** The last length decides: space used up at the end was never exceeded before. */
  lemma {:induction false} FitsFromLast(cnt: seq<int>, b: nat, top: nat)
    requires b <= top < |cnt| && forall i :: 0 <= i < |cnt| ==> cnt[i] >= 0
    requires Used(cnt, top) <= Pow2(top)
    ensures Used(cnt, b) <= Pow2(b)
    decreases top - b
  {
    if b < top {
      FitsFromLast(cnt, b + 1, top);
    }
  }

  /** The first code of length b. */
  function FirstCode(cnt: seq<int>, b: nat): int
    requires 0 < b < |cnt|
  {
    2 * Used(cnt, b - 1)
  }

  /** The code of symbol s, as a number of lens[s] bits, most significant bit first. */
  function Code(lens: seq<int>, cnt: seq<int>, s: nat): int
    requires s < |lens| && 0 < lens[s] < |cnt|
  {
    FirstCode(cnt, lens[s]) + Count(lens[..s], lens[s])
  }

  /** Drop the k least significant bits. */
  function Shr(x: int, k: nat): (r: int)
    requires x >= 0
    ensures r >= 0
  {
    if k == 0 then x else Shr(x / 2, k - 1)
  }

  lemma {:induction false} ShrMono(x: int, y: int, k: nat)
    requires 0 <= x <= y
    ensures Shr(x, k) <= Shr(y, k)
  {
    if k > 0 {
      ShrMono(x / 2, y / 2, k - 1);
    }
  }

  lemma {:induction false} ShrAdd(x: int, j: nat, k: nat)
    requires x >= 0
    ensures Shr(Shr(x, j), k) == Shr(x, j + k)
  {
    if j > 0 {
      ShrAdd(x / 2, j - 1, k);
    }
  }

  lemma {:induction false} ShrBound(x: int, k: nat, n: nat)
    requires 0 <= x < Pow2(n) && k <= n
    ensures Shr(x, k) < Pow2(n - k)
  {
    if k > 0 {
      ShrBound(x / 2, k - 1, n - 1);
    }
  }

  /** Code space only grows when measured in finer units. */
  lemma {:induction false} UsedGrows(cnt: seq<int>, b: nat, c: nat)
    requires b <= c < |cnt| && forall i :: 0 <= i < |cnt| ==> cnt[i] >= 0
    ensures Used(cnt, c) >= 0 && Used(cnt, b) <= Shr(Used(cnt, c), c - b)
    decreases c
  {
    UsedNonNegative(cnt, c);
    if b < c {
      UsedGrows(cnt, b, c - 1);
      ShrMono(Used(cnt, c - 1), Used(cnt, c) / 2, c - 1 - b);
    }
  }

  lemma CodeBounds(lens: seq<int>, cnt: seq<int>, s: nat)
    requires Counts(lens, cnt) && Fits(cnt) && s < |lens| && 0 < lens[s] < |cnt|
    ensures 0 <= FirstCode(cnt, lens[s]) <= Code(lens, cnt, s) < Used(cnt, lens[s]) <= Pow2(lens[s])
  {
    UsedNonNegative(cnt, lens[s] - 1);
    CountStep(lens, s, lens[s]);
    CountMono(lens, s + 1, |lens|, lens[s]);
    assert lens[..|lens|] == lens;
  }

  /** A code is never a prefix of another: cut to the shorter length, they differ. */
  lemma PrefixDistinct(lens: seq<int>, cnt: seq<int>, s: nat, t: nat)
    requires Counts(lens, cnt) && Fits(cnt) && s < |lens| && t < |lens| && s != t
    requires 0 < lens[s] <= lens[t] < |cnt|
    ensures Code(lens, cnt, t) >= 0
    ensures Shr(Code(lens, cnt, t), lens[t] - lens[s]) != Code(lens, cnt, s)
  {
    CodeBounds(lens, cnt, s);
    CodeBounds(lens, cnt, t);
    if lens[s] == lens[t] {
      RanksDiffer(lens, s, t);
    } else {
      UsedGrows(cnt, lens[s], lens[t] - 1);
      ShrMono(Used(cnt, lens[t] - 1), Code(lens, cnt, t) / 2, lens[t] - 1 - lens[s]);
    }
  }

  lemma RanksDiffer(lens: seq<int>, s: nat, t: nat)
    requires s < |lens| && t < |lens| && s != t && lens[s] == lens[t]
    ensures Count(lens[..s], lens[s]) != Count(lens[..t], lens[t])
  {
    var i, j := if s < t then s else t, if s < t then t else s;
    CountStep(lens, i, lens[i]);
    CountMono(lens, i + 1, j, lens[i]);
  }

  // ----- decoding

  /** Symbol s is the one whose code heads the top-bit number k. */
  ghost predicate Heads(lens: seq<int>, cnt: seq<int>, k: int, top: nat, s: nat) {
    && k >= 0 && s < |lens| && 0 < lens[s] < |cnt| && lens[s] <= top
    && Shr(k, top - lens[s]) == Code(lens, cnt, s)
  }

  lemma HeadsUnique(lens: seq<int>, cnt: seq<int>, k: int, top: nat, s: nat, t: nat)
    requires Counts(lens, cnt) && Fits(cnt)
    requires Heads(lens, cnt, k, top, s) && Heads(lens, cnt, k, top, t)
    ensures s == t
  {
    if s != t {
      var a, b := if lens[s] <= lens[t] then s else t, if lens[s] <= lens[t] then t else s;
      ShrAdd(k, top - lens[b], lens[b] - lens[a]);
      PrefixDistinct(lens, cnt, a, b);
    }
  }

  /** The r-th symbol of length b. */
  lemma {:induction false} Nth(lens: seq<int>, b: int, r: nat) returns (s: nat)
    requires r < Count(lens, b)
    ensures s < |lens| && lens[s] == b && Count(lens[..s], b) == r
  {
    var n := |lens| - 1;
    if lens[n] == b && Count(lens[..n], b) == r {
      s := n;
    } else {
      s := Nth(lens[..n], b, r);
      assert lens[..n][..s] == lens[..s];
    }
  }

  /** The least length at which k lies below the used code space. */
  ghost predicate FirstLength(cnt: seq<int>, k: int, top: nat, b: nat) {
    && k >= 0 && top < |cnt| && 0 < b <= top && Shr(k, top - b) < Used(cnt, b)
    && forall c :: 0 < c < b ==> Shr(k, top - c) >= Used(cnt, c)
  }

  /** At that length k falls among the codes, so exactly one symbol heads it. */
  lemma FirstLengthHeads(lens: seq<int>, cnt: seq<int>, k: int, top: nat, b: nat) returns (s: nat)
    requires Counts(lens, cnt) && Fits(cnt) && FirstLength(cnt, k, top, b)
    ensures Heads(lens, cnt, k, top, s) && lens[s] == b
    ensures Shr(k, top - b) >= FirstCode(cnt, b)
    ensures Count(lens[..s], b) == Shr(k, top - b) - FirstCode(cnt, b)
  {
    var v := Shr(k, top - b);
    if b > 1 {
      assert Shr(k, top - (b - 1)) >= Used(cnt, b - 1);
      ShrAdd(k, top - b, 1);
      assert Shr(v, 1) == Shr(v / 2, 0) == v / 2;
    }
    assert v >= FirstCode(cnt, b);
    s := Nth(lens, b, v - FirstCode(cnt, b));
  }

  /** A complete set of lengths decodes every bit string. */
  lemma CompleteDecodes(lens: seq<int>, cnt: seq<int>, k: int, top: nat) returns (s: nat)
    requires Counts(lens, cnt) && Fits(cnt) && top < |cnt|
    requires Used(cnt, top) == Pow2(top) && 0 <= k < Pow2(top) && top > 0
    ensures Heads(lens, cnt, k, top, s)
  {
    var b := 1;
    while Shr(k, top - b) >= Used(cnt, b)
      invariant 0 < b <= top
      invariant forall c :: 0 < c < b ==> Shr(k, top - c) >= Used(cnt, c)
      decreases top - b
    {
      b := b + 1;
    }
    s := FirstLengthHeads(lens, cnt, k, top, b);
  }
}
