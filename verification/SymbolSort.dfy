/**
 The first part of `inflate_table`: lengths are counted, the counts are checked,
 and the symbols are sorted by length.
 */
module SymbolSort {
  import opened Arith
  import opened Canonical
  import opened DecodeTable

  const MAXBITS := 15

  /** The position of symbol s among the symbols sorted by length. */
  function Rank(lens: seq<int>, cnt: seq<int>, s: nat): int
    requires s < |lens| && 0 < lens[s] < |cnt|
  {
    Total(cnt, lens[s] - 1) + Count(lens[..s], lens[s])
  }

  ghost predicate Sorted(work: seq<int>, lens: seq<int>, cnt: seq<int>) {
    forall s: nat :: s < |lens| && 0 < lens[s] < |cnt| ==>
    0 <= Rank(lens, cnt, s) < |work| && work[Rank(lens, cnt, s)] == s
  }

  /** The counts that `inflate_table` works with. */
  ghost predicate Counted(lens: seq<int>, cnt: seq<int>) {
    |cnt| == MAXBITS + 1 && forall b :: 0 <= b <= MAXBITS ==> cnt[b] == Count(lens, b)
  }

  lemma CountedCounts(lens: seq<int>, cnt: seq<int>)
    requires Counted(lens, cnt)
    ensures |cnt| == MAXBITS + 1 && Counts(lens, cnt) && forall b :: 0 <= b < |cnt| ==> cnt[b] >= 0
  {
  }

  lemma {:induction false} TotalMono(cnt: seq<int>, a: nat, b: nat)
    requires a <= b < |cnt| && forall i :: 0 <= i < |cnt| ==> cnt[i] >= 0
    ensures 0 <= Total(cnt, a) <= Total(cnt, b)
    decreases b
  {
    if a < b {
      TotalMono(cnt, a, b - 1);
    } else if b > 0 {
      TotalMono(cnt, a - 1, b - 1);
    }
  }

  lemma RankRange(lens: seq<int>, cnt: seq<int>, s: nat)
    requires Counted(lens, cnt) && s < |lens| && 0 < lens[s] < |cnt|
    ensures 0 <= Total(cnt, lens[s] - 1) <= Rank(lens, cnt, s) < Total(cnt, lens[s]) <= |lens|
  {
    CountStep(lens, s, lens[s]);
    CountMono(lens, s + 1, |lens|, lens[s]);
    assert lens[..|lens|] == lens;
    TotalMono(cnt, lens[s] - 1, lens[s]);
    CountedCounts(lens, cnt);
    TotalIsCountUpTo(lens, cnt, lens[s]);
    CountUpToRange(lens, lens[s]);
  }

  lemma RankDistinct(lens: seq<int>, cnt: seq<int>, s: nat, t: nat)
    requires Counted(lens, cnt) && s < |lens| && t < |lens| && s != t && 0 < lens[s] <= lens[t] < |cnt|
    ensures Rank(lens, cnt, s) != Rank(lens, cnt, t)
  {
    RankRange(lens, cnt, s);
    RankRange(lens, cnt, t);
    if lens[s] == lens[t] {
      RanksDiffer(lens, s, t);
    } else {
      TotalMono(cnt, lens[s], lens[t] - 1);
    }
  }

  /** Count the codes of each length. */
  method CountLengths(lens: seq<int>, count: array<int>)
    requires count.Length == MAXBITS + 1 && forall i :: 0 <= i < |lens| ==> 0 <= lens[i] <= MAXBITS
    modifies count
    ensures Counted(lens, count[..])
  {
    var len := 0;
    while len <= MAXBITS
      invariant 0 <= len <= MAXBITS + 1 && forall b :: 0 <= b < len ==> count[b] == 0
    {
      count[len] := 0;
      len := len + 1;
    }
    var sym := 0;
    while sym < |lens|
      invariant 0 <= sym <= |lens| && forall b :: 0 <= b <= MAXBITS ==> count[b] == Count(lens[..sym], b)
    {
      forall b | 0 <= b <= MAXBITS
        ensures Count(lens[..sym + 1], b) == Count(lens[..sym], b) + (if lens[sym] == b then 1 else 0)
      {
        CountStep(lens, sym, b);
      }
      count[lens[sym]] := count[lens[sym]] + 1;
      sym := sym + 1;
    }
    assert lens[..|lens|] == lens;
  }

  /** Symbols below n are in place, and offs says where the next of each length goes. */
  ghost predicate Sorting(work: seq<int>, offs: seq<int>, lens: seq<int>, cnt: seq<int>, n: nat) {
    && |offs| == |cnt| == MAXBITS + 1 && n <= |lens| <= |work|
    && (forall b :: 1 <= b <= MAXBITS ==> offs[b] == Total(cnt, b - 1) + Count(lens[..n], b))
    && (forall s: nat :: s < n && 0 < lens[s] < |cnt| ==>
        0 <= Rank(lens, cnt, s) < |work| && work[Rank(lens, cnt, s)] == s)
  }

  lemma SortStep(work: seq<int>, offs: seq<int>, lens: seq<int>, cnt: seq<int>, n: nat)
    requires Counted(lens, cnt) && Sorting(work, offs, lens, cnt, n) && n < |lens| && 0 <= lens[n] <= MAXBITS
    ensures lens[n] == 0 ==> Sorting(work, offs, lens, cnt, n + 1)
    ensures lens[n] != 0 ==> var o := offs[lens[n]];
      0 <= o < |work| && Sorting(work[o := n], offs[lens[n] := o + 1], lens, cnt, n + 1)
  {
    var l := lens[n];
    forall b | 0 <= b <= MAXBITS
      ensures Count(lens[..n + 1], b) == Count(lens[..n], b) + (if l == b then 1 else 0)
    {
      CountStep(lens, n, b);
    }
    if l != 0 {
      var o := offs[l];
      assert o == Rank(lens, cnt, n);
      RankRange(lens, cnt, n);
      forall s: nat | s < n && 0 < lens[s] < |cnt| ensures Rank(lens, cnt, s) != o {
        if lens[s] <= l {
          RankDistinct(lens, cnt, s, n);
        } else {
          RankDistinct(lens, cnt, n, s);
        }
      }
      hide Rank, Count, Total;
    }
  }

  /** The offset table and the sort by length, stable within each length. */
  method SortSymbols(lens: seq<int>, count: array<int>, work: array<int>, ghost cnt: seq<int>)
    requires count != work && cnt == count[..] && Counted(lens, cnt) && |lens| <= work.Length
    requires forall i :: 0 <= i < |lens| ==> 0 <= lens[i] <= MAXBITS
    modifies work
    ensures Sorted(work[..], lens, cnt)
  {
    var offs := new int[MAXBITS + 1];
    offs[1] := 0;
    var len := 1;
    while len < MAXBITS
      invariant 1 <= len <= MAXBITS && cnt == count[..]
      invariant forall b :: 1 <= b <= len ==> offs[b] == Total(cnt, b - 1)
    {
      offs[len + 1] := offs[len] + count[len];
      len := len + 1;
    }
    assert lens[..0] == [];
    var sym := 0;
    while sym < |lens|
      invariant 0 <= sym <= |lens| && Sorting(work[..], offs[..], lens, cnt, sym)
    {
      SortStep(work[..], offs[..], lens, cnt, sym);
      hide *;
      if lens[sym] != 0 {
        ghost var w, o := work[..], offs[..];
        work[offs[lens[sym]]] := sym;
        offs[lens[sym]] := offs[lens[sym]] + 1;
        assert work[..] == w[o[lens[sym]] := sym] && offs[..] == o[lens[sym] := o[lens[sym]] + 1];
      }
      sym := sym + 1;
    }
  }

  /** The symbol whose turn it is at position r of length len. */
  lemma SortedAt(work: seq<int>, lens: seq<int>, cnt: seq<int>, len: nat, r: nat) returns (s: nat)
    requires Counted(lens, cnt) && Sorted(work, lens, cnt) && 0 < len <= MAXBITS && r < cnt[len]
    ensures s < |lens| && lens[s] == len && Count(lens[..s], len) == r
    ensures 0 <= Total(cnt, len - 1) + r < |work| && work[Total(cnt, len - 1) + r] == s
  {
    s := Nth(lens, len, r);
    assert Rank(lens, cnt, s) == Total(cnt, len - 1) + r;
  }

  // ----- which sets of lengths are acceptable

  /** Complete, or empty, or a single code of one bit outside the code length code. */
  ghost predicate Acceptable(kind: CodeType, cnt: seq<int>)
    requires |cnt| == MAXBITS + 1
  {
    && Fits(cnt)
    && (|| Used(cnt, MAXBITS) == Pow2(MAXBITS)
        || (forall b :: 1 <= b <= MAXBITS ==> cnt[b] == 0)
        || (kind != Codes && forall b :: 2 <= b <= MAXBITS ==> cnt[b] == 0))
  }

  /** The space left at the end, or a negative number as soon as a length is over-subscribed. */
  method SpaceLeft(count: array<int>, ghost cnt: seq<int>) returns (left: int)
    requires cnt == count[..] && |cnt| == MAXBITS + 1 && forall b :: 0 <= b <= MAXBITS ==> cnt[b] >= 0
    ensures left < 0 <==> !Fits(cnt)
    ensures left >= 0 ==> left == Pow2(MAXBITS) - Used(cnt, MAXBITS)
  {
    hide Pow2, Used;
    UsedNone(cnt);
    left := 1;
    var len := 1;
    while len <= MAXBITS
      invariant 1 <= len <= MAXBITS + 1 && left == Pow2(len - 1) - Used(cnt, len - 1)
      invariant forall b: nat :: b < len ==> Used(cnt, b) <= Pow2(b)
    {
      UsedMore(cnt, len);
      left := left * 2;
      left := left - count[len];
      if left < 0 {
        assert Used(cnt, len) > Pow2(len);
        return;
      }
      len := len + 1;
    }
  }

  lemma UsedNone(cnt: seq<int>)
    requires |cnt| > 0
    ensures Used(cnt, 0) == 0 && Pow2(0) == 1
  {
  }

  lemma UsedMore(cnt: seq<int>, b: nat)
    requires 0 < b < |cnt|
    ensures Used(cnt, b) == 2 * Used(cnt, b - 1) + cnt[b] && Pow2(b) == 2 * Pow2(b - 1)
  {
  }

  /** Longest and shortest lengths in use; max is zero when there are none. */
  method LengthRange(count: array<int>, ghost cnt: seq<int>) returns (min: int, max: int)
    requires cnt == count[..] && |cnt| == MAXBITS + 1
    ensures 0 <= max <= MAXBITS && (forall b :: max < b <= MAXBITS ==> cnt[b] == 0)
    ensures max > 0 ==> cnt[max] != 0 && 1 <= min <= max && cnt[min] != 0 && forall b :: 1 <= b < min ==> cnt[b] == 0
  {
    max := MAXBITS;
    while max >= 1 && count[max] == 0
      invariant 0 <= max <= MAXBITS && forall b :: max < b <= MAXBITS ==> cnt[b] == 0
    {
      max := max - 1;
    }
    min := 1;
    while min <= MAXBITS && count[min] == 0
      invariant 1 <= min <= MAXBITS + 1 && forall b :: 1 <= b < min ==> cnt[b] == 0
    {
      min := min + 1;
    }
  }
}
