/** The fixed codes of RFC 1951 section 3.2.6 are complete. */
module FixedCodes {
  import opened Arith
  import opened Canonical
  import opened DecodeTable
  import opened SymbolSort
  import opened InflateSpec
  import opened InflateRuns

  lemma {:induction false} CountRepeat(n: nat, v: int, x: int)
    ensures Count(seq(n, i => v), x) == if x == v then n else 0
  {
    if n > 0 {
      CountRepeat(n - 1, v, x);
      assert seq(n, i => v) == seq(n - 1, i => v) + [v];
      CountSnoc(seq(n - 1, i => v), v, x);
    }
  }

  lemma FixedLitCount(x: int)
    ensures Count(FixedLit(), x) == if x == 7 then 24 else if x == 8 then 152 else if x == 9 then 112 else 0
  {
    var a, b, c, d := seq(144, i => 8), seq(112, i => 9), seq(24, i => 7), seq(8, i => 8);
    assert FixedLit() == ((a + b) + c) + d;
    CountAppend(a + b + c, d, x);
    CountAppend(a + b, c, x);
    CountAppend(a, b, x);
    CountRepeat(144, 8, x);
    CountRepeat(112, 9, x);
    CountRepeat(24, 7, x);
    CountRepeat(8, 8, x);
  }

  lemma FixedDistCount(x: int)
    ensures Count(FixedDist(), x) == if x == 5 then 32 else 0
  {
    CountRepeat(32, 5, x);
  }

  /** Space that is used up at one length stays used up. */
  lemma {:induction false} FullAbove(cnt: seq<int>, a: nat, b: nat)
    requires a <= b < |cnt| && Used(cnt, a) == Pow2(a) && forall i :: a < i < |cnt| ==> cnt[i] == 0
    ensures Used(cnt, b) == Pow2(b)
    decreases b
  {
    if a < b {
      FullAbove(cnt, a, b - 1);
    }
  }

  lemma {:induction false} NoneBelow(cnt: seq<int>, b: nat)
    requires b < |cnt| && forall i :: 0 < i <= b ==> cnt[i] == 0
    ensures Used(cnt, b) == 0
  {
    if b > 0 {
      NoneBelow(cnt, b - 1);
    }
  }

  /** Full at its last length and never negative is acceptable. */
  lemma FullAcceptable(kind: CodeType, cnt: seq<int>, top: nat)
    requires |cnt| == MAXBITS + 1 && top <= MAXBITS && Used(cnt, top) == Pow2(top)
    requires (forall i :: 0 <= i < |cnt| ==> cnt[i] >= 0) && forall i :: top < i < |cnt| ==> cnt[i] == 0
    ensures Acceptable(kind, cnt)
  {
    forall b: nat | b < |cnt| ensures Used(cnt, b) <= Pow2(b) {
      if b <= top {
        FitsFromLast(cnt, b, top);
      } else {
        FullAbove(cnt, top, b);
      }
    }
    FullAbove(cnt, top, MAXBITS);
    hide Used, Pow2;
  }

  lemma FixedLitFull(l: seq<int>)
    requires |l| == MAXBITS + 1
    requires forall x :: 0 <= x <= MAXBITS ==>
             l[x] == if x == 7 then 24 else if x == 8 then 152 else if x == 9 then 112 else 0
    ensures Acceptable(Lens, l)
  {
    NoneBelow(l, 6);
    assert Used(l, 7) == 24 && Used(l, 8) == 200 && Used(l, 9) == 512;
    assert Pow2(4) == 16 && Pow2(9) == 32 * Pow2(4);
    hide Used, Pow2;
    FullAcceptable(Lens, l, 9);
    hide Acceptable;
  }

  lemma FixedDistFull(d: seq<int>)
    requires |d| == MAXBITS + 1 && forall x :: 0 <= x <= MAXBITS ==> d[x] == if x == 5 then 32 else 0
    ensures Acceptable(Dists, d)
  {
    NoneBelow(d, 4);
    assert Used(d, 5) == 32 && Pow2(5) == 32;
    hide Used, Pow2;
    FullAcceptable(Dists, d, 5);
    hide Acceptable;
  }

  lemma CntAt(lens: seq<int>, x: nat)
    requires x <= MAXBITS
    ensures Cnt(lens)[x] == Count(lens, x)
  {
  }

  lemma FixedLitUsable()
    ensures Usable(Lens, FixedLit())
  {
    hide Count, Acceptable;
    forall x | 0 <= x <= MAXBITS
      ensures Cnt(FixedLit())[x] == if x == 7 then 24 else if x == 8 then 152 else if x == 9 then 112 else 0
    {
      hide FixedLit, Cnt;
      FixedLitCount(x);
      CntAt(FixedLit(), x);
    }
    FixedLitFull(Cnt(FixedLit()));
    hide Cnt;
  }

  lemma FixedDistUsable()
    ensures Usable(Dists, FixedDist())
  {
    hide Count, Acceptable;
    forall x | 0 <= x <= MAXBITS ensures Cnt(FixedDist())[x] == if x == 5 then 32 else 0 {
      hide FixedDist, Cnt;
      FixedDistCount(x);
      CntAt(FixedDist(), x);
    }
    FixedDistFull(Cnt(FixedDist()));
    hide Cnt;
  }

  lemma FixedUsable()
    ensures UsablePair(FIXED)
  {
    hide FixedLit, FixedDist, Usable;
    FixedLitUsable();
    FixedDistUsable();
  }
}
