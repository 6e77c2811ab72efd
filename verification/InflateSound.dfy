/**
 Every state that a run comes to is sane, and what a run has decoded is final:
 more input only adds to it.
 */
module InflateSound {
  import opened Arith
  import opened Canonical
  import opened BitOrder
  import opened DecodeTable
  import opened SymbolSort
  import opened InflateSpec
  import opened InflateRuns
  import opened FixedCodes

  lemma SmallPowers()
    ensures Pow2(1) == 2 && Pow2(2) == 4 && Pow2(3) == 8 && Pow2(4) == 16 && Pow2(5) == 32 && Pow2(6) == 64
    ensures Pow2(7) == 128 && Pow2(8) == 256 && Pow2(9) == 512 && Pow2(10) == 1024 && Pow2(11) == 2048
    ensures Pow2(12) == 4096 && Pow2(13) == 8192 && Pow2(14) == 16384 && Pow2(15) == 32768 && Pow2(16) == 65536
  {
    assert Pow2(4) == 16;
    assert Pow2(8) == 16 * Pow2(4);
    assert Pow2(12) == 16 * Pow2(8);
    assert Pow2(16) == 16 * Pow2(12);
  }

  /** How many values op - 16 extra bits tell apart. */
  function Span(op: int): (n: nat)
    ensures 16 <= op <= 29 ==> n == Pow2(op - 16)
  {
    SmallPowers();
    if op == 16 then 1 else if op == 17 then 2 else if op == 18 then 4 else if op == 19 then 8
    else if op == 20 then 16 else if op == 21 then 32 else if op == 22 then 64 else if op == 23 then 128
    else if op == 24 then 256 else if op == 25 then 512 else if op == 26 then 1024 else if op == 27 then 2048
    else if op == 28 then 4096 else 8192
  }

  lemma LengthTable(i: nat)
    requires i < 29
    ensures LengthExtra(i) <= 5 && 3 <= LengthBase(i) && LengthBase(i) + Span(LengthExtra(i) + 16) <= 259
  {
    hide Pow2;
  }

  lemma DistanceTable(i: nat)
    requires i < 30
    ensures DistanceExtra(i) <= 13 && 1 <= DistanceBase(i) && DistanceBase(i) + Span(DistanceExtra(i) + 16) <= 32769
  {
    hide Pow2;
  }

  /** Length codes stand for lengths 3 to 258. */
  lemma LengthRange(d: Pair, s: nat, c: Config)
    requires 257 <= s < 286 && UsablePair(d) && c.st == AfterLen(d, s)
    ensures c.st.LenExt? && Sane(c)
  {
    hide UsablePair, Pow2, Span, LengthBase, LengthExtra, DistanceBase, DistanceExtra;
    LengthTable(s - 257);
  }

  /** Distance codes stand for distances 1 to 32768. */
  lemma DistanceRange(d: Pair, length: nat, s: nat, c: Config)
    requires s < 30 && UsablePair(d) && 3 <= length <= 258 && c.st == AfterDist(d, length, s)
    ensures c.st.DistExt? && Sane(c)
  {
    hide UsablePair, Pow2, Span, LengthBase, LengthExtra, DistanceBase, DistanceExtra;
    DistanceTable(s);
  }

  // ----- steps keep states sane

  lemma LowBound(x: int, n: nat)
    requires x >= 0
    ensures 0 <= Low(x, n) <= Pow2(n) - 1
  {
  }

  /** The lengths of a block are sane wherever they are put. */
  lemma UnorderedRange(read: seq<int>, n: nat)
    requires n <= |read| && n <= 19 && forall i :: 0 <= i < |read| ==> 0 <= read[i] <= 7
    ensures forall i :: 0 <= i < 19 ==> 0 <= Unordered(read, n)[i] <= 7
  {
    if n > 0 {
      UnorderedRange(read, n - 1);
    }
  }

  lemma SaneLenLens(x: int, n: nat, c: Config)
    requires x >= 0 && c.st.LenLens? && Sane(c) && StepLenLens(x, n, c).Move?
    ensures Sane(StepLenLens(x, n, c).next) && StepLenLens(x, n, c).k <= n
  {
    var s := c.st;
    LowBound(x, 3);
    SmallPowers();
    hide Low, Pow2;
    UnorderedRange(s.read, |s.read|);
    hide Unordered, Acceptable;
  }

  lemma SaneRun(x: int, n: nat, c: Config, s: nat, k: nat)
    requires x >= 0 && c.st.CodeLens? && Sane(c) && |c.st.lens| < c.st.nlen + c.st.ndist && s < 19 && k <= n
    requires StepRun(x, n, c, s, k).Move?
    ensures Sane(StepRun(x, n, c, s, k).next) && StepRun(x, n, c, s, k).k <= n
  {
    hide Low, Usable, Shr;
  }

  lemma SaneSymbol(x: int, n: nat, c: Config)
    requires x >= 0 && c.st.CodeLens? && Sane(c) && |c.st.lens| < c.st.nlen + c.st.ndist && StepCodeLens(x, n, c).Move?
    ensures Sane(StepCodeLens(x, n, c).next) && StepCodeLens(x, n, c).k <= n
  {
    var t := c.st;
    var r := SymbolAt(t.code, x, n);
    hide SymbolAt;
    var s, k := if r.Found? then r.sym else 0, if r.Found? then t.code[r.sym] else 1;
    assert StepCodeLens(x, n, c) == StepRun(x, n, c, s, k);
    assert |t.code| == 19 && s < 19;
    hide StepCodeLens, StepRun, Usable;
    SymbolBits(t.code, x, n);
    SaneRun(x, n, c, s, k);
    hide Sane;
  }

  lemma SymbolBits(lens: seq<int>, x: int, n: nat)
    requires x >= 0
    ensures var r := SymbolAt(lens, x, n);
      && (r.Found? ==> r.sym < |lens| && 0 < lens[r.sym] <= n)
      && (r.Gap? ==> n >= 1)
  {
    hide Dead;
  }

  lemma SaneBuild(x: int, n: nat, c: Config)
    requires x >= 0 && c.st.CodeLens? && Sane(c) && !(|c.st.lens| < c.st.nlen + c.st.ndist)
    ensures StepCodeLens(x, n, c).Move? && Sane(StepCodeLens(x, n, c).next) && StepCodeLens(x, n, c).k == 0
  {
    hide Acceptable, Usable, UsablePair, SymbolAt, StepRun, AfterLens;
    var t := c.st;
    var lit, dist := t.lens[..t.nlen], t.lens[t.nlen..];
    SaneCodes(lit, dist, StepCodeLens(x, n, c).next);
    hide Sane;
  }

  lemma SaneCodeLens(x: int, n: nat, c: Config)
    requires x >= 0 && c.st.CodeLens? && Sane(c) && StepCodeLens(x, n, c).Move?
    ensures Sane(StepCodeLens(x, n, c).next) && StepCodeLens(x, n, c).k <= n
  {
    hide StepCodeLens, Sane;
    if |c.st.lens| < c.st.nlen + c.st.ndist {
      SaneSymbol(x, n, c);
    } else {
      SaneBuild(x, n, c);
    }
  }

  lemma SaneCodes(lit: seq<int>, dist: seq<int>, c: Config)
    requires |lit| <= 286 && |dist| <= 30
    requires (forall i :: 0 <= i < |lit| ==> 0 <= lit[i] <= MAXBITS)
             && forall i :: 0 <= i < |dist| ==> 0 <= dist[i] <= MAXBITS
    requires c.st == AfterLens(lit, dist)
    ensures Sane(c)
  {
    hide Acceptable, Cnt;
  }

  lemma SaneLen(x: int, n: nat, c: Config)
    requires x >= 0 && c.st.Len? && Sane(c) && StepLen(x, n, c).Move?
    ensures Sane(StepLen(x, n, c).next) && StepLen(x, n, c).k <= n
  {
    hide UsablePair, Starts, LengthBase, LengthExtra;
    match SymbolAt(c.st.c.lit, x, n)
    case Found(s) =>
      if 257 <= s < 286 {
        LengthRange(c.st.c, s, StepLen(x, n, c).next);
      }
    case Gap =>
  }

  lemma SaneDist(x: int, n: nat, c: Config)
    requires x >= 0 && c.st.Dist? && Sane(c) && StepDist(x, n, c).Move?
    ensures Sane(StepDist(x, n, c).next) && StepDist(x, n, c).k <= n
  {
    hide UsablePair, Starts, DistanceBase, DistanceExtra;
    match SymbolAt(c.st.c.dist, x, n)
    case Found(s) =>
      if s < 30 {
        DistanceRange(c.st.c, c.st.length, s, StepDist(x, n, c).next);
      }
    case Gap =>
  }

  lemma SaneHeader(x: int, n: nat, c: Config)
    requires x >= 0 && StepType(x, n, c).Move?
    ensures Sane(StepType(x, n, c).next) && StepType(x, n, c).k <= n
  {
    FixedUsable();
    hide UsablePair, Low;
  }

  lemma SaneTable(x: int, n: nat, c: Config)
    requires x >= 0 && StepTable(x, n, c).Move?
    ensures Sane(StepTable(x, n, c).next) && StepTable(x, n, c).k <= n
  {
    LowBound(Shr(x, 10), 4);
    SmallPowers();
    hide Low, Pow2, Shr;
  }

  lemma SaneLenExt(x: int, n: nat, c: Config)
    requires x >= 0 && c.st.LenExt? && Sane(c) && StepLenExt(x, n, c).Move?
    ensures Sane(StepLenExt(x, n, c).next) && StepLenExt(x, n, c).k <= n
  {
    hide Low, UsablePair, Pow2;
    LowBound(x, c.st.extra);
  }

  lemma SaneDistExt(x: int, n: nat, c: Config)
    requires x >= 0 && c.st.DistExt? && Sane(c) && StepDistExt(x, n, c).Move?
    ensures Sane(StepDistExt(x, n, c).next) && StepDistExt(x, n, c).k <= n
  {
    hide Low, UsablePair, Pow2;
    LowBound(x, c.st.extra);
  }

  lemma SaneStored(x: int, n: nat, c: Config)
    requires x >= 0 && Sane(c)
    ensures StepStoredLen(x, n, c).Move? ==> Sane(StepStoredLen(x, n, c).next) && StepStoredLen(x, n, c).k <= n
  {
    LowBound(x, 16);
    SmallPowers();
    hide Low, Pow2, UsablePair;
  }

  lemma SaneOutput(x: int, n: nat, c: Config)
    requires x >= 0 && Sane(c)
    ensures c.st.Copy? && StepCopy(x, n, c).Move? ==> Sane(StepCopy(x, n, c).next) && StepCopy(x, n, c).k <= n
    ensures c.st.Match? && StepMatch(c).Move? ==> Sane(StepMatch(c).next) && StepMatch(c).k <= n
    ensures c.st.Lit? ==> Sane(Config(Len(c.st.c), c.last, c.out + [c.st.byte]))
  {
    hide Low, Pow2, UsablePair;
  }

  /** A step takes no more bits than there are, and leads from sane states to sane states. */
  lemma StepSane(x: int, n: nat, c: Config)
    requires x >= 0 && Sane(c) && StepAt(x, n, c).Move?
    ensures Sane(StepAt(x, n, c).next) && StepAt(x, n, c).k <= n
  {
    hide StepType, StepStoredLen, StepCopy, StepTable, StepLenLens, StepCodeLens, StepLen, StepLenExt, StepDist,
         StepDistExt, StepMatch,
      UsablePair, Low;
    match c.st
    case Type => SaneHeader(x, n, c);
    case Table => SaneTable(x, n, c);
    case LenLens(_, _, _, _) => SaneLenLens(x, n, c);
    case CodeLens(_, _, _, _) => SaneCodeLens(x, n, c);
    case Len(_) => SaneLen(x, n, c);
    case Dist(_, _) => SaneDist(x, n, c);
    case LenExt(_, _, _) => SaneLenExt(x, n, c);
    case DistExt(_, _, _, _) => SaneDistExt(x, n, c);
    case StoredLen => SaneStored(x, n, c);
    case _ => SaneOutput(x, n, c);
  }
}
