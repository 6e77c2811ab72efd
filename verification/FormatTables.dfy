/**
 The tables of the deflate format in the words of RFC 1951: where the code length code lengths
 stand (section 3.2.7), the bases and extra bits of lengths and distances (3.2.5), and the
 codes of a block with fixed codes (3.2.6).
 */
module FormatTables {
  import opened Arith
  import opened Canonical
  import opened DecodeTable
  import opened SymbolSort
  import opened InflateSpec
  import opened FixedCodes
  import opened BitWriter
  import opened BlockPieces
  import opened HeaderBack

  // ----- the order of the code length code lengths

  /** Value i of the n values read; what is not sent is zero. */
  function Given(read: seq<int>, n: nat, i: nat): int
    requires n <= |read|
  {
    if i < n then read[i] else 0
  }

  /** The first three values are the lengths of 16 to 18, then come 0 and 8, and then 7, 9, 6, 10 and so on. */
  lemma PlacesRead(read: seq<int>, n: nat, k: nat)
    requires n <= |read| && n <= 19
    ensures
      var lens := Unordered(read, n);
      && (k < 3 ==> lens[16 + k] == Given(read, n, k))
      && lens[0] == Given(read, n, 3) && lens[8] == Given(read, n, 4)
      && (1 <= k <= 7 ==> lens[8 - k] == Given(read, n, 3 + 2 * k) && lens[8 + k] == Given(read, n, 4 + 2 * k))
  {
    hide Unordered, ORDER;
    UnorderedAt(read, n, 0);
    UnorderedAt(read, n, 8);
    if k < 3 {
      UnorderedAt(read, n, 16 + k);
    }
    if 1 <= k <= 7 {
      UnorderedAt(read, n, 8 - k);
      UnorderedAt(read, n, 8 + k);
    }
  }

  /** What the decoder takes the values read for. */
  lemma PlacesDecoded(x: int, n: nat, c: Config, k: nat)
    requires x >= 0 && c.st.LenLens? && |c.st.read| == c.st.ncode <= 19
    ensures
      var s := StepAt(x, n, c);
      && s.Move? && s.k == 0
      && (s.next.st.CodeLens? ==>
            var lens, read, m := s.next.st.code, c.st.read, c.st.ncode;
            && |lens| == 19 && (k < 3 ==> lens[16 + k] == Given(read, m, k))
            && lens[0] == Given(read, m, 3) && lens[8] == Given(read, m, 4)
            && (1 <= k <= 7 ==> lens[8 - k] == Given(read, m, 3 + 2 * k) && lens[8 + k] == Given(read, m, 4 + 2 * k)))
  {
    hide *;
    PlacesRead(c.st.read, c.st.ncode, k);
    AllRead(x, n, c);
  }

  lemma AllRead(x: int, n: nat, c: Config)
    requires x >= 0 && c.st.LenLens? && |c.st.read| == c.st.ncode <= 19
    ensures
      var code := Unordered(c.st.read, c.st.ncode);
      StepAt(x, n, c)
      == Move(0, c.(st := if Acceptable(Codes, Cnt(code)) then CodeLens(c.st.nlen, c.st.ndist, code, []) else Bad))
  {
    hide Low, Unordered, Acceptable, Cnt;
  }

  lemma {:induction false} SentInOrder(len: seq<int>, n: nat)
    requires n <= 19 <= |len|
    ensures |BlPieces(len, n)| == n
    ensures forall i :: 0 <= i < n ==> ORDER[i] < 19 && BlPieces(len, n)[i] == Piece(len[ORDER[i]], 3)
  {
    if n > 0 {
      SentInOrder(len, n - 1);
      OrderPlace(n - 1);
    }
  }

  /** The pieces that are sent stand in the same order. */
  lemma PlacesSent(len: seq<int>, n: nat, k: nat)
    requires n <= 19 <= |len|
    ensures
      var ps := BlPieces(len, n);
      && |ps| == n && (k < 3 && k < n ==> ps[k] == Piece(len[16 + k], 3))
      && (3 < n ==> ps[3] == Piece(len[0], 3)) && (4 < n ==> ps[4] == Piece(len[8], 3))
      && (1 <= k <= 7 && 3 + 2 * k < n ==> ps[3 + 2 * k] == Piece(len[8 - k], 3))
      && (1 <= k <= 7 && 4 + 2 * k < n ==> ps[4 + 2 * k] == Piece(len[8 + k], 3))
  {
    hide BlPieces;
    SentInOrder(len, n);
  }

  // ----- bases and extra bits

  /** The tables of section 3.2.5 in closed form. */
  lemma LengthTable(i: nat)
    requires i < 29
    ensures LengthExtra(i) == if i < 8 || i == 28 then 0 else (i - 4) / 4
    ensures LengthBase(i) == if i == 28 then 258 else if i < 8 then 3 + i else 3 + (4 + i % 4) * Pow2((i - 4) / 4)
  {
    assert Pow2(1) == 2 && Pow2(2) == 4 && Pow2(3) == 8 && Pow2(4) == 16 && Pow2(5) == 32;
  }

  lemma DistanceTable(i: nat)
    requires i < 30
    ensures DistanceExtra(i) == if i < 2 then 0 else i / 2 - 1
    ensures DistanceBase(i) == if i < 2 then 1 + i else 1 + (2 + i % 2) * Pow2(i / 2 - 1)
  {
    hide *;
    DistanceExtras(i);
    DistanceBases(i);
  }

  lemma DistanceExtras(i: nat)
    requires i < 30
    ensures DistanceExtra(i) == if i < 2 then 0 else i / 2 - 1
  {
  }

  lemma DistanceBases(i: nat)
    requires i < 30
    ensures DistanceBase(i) == if i < 2 then 1 + i else 1 + (2 + i % 2) * Pow2(i / 2 - 1)
  {
    assert Pow2(1) == 2 && Pow2(2) == 4 && Pow2(3) == 8 && Pow2(4) == 16 && Pow2(5) == 32 && Pow2(6) == 64;
    assert Pow2(7) == 128 && Pow2(8) == 256 && Pow2(9) == 512 && Pow2(10) == 1024 && Pow2(11) == 2048;
    assert Pow2(12) == 4096 && Pow2(13) == 8192;
  }

  // ----- the fixed codes

  /** Section 3.2.6: from 00110000, 110010000, 0000000 and 11000000 on. */
  lemma FixedCode(s: nat)
    requires s < 288
    ensures FixedLit()[s] == if s < 144 then 8 else if s < 256 then 9 else if s < 280 then 7 else 8
    ensures
      Code(FixedLit(), Cnt(FixedLit()), s)
      == if s < 144 then 0x30 + s else if s < 256 then 0x190 + s - 144 else if s < 280 then s - 256 else 0xc0 + s - 280
  {
    var cnt := Cnt(FixedLit());
    FixedLengthAt(s);
    hide *;
    FixedFirst();
    var len := FixedLit()[s];
    FixedCount(s, len);
    CodeIs(FixedLit(), cnt, s);
  }

  lemma CodeIs(lens: seq<int>, cnt: seq<int>, s: nat)
    requires s < |lens| && 0 < lens[s] < |cnt|
    ensures Code(lens, cnt, s) == FirstCode(cnt, lens[s]) + Count(lens[..s], lens[s])
  {
    hide FirstCode, Count;
  }

  lemma FixedLengthAt(s: nat)
    requires s < 288
    ensures FixedLit()[s] == if s < 144 then 8 else if s < 256 then 9 else if s < 280 then 7 else 8
    ensures |Cnt(FixedLit())| == 16
  {
    hide Count;
  }

  lemma FixedFirst()
    ensures
      var cnt := Cnt(FixedLit());
      |cnt| == 16 && FirstCode(cnt, 7) == 0 && FirstCode(cnt, 8) == 0x30 && FirstCode(cnt, 9) == 0x190
  {
    var cnt := Cnt(FixedLit());
    forall x: nat | x <= 9
      ensures cnt[x] == if x == 7 then 24 else if x == 8 then 152 else if x == 9 then 112 else 0
    {
      hide Cnt, FixedLit, Count;
      FixedLitCount(x);
      CntAt(FixedLit(), x);
    }
    hide Cnt, FixedLit, Count;
    NoneBelow(cnt, 6);
  }

  /** How many symbols before s have the length. */
  lemma FixedCount(s: nat, len: int)
    requires s < 288
    ensures
      Count(FixedLit()[..s], len)
      == (if len == 8 then Min(s, 144) else 0)
         + (if len == 9 && s > 144 then Min(s, 256) - 144 else 0)
         + (if len == 7 && s > 256 then Min(s, 280) - 256 else 0)
         + (if len == 8 && s > 280 then s - 280 else 0)
  {
    var p, q := Min(s, 144), if s > 144 then Min(s, 256) - 144 else 0;
    var r, t := if s > 256 then Min(s, 280) - 256 else 0, if s > 280 then s - 280 else 0;
    FixedPrefix(s, p, q, r, t);
    hide *;
    CountFour(p, q, r, t, len);
    MinIs(s);
  }

  lemma MinIs(s: nat)
    ensures 0 <= Min(s, 144) && (s > 144 ==> Min(s, 256) >= 144) && (s > 256 ==> Min(s, 280) >= 256)
  {
  }

  lemma FixedPrefix(s: nat, p: nat, q: nat, r: nat, t: nat)
    requires s < 288 && p == Min(s, 144) && q == if s > 144 then Min(s, 256) - 144 else 0
    requires r == (if s > 256 then Min(s, 280) - 256 else 0) && t == if s > 280 then s - 280 else 0
    ensures FixedLit()[..s] == seq(p, i => 8) + seq(q, i => 9) + seq(r, i => 7) + seq(t, i => 8)
  {
  }

  lemma CountFour(p: nat, q: nat, r: nat, t: nat, len: int)
    ensures
      Count(seq(p, i => 8) + seq(q, i => 9) + seq(r, i => 7) + seq(t, i => 8), len)
      == (if len == 8 then p + t else 0) + (if len == 9 then q else 0) + (if len == 7 then r else 0)
  {
    hide *;
    var a, b, c, d := seq(p, i => 8), seq(q, i => 9), seq(r, i => 7), seq(t, i => 8);
    CountAppend(a + b + c, d, len);
    CountAppend(a + b, c, len);
    CountAppend(a, b, len);
    CountRepeat(p, 8, len);
    CountRepeat(q, 9, len);
    CountRepeat(r, 7, len);
    CountRepeat(t, 8, len);
  }

  /** Distance symbols have five bits each, in order. */
  lemma FixedDistance(s: nat)
    requires s < 32
    ensures FixedDist()[s] == 5 && Code(FixedDist(), Cnt(FixedDist()), s) == s
  {
    var cnt := Cnt(FixedDist());
    DistanceLengthAt(s);
    hide *;
    DistanceFirst();
    CodeIs(FixedDist(), cnt, s);
  }

  lemma DistanceLengthAt(s: nat)
    requires s < 32
    ensures FixedDist()[s] == 5 && Count(FixedDist()[..s], 5) == s && |Cnt(FixedDist())| == 16
  {
    assert FixedDist()[..s] == seq(s, i => 5);
    CountRepeat(s, 5, 5);
    hide Count;
  }

  lemma DistanceFirst()
    ensures |Cnt(FixedDist())| == 16 && FirstCode(Cnt(FixedDist()), 5) == 0
  {
    var cnt := Cnt(FixedDist());
    forall x: nat | x <= 4
      ensures cnt[x] == 0
    {
      hide Cnt, FixedDist, Count;
      FixedDistCount(x);
      CntAt(FixedDist(), x);
    }
    hide Cnt, FixedDist, Count;
    NoneBelow(cnt, 4);
  }
}
