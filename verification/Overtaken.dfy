/**
 A block whose output reaches its own tokens: as many matches as a block of the default size
 holds, each of 258 bytes from 20000 back, sent with the static trees. When the 13110th is to
 be read, its distance in memory has been written over.
 */
module Overtaken {
  import opened Arith
  import opened DecodeTable
  import opened InflateSpec
  import opened InflateRuns
  import opened BitReservoir
  import opened Lz77
  import opened BitWriter
  import opened BlockPieces
  import opened Overlay
  import opened Blocks
  import opened Costs
  import opened Trees

  const SIZE := 16384
  const FAR := Pair2(258, 20000)
  const FIRST_LOST := 13109

  function Matches(n: nat): (ts: seq<Token>)
    ensures |ts| == n
  {
    seq(n, i => FAR)
  }

  lemma FarProper(n: nat)
    ensures AllProper(Matches(n)) && Proper(FAR)
  {
  }

  lemma SmallPows()
    ensures Pow2(0) == 1 && Pow2(1) == 2 && Pow2(2) == 4 && Pow2(3) == 8 && Pow2(4) == 16 && Pow2(5) == 32
  {
    assert Pow2(2) == 4;
    assert Pow2(4) == 16;
  }

  lemma LargePows()
    ensures Pow2(6) == 64 && Pow2(7) == 128 && Pow2(8) == 256 && Pow2(9) == 512 && Pow2(10) == 1024 && Pow2(11) == 2048
    ensures Pow2(12) == 4096 && Pow2(13) == 8192
  {
    SmallPows();
    assert Pow2(7) == 2 * Pow2(6) && Pow2(9) == 2 * Pow2(8) && Pow2(11) == 2 * Pow2(10);
    assert Pow2(13) == 2 * Pow2(12);
  }

  lemma FarDistance(d: nat)
    requires d < 30 && DistanceBase(d) <= 20000 < DistanceBase(d) + Pow2(DistanceExtra(d))
    ensures d == 28 && DistanceBase(d) == 16385 && DistanceExtra(d) == 13
  {
    hide Pow2;
    SmallPows();
    LargePows();
  }

  /** The pieces of one such match: eight bits, five, and thirteen. */
  lemma FarToken(z: Tables) returns (a: Piece, b: Piece)
    requires GoodTables(z) && Sendable(z.maps, FAR, z.lit, z.dist)
    ensures a.len == 8 && b.len == 5 && TokenPieces(z.maps, FAR, z.lit, z.dist) == [a, b, Piece(3615, 13)]
  {
    hide Sends, LengthBase, LengthExtra, DistanceBase, DistanceExtra, Pow2, FixedLit, FixedDist, CodePiece;
    TokenTakes(z.maps, FAR, z.lit, z.dist);
    var d := DistCode(z.maps, 20000);
    FarDistance(d);
    NoLengthExtra();
    FixedEnds();
    CodeLength(z.lit, 285);
    CodeLength(z.dist, 28);
    a, b := CodePiece(z.lit, 285), CodePiece(z.dist, 28);
    assert [a] + [] + ([b] + [Piece(3615, 13)]) == [a, b, Piece(3615, 13)];
  }

  lemma NoLengthExtra()
    ensures LengthExtra(28) == 0 && LengthBase(28) == 258
  {
  }

  lemma FixedEnds()
    ensures |FixedLit()| == 288 && FixedLit()[285] == 8 && |FixedDist()| == 32 && FixedDist()[28] == 5
  {
  }

  lemma FarSends(z: Tables, n: nat)
    requires GoodTables(z)
    ensures AllSendable(z.maps, Matches(n), z.lit, z.dist) && ValidBlock(z, StaticBlock(Matches(n)))
    ensures Sendable(z.maps, FAR, z.lit, z.dist)
  {
    hide GoodTables, ValidBlock, Sendable;
    FarProper(n);
    FarProper(1);
    StaticValid(z, Matches(n));
    StaticValid(z, Matches(1));
    assert Matches(1)[0] == FAR;
  }

  lemma MatchesMore(n: nat)
    ensures Matches(n + 1) == Matches(n) + [FAR] && Matches(0) == []
  {
  }

  lemma {:induction false} FarWidth(z: Tables, n: nat)
    requires GoodTables(z) && AllSendable(z.maps, Matches(n), z.lit, z.dist)
    ensures Width(TokensPieces(z.maps, Matches(n), z.lit, z.dist)) == 26 * n
  {
    hide *;
    MatchesMore(0);
    if n == 0 {
      NoPieces(z);
    } else {
      FarSends(z, n - 1);
      MatchesMore(n - 1);
      FarWidth(z, n - 1);
      TokensSnoc(z.maps, Matches(n - 1), FAR, z.lit, z.dist);
      var a, b := FarToken(z);
      ThreePieces(a, b, Piece(3615, 13));
      WidthAppend(TokensPieces(z.maps, Matches(n - 1), z.lit, z.dist), [a, b, Piece(3615, 13)]);
    }
  }

  lemma NoPieces(z: Tables)
    ensures AllSendable(z.maps, [], z.lit, z.dist) && Width(TokensPieces(z.maps, [], z.lit, z.dist)) == 0
  {
  }

  lemma ThreePieces(a: Piece, b: Piece, c: Piece)
    ensures [a, b, c] == [a, b] + [c] && Width([a, b, c]) == a.len + b.len + c.len && Width([a, b]) == a.len + b.len
  {
    BlockPieces.WidthOne(a);
    BlockPieces.WidthOne(b);
    BlockPieces.WidthOne(c);
    assert [a, b] == [a] + [b];
    WidthAppend([a], [b]);
    WidthAppend([a, b], [c]);
  }

  lemma FirstMatches(k: nat, n: nat)
    requires k <= n
    ensures Matches(n)[..k] == Matches(k)
  {
  }

  /** The output of this block reaches its own tokens. */
  lemma FarOvertakes(z: Tables)
    requires GoodTables(z)
    ensures ValidBlock(z, StaticBlock(Matches(SIZE - 1))) && Overtakes(z, StaticBlock(Matches(SIZE - 1)), 0, SIZE)
  {
    hide *;
    Sizes();
    var ts, k := Matches(SIZE - 1), FIRST_LOST;
    FarSends(z, SIZE - 1);
    FarSends(z, k);
    FirstMatches(k, SIZE - 1);
    FarWidth(z, k);
    Senders.AheadAtIs(z.maps, ts, z.lit, z.dist, 3, SIZE, k);
    PendingIs(42604, 5, 3 + 26 * k);
    Senders.AheadFails(z.maps, ts, z.lit, z.dist, 3, SIZE, k);
    StaticOvertakes(z, ts, 0, SIZE);
  }

  lemma Sizes()
    ensures SIZE == 16384 && FIRST_LOST == 13109 && FAR == Pair2(258, 20000)
  {
  }

  /**
   What is then read is a wrong distance: the upper of its two bytes is that of the output there, 31, and not
   that of 20000, which is 78.
   */
  lemma WrongDistance(z: Tables, eof: bool, out: seq<Byte>, biBuf: int, biValid: nat, mem: seq<Byte>)
    requires GoodTables(z) && AllSendable(z.maps, Matches(FIRST_LOST), z.lit, z.dist)
    requires Written([Piece(2 + Bit1(eof), 3)] + TokensPieces(z.maps, Matches(FIRST_LOST), z.lit, z.dist), out, biBuf,
                     biValid)
    requires 1 <= biValid <= 16 && |out| % 2 == 0 && |mem| == 4 * SIZE && out <= mem
    ensures |out| == 42604 && mem[42603] == 31
    ensures TokenOf(Word(mem, SIZE + 2 * FIRST_LOST), mem[3 * SIZE + FIRST_LOST]) != FAR
  {
    hide *;
    Sizes();
    var h, k := Piece(2 + Bit1(eof), 3), FIRST_LOST - 1;
    FarSends(z, k);
    MatchesMore(k);
    FarWidth(z, k);
    TokensSnoc(z.maps, Matches(k), FAR, z.lit, z.dist);
    var a, b := FarToken(z);
    var e := Piece(3615, 13);
    ThreePieces(a, b, e);
    var before := [h] + TokensPieces(z.maps, Matches(k), z.lit, z.dist) + [a, b];
    assert [h] + (TokensPieces(z.maps, Matches(k), z.lit, z.dist) + [a, b, e]) == before + [e];
    BlockPieces.WidthOne(h);
    BlockPieces.WidthOne(e);
    WidthAppend([h], TokensPieces(z.maps, Matches(k), z.lit, z.dist));
    WidthAppend([h] + TokensPieces(z.maps, Matches(k), z.lit, z.dist), [a, b]);
    WidthAppend(before, [e]);
    WrittenParts(before + [e], out, biBuf, biValid);
    PendingIs(|out|, biValid, 3 + 26 * FIRST_LOST);
    assert PendingAt(3 + 26 * FIRST_LOST) == 42604 by {
      PendingIs(42604, 5, 3 + 26 * FIRST_LOST);
    }
    LastByte(before, e, out, biBuf, biValid);
    assert mem[42603] == out[42603];
    WordHigh(mem);
  }

  lemma WordHigh(mem: seq<Byte>)
    requires |mem| == 4 * SIZE && mem[42603] == 31
    ensures TokenOf(Word(mem, SIZE + 2 * FIRST_LOST), mem[3 * SIZE + FIRST_LOST]) != FAR
  {
  }

  lemma SmallInit(before: seq<Piece>, e: Piece)
    requires AllSmall(before + [e])
    ensures AllSmall(before) && Small(e)
  {
    assert (before + [e])[|before|] == e;
    forall i | 0 <= i < |before| ensures Small(before[i]) {
      assert (before + [e])[i] == before[i];
    }
  }

  /** The last byte put begins just where the last piece does. */
  lemma LastByte(before: seq<Piece>, e: Piece, out: seq<Byte>, biBuf: int, biValid: nat)
    requires Written(before + [e], out, biBuf, biValid) && |out| == 42604 && Width(before) == 8 * 42603
             && e == Piece(3615, 13)
    ensures out[42603] == 31
  {
    hide *;
    var n := 42603;
    WrittenParts(before + [e], out, biBuf, biValid);
    SmallInit(before, e);
    NumAppend(before, [e]);
    NumOne(e);
    var rest, b := out[..n], out[n];
    assert out == rest + [b];
    ByteValue(rest, b);
    ValueBound(rest);
    ShrUp(biBuf, 8);
    assert Num(before) + Up(3615, 8 * n) == Value(rest) + Up(b, 8 * n) + Up(biBuf, 8 * (n + 1));
    UpUp(biBuf, 8, 8 * n);
    UpSum(b, Up(biBuf, 8), 8 * n);
    LowJoin(Num(before), 3615, 8 * n);
    LowJoin(Value(rest), b + Up(biBuf, 8), 8 * n);
    EightUp(biBuf);
  }
}
