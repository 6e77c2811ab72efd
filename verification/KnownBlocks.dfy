/** A stored block and a block with the fixed codes, byte for byte, and what the decoder makes of them. */
module KnownBlocks {
  import opened Arith
  import opened Canonical
  import opened BitOrder
  import opened DecodeTable
  import opened InflateSpec
  import opened InflateRuns
  import opened FixedCodes
  import opened BitWriter
  import opened ReadBack
  import opened HeaderBack
  import opened Blocks
  import opened FormatTables
  import opened KnownStream

  /** A stream that fills its last byte is at its end after its last block. */
  lemma EndedFull(inp: seq<Byte>, out: seq<Byte>) returns (m: Machine)
    requires Stands(inp, Type, out, End)
    ensures Reaches(inp, m) && m.c == Config(Done, true, out) && m.pos == 8 * |inp|
  {
    hide *;
    NoPieces();
    NoWidth();
    var m1 := Standing(inp, Type, out, End);
    AtParts(inp, m1, []);
    LastStep(Rest(inp, m1), Left(inp, m1), m1.c);
    SteppedFree(inp, m1, End, Check, out);
    var m2 := Standing(inp, Check, out, End);
    LastStep(Rest(inp, m2), Left(inp, m2), m2.c);
    SteppedFree(inp, m2, End, Done, out);
    m := Standing(inp, Done, out, End);
    AtParts(inp, m, []);
    LeftIs(inp, m);
  }

  // ----- a stored block

  const STORED: seq<Byte> := [1, 1, 0, 254, 255, 97]

  function StoredFields(): Fields {
    Ahead(1, 3, Ahead(0, 5, Ahead(1, 16, Ahead(0xfffe, 16, Ahead(97, 8, End)))))
  }

  lemma StoredNumber()
    ensures Fitting(StoredFields()) && Bits(StoredFields()) == 48 && Number(StoredFields()) == 0x61fffe000101
  {
    NoFields();
    hide Number, Bits, Fitting, Up, Ahead;
  }

  lemma StoredValue()
    ensures |STORED| == 6 && Value(STORED) == 0x61fffe000101
  {
    hide Value;
    assert STORED[0..] == STORED && STORED[6..] == [];
    FourBytes(STORED, 0);
    KnownStream.FirstByte(STORED, 4);
    KnownStream.FirstByte(STORED, 5);
    NoValue();
  }

  lemma StoredPieces1()
    ensures
      AsPieces(StoredFields())
      == [Piece(1, 3)] + (Padding(3) + ([Piece(1, 16), Piece(0xfffe, 16)] + BytePieces([97])) + [])
  {
    NoPieces();
    assert BytePieces([97]) == [Piece(97, 8)] + BytePieces([]);
    assert Padding(3) == [Piece(0, 5)];
    hide Ahead, AsPieces, BytePieces, Padding;
  }

  /** A stored block of one byte. */
  lemma KnownStored() returns (m: Machine)
    ensures Reaches(STORED, m) && m.c == Config(Done, true, [97]) && m.pos == 48
  {
    hide *;
    StoredNumber();
    StoredValue();
    StoredPieces1();
    NumberIs(StoredFields());
    StartAt(STORED, AsPieces(StoredFields()));
    StartIs();
    var rest := Padding(3) + ([Piece(1, 16), Piece(0xfffe, 16)] + BytePieces([97])) + [];
    ReadType(STORED, START, 0, true, rest);
    var m1 := ReadStored(STORED, Machine(Config(Stored, true, []), 3), [97], []);
    NoPieces();
    assert [] + [97] == [97];
    Stood(STORED, m1, End);
    m := EndedFull(STORED, [97]);
  }

  // ----- a block with the fixed codes

  const FIXEDSTREAM: seq<Byte> := [75, 60, 129, 128, 0]

  /** The literals 97 and 200, a match of length 10 and distance 2, and the end of the block. */
  function FixedFields(): Fields {
    Ahead(3, 3, Ahead(137, 8, Ahead(39, 9, Ahead(8, 7, Ahead(16, 5, Ahead(0, 7, Ahead(0, 1, End)))))))
  }

  lemma FixedNumber()
    ensures Fitting(FixedFields()) && Bits(FixedFields()) == 40 && Number(FixedFields()) == 0x80813c4b
  {
    NoFields();
    hide Number, Bits, Fitting, Up, Ahead;
  }

  lemma FixedValue()
    ensures |FIXEDSTREAM| == 5 && Value(FIXEDSTREAM) == 0x80813c4b
  {
    hide Value;
    assert FIXEDSTREAM[0..] == FIXEDSTREAM && FIXEDSTREAM[5..] == [];
    FourBytes(FIXEDSTREAM, 0);
    KnownStream.FirstByte(FIXEDSTREAM, 4);
    NoValue();
  }

  lemma FixedReversals()
    ensures Rev(145, 8) == 137 && Rev(456, 9) == 39 && Rev(8, 7) == 8 && Rev(0, 7) == 0 && Rev(1, 5) == 16
  {
    hide Rev, Pow2;
    ShortReversals();
    HighPowers();
    FixedPowers();
    RevFirst(9, 4);
    RevFirst(18, 5);
    RevFirst(36, 6);
    RevFirst(72, 7);
    RevFirst(145, 8);
    RevFirst(14, 4);
    RevFirst(28, 5);
    RevFirst(57, 6);
    RevFirst(114, 7);
    RevFirst(228, 8);
    RevFirst(456, 9);
    RevFirst(1, 4);
    RevFirst(2, 5);
    RevFirst(4, 6);
    RevFirst(8, 7);
    RevFirst(0, 3);
    RevFirst(0, 4);
    RevFirst(0, 5);
    RevFirst(0, 6);
    RevFirst(0, 7);
    RevFirst(1, 5);
  }

  lemma FixedPowers()
    ensures Pow2(2) == 4 && Pow2(8) == 256
  {
  }

  lemma MakeCoded(lens: seq<int>, s: nat, k: nat, v: int, code: int)
    requires s < |lens| && lens[s] == k && 1 <= k <= 15 && |Cnt(lens)| == 16
    requires Code(lens, Cnt(lens), s) == code >= 0 && Rev(code, k) == v
    ensures Coded(lens, s, k, v)
  {
    hide Code, Cnt, Rev;
  }

  lemma FixedSizes()
    ensures |FixedLit()| == 288 && |FixedDist()| == 32 && |Cnt(FixedLit())| == 16 && |Cnt(FixedDist())| == 16
    ensures FIXED == Pair(FixedLit(), FixedDist())
  {
    hide Count;
  }

  lemma LitCoded(lens: seq<int>)
    requires lens == FixedLit()
    ensures Coded(lens, 97, 8, 137) && Coded(lens, 200, 9, 39) && Coded(lens, 264, 7, 8) && Coded(lens, 256, 7, 0)
    ensures Usable(Lens, lens)
  {
    hide *;
    FixedReversals();
    FixedSizes();
    FixedLitUsable();
    FixedCode(97);
    FixedCode(200);
    FixedCode(264);
    FixedCode(256);
    MakeCoded(lens, 97, 8, 137, 145);
    MakeCoded(lens, 200, 9, 39, 456);
    MakeCoded(lens, 264, 7, 8, 8);
    MakeCoded(lens, 256, 7, 0, 0);
  }

  lemma DistCoded(lens: seq<int>)
    requires lens == FixedDist()
    ensures Coded(lens, 1, 5, 16) && Usable(Dists, lens)
  {
    hide *;
    FixedReversals();
    FixedSizes();
    FixedDistUsable();
    FixedDistance(1);
    MakeCoded(lens, 1, 5, 16, 1);
  }

  /** A length and a distance without extra bits. */
  lemma PlainPair(inp: seq<Byte>, c: Pair, out: seq<Byte>, rest: Fields)
    requires Stands(inp, Len(c), out, Ahead(8, 7, Ahead(16, 5, rest))) && |out| >= 2
    requires Usable(Lens, c.lit) && Usable(Dists, c.dist) && Coded(c.lit, 264, 7, 8) && Coded(c.dist, 1, 5, 16)
    ensures Stands(inp, Match(c, 10, 2), out, rest)
  {
    hide *;
    SymbolRead1(inp, c, 264, 7, 8, out, Ahead(16, 5, rest));
    PlainStates(c, 10);
    var m := Standing(inp, LenExt(c, 10, 0), out, Ahead(16, 5, rest));
    LowZero(Rest(inp, m));
    LenExtStep(Rest(inp, m), Left(inp, m), m.c, c, 10, 0, 0);
    SteppedFree(inp, m, Ahead(16, 5, rest), Dist(c, 10), out);
    m := Found1(inp, Dist(c, 10), out, 16, 5, rest);
    CodeFound(Dists, c.dist, 1, 5, 16, Rest(inp, m), Left(inp, m));
    CodedAt(c.dist, 1, 5, 16);
    DistStep(Rest(inp, m), Left(inp, m), m.c, c, 10, 1);
    Stepped(inp, m, [Piece(16, 5)], rest, DistExt(c, 10, 2, 0), out);
    m := Standing(inp, DistExt(c, 10, 2, 0), out, rest);
    LowZero(Rest(inp, m));
    DistExtStep(Rest(inp, m), Left(inp, m), m.c, c, 10, 2, 0, 0);
    SteppedFree(inp, m, rest, Match(c, 10, 2), out);
  }

  lemma PlainStates(c: Pair, length: nat)
    ensures AfterLen(c, 264) == LenExt(c, 10, 0) && AfterDist(c, length, 1) == DistExt(c, length, 2, 0)
  {
    hide LBASE, LEXT, DBASE, DEXT;
    LengthTable(7);
    DistanceTable(1);
  }

  lemma TenCopied(inp: seq<Byte>, c: Pair, rest: Fields)
    requires Stands(inp, Match(c, 10, 2), [97, 200], rest)
    ensures Stands(inp, Len(c), [97, 200, 97, 200, 97, 200, 97, 200, 97, 200, 97, 200], rest)
  {
    hide *;
    var o1, o2, o3 := [97, 200, 97], [97, 200, 97, 200], [97, 200, 97, 200, 97];
    ByteCopied(inp, c, 10, 2, [97, 200], 97, o1, rest);
    ByteCopied(inp, c, 9, 2, o1, 200, o2, rest);
    ByteCopied(inp, c, 8, 2, o2, 97, o3, rest);
    ByteCopied(inp, c, 7, 2, o3, 200, o3 + [200], rest);
    ByteCopied(inp, c, 6, 2, o3 + [200], 97, o3 + [200, 97], rest);
    ByteCopied(inp, c, 5, 2, o3 + [200, 97], 200, o3 + [200, 97, 200], rest);
    ByteCopied(inp, c, 4, 2, o3 + [200, 97, 200], 97, o3 + [200, 97, 200, 97], rest);
    ByteCopied(inp, c, 3, 2, o3 + [200, 97, 200, 97], 200, o3 + [200, 97, 200, 97, 200], rest);
    ByteCopied(inp, c, 2, 2, o3 + [200, 97, 200, 97, 200], 97, o3 + [200, 97, 200, 97, 200, 97], rest);
    ByteCopied(inp, c, 1, 2, o3 + [200, 97, 200, 97, 200, 97], 200, o3 + [200, 97, 200, 97, 200, 97, 200], rest);
    assert o3 + [200, 97, 200, 97, 200, 97, 200] == [97, 200, 97, 200, 97, 200, 97, 200, 97, 200, 97, 200];
  }

  /** Literals of eight and nine bits, and a match. */
  lemma KnownFixed() returns (m: Machine)
    ensures Reaches(FIXEDSTREAM, m) && m.pos == 40
    ensures m.c == Config(Done, true, [97, 200, 97, 200, 97, 200, 97, 200, 97, 200, 97, 200])
  {
    hide *;
    FixedNumber();
    FixedValue();
    NumberIs(FixedFields());
    StartAt(FIXEDSTREAM, AsPieces(FixedFields()));
    StartIs();
    FixedFieldsAre();
    var f6 := Ahead(0, 1, End);
    var f5 := Ahead(0, 7, f6);
    var f3 := Ahead(8, 7, Ahead(16, 5, f5));
    var f2 := Ahead(39, 9, f3);
    var f1 := Ahead(137, 8, f2);
    ReadType(FIXEDSTREAM, START, 1, true, AsPieces(f1));
    Stood(FIXEDSTREAM, Machine(Config(Len(FIXED), true, []), 3), f1);
    FixedSizes();
    LitCoded(FIXED.lit);
    DistCoded(FIXED.dist);
    LiteralRead(FIXEDSTREAM, FIXED, 97, 8, 137, [], [97], f2);
    LiteralRead(FIXEDSTREAM, FIXED, 200, 9, 39, [97], [97, 200], f3);
    PlainPair(FIXEDSTREAM, FIXED, [97, 200], f5);
    TenCopied(FIXEDSTREAM, FIXED, f5);
    var out := [97, 200, 97, 200, 97, 200, 97, 200, 97, 200, 97, 200];
    SymbolRead1(FIXEDSTREAM, FIXED, 256, 7, 0, out, f6);
    EndOfBlock(FIXED);
    m := EndRead(FIXEDSTREAM, out);
  }

  lemma FixedFieldsAre()
    ensures
      FixedFields()
      == Ahead(3, 3, Ahead(137, 8, Ahead(39, 9, Ahead(8, 7, Ahead(16, 5, Ahead(0, 7, Ahead(0, 1, End)))))))
  {
    hide Ahead;
  }
}
