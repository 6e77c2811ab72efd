/**
 A dynamic block of another encoder, spelled out byte for byte, with what the decoder makes of it.
 Code lengths 7 and 8 have codes of different lengths in it.
 */
module KnownStream {
  import opened Arith
  import opened Canonical
  import opened BitOrder
  import opened DecodeTable
  import opened SymbolSort
  import opened InflateSpec
  import opened InflateRuns
  import opened FixedCodes
  import opened BitWriter
  import opened RunLengths
  import opened BlockPieces
  import opened ReadBack
  import opened HeaderBack
  import opened Blocks
  import opened FormatTables

  // ----- a stream as fields

  /** Fields of so many bits, one after the other. */
  datatype Fields = End | Field(value: int, len: nat, rest: Fields)

  function AsPieces(f: Fields): (ps: seq<Piece>) {
    match f
    case End => []
    case Field(v, k, rest) => [Piece(v, k)] + AsPieces(rest)
  }

  /** n followed by k zero bits, written out up to eight. */
  function Shifted(n: int, k: nat): int {
    match k
    case 0 => n
    case 1 => 2 * n
    case 2 => 4 * n
    case 3 => 8 * n
    case 4 => 16 * n
    case 5 => 32 * n
    case 6 => 64 * n
    case 7 => 128 * n
    case 8 => 256 * n
    case 9 => 512 * n
    case 16 => 0x1_0000 * n
    case _ => Up(n, k)
  }

  function Number(f: Fields): int {
    match f
    case End => 0
    case Field(v, k, rest) => v + Shifted(Number(rest), k)
  }

  function Bits(f: Fields): nat {
    match f
    case End => 0
    case Field(_, k, rest) => k + Bits(rest)
  }

  predicate Fitting(f: Fields) {
    match f
    case End => true
    case Field(v, k, rest) => 0 <= v < Shifted(1, k) && Fitting(rest)
  }

  /** One field before others. */
  function Ahead(v: int, k: nat, rest: Fields): (f: Fields)
    ensures f == Field(v, k, rest) && Number(f) == v + Shifted(Number(rest), k) && Bits(f) == k + Bits(rest)
    ensures Fitting(f) == (0 <= v < Shifted(1, k) && Fitting(rest)) && AsPieces(f) == [Piece(v, k)] + AsPieces(rest)
  {
    Field(v, k, rest)
  }

  lemma ShiftedIsUp(n: int, k: nat)
    ensures Shifted(n, k) == Up(n, k)
  {
    assert Up(n, 1) == 2 * n;
    assert Up(n, 3) == 8 * n;
    assert Up(n, 5) == 32 * n;
    assert Up(n, 7) == 128 * n;
    assert Up(n, 9) == 512 * n;
    assert Up(n, 11) == 2048 * n;
    assert Up(n, 13) == 8192 * n;
    assert Up(n, 15) == 32768 * n;
  }

  lemma {:induction false} NumberIs(f: Fields)
    requires Fitting(f)
    ensures AllSmall(AsPieces(f)) && Num(AsPieces(f)) == Number(f) && Width(AsPieces(f)) == Bits(f)
  {
    match f
    case End =>
    case Field(v, k, rest) =>
      NumberIs(rest);
      ShiftedIsUp(Number(rest), k);
      ShiftedIsUp(1, k);
      UpOne(k);
      assert AsPieces(f)[1..] == AsPieces(rest);
  }

  // ----- the stream

  const STREAM: seq<Byte> := [
    77, 196, 49, 129, 131, 97, 20, 4, 33, 173, 108, 238, 190, 223, 191, 131, 215, 14, 5, 246, 251, 251, 127, 95, 63]

  /** The block is the last and has its own codes; 266 and 5 lengths, 18 of the code length code. */
  function Header(rest: Fields): Fields {
    Ahead(5, 3, Ahead(9, 5, Ahead(4, 5, Ahead(14, 4, rest))))
  }

  /** The lengths of 16, 17, 18, 0, 8, 7, 9, 6 and 10. */
  function FirstCodeLengths(rest: Fields): Fields {
    Ahead(0, 3, Ahead(3, 3, Ahead(2, 3,
                                  Ahead(0, 3, Ahead(4, 3, Ahead(3, 3, Ahead(0, 3, Ahead(6, 3, Ahead(0, 3, rest)))))))))
  }

  /** The lengths of 5, 11, 4, 12, 3, 13, 2, 14 and 1. */
  function MoreCodeLengths(rest: Fields): Fields {
    Ahead(6, 3, Ahead(0, 3, Ahead(5, 3,
                                  Ahead(0, 3, Ahead(4, 3, Ahead(0, 3, Ahead(4, 3, Ahead(0, 3, Ahead(2, 3, rest)))))))))
  }

  /** 97 zeros, and 1, 3, 7, 8, 8, 5, 6. */
  function FirstLengths(rest: Fields): Fields {
    Ahead(2, 2, Ahead(86, 7, Ahead(0, 2,
                                   Ahead(11, 4, Ahead(1, 3, Ahead(7, 4,
                                                                  Ahead(7, 4, Ahead(31, 6, Ahead(63, 6, rest)))))))))
  }

  /** 152 zeros in two runs, 4, eight zeros, 2. */
  function LaterLengths(rest: Fields): Fields {
    Ahead(2, 2, Ahead(127, 7, Ahead(2, 2, Ahead(3, 7, Ahead(15, 5, Ahead(5, 3, Ahead(5, 3, Ahead(3, 4, rest))))))))
  }

  /** 1, three zeros, 1. */
  function DistanceLengths(rest: Fields): Fields {
    Ahead(0, 2, Ahead(5, 3, Ahead(0, 3, Ahead(0, 2, rest))))
  }

  /** The literals of abcdefg. */
  function Letters(rest: Fields): Fields {
    Ahead(0, 1, Ahead(3, 3, Ahead(63, 7, Ahead(127, 8, Ahead(255, 8, Ahead(15, 5, Ahead(31, 6, rest)))))))
  }

  /** A match of length 12 and distance 6. */
  function Copied(rest: Fields): Fields {
    Ahead(1, 2, Ahead(1, 1, Ahead(1, 1, Ahead(1, 1, rest))))
  }

  /** The end of the block, and a bit to fill the last byte. */
  function Ending(rest: Fields): Fields {
    Ahead(7, 4, Ahead(0, 1, rest))
  }

  function Fielded(rest: Fields): Fields {
    var text := Letters(Copied(Ending(rest)));
    Header(FirstCodeLengths(MoreCodeLengths(FirstLengths(LaterLengths(DistanceLengths(text))))))
  }

  lemma HeaderIs(rest: Fields)
    ensures var f := Header(rest);
            Fitting(f) == Fitting(rest) && Bits(f) == 17 + Bits(rest) && Number(f) == 0x1c44d + 0x20000 * Number(rest)
  {
    hide Number, Bits, Fitting, Up, Ahead;
  }

  lemma FirstCodeLengthsIs(rest: Fields)
    ensures var f := FirstCodeLengths(rest);
            Fitting(f) == Fitting(rest) && Bits(f) == 27 + Bits(rest)
            && Number(f) == 0xc1c098 + 0x8000000 * Number(rest)
  {
    hide Number, Bits, Fitting, Up, Ahead;
  }

  lemma MoreCodeLengthsIs(rest: Fields)
    ensures var f := MoreCodeLengths(rest);
            Fitting(f) == Fitting(rest) && Bits(f) == 27 + Bits(rest)
            && Number(f) == 0x2104146 + 0x8000000 * Number(rest)
  {
    hide Number, Bits, Fitting, Up, Ahead;
  }

  lemma FirstLengthsIs(rest: Fields)
    ensures var f := FirstLengths(rest);
            Fitting(f) == Fitting(rest) && Bits(f) == 38 + Bits(rest)
            && Number(f) == 0x3f7ddcd95a + 0x4000000000 * Number(rest)
  {
    hide Number, Bits, Fitting, Up, Ahead;
  }

  lemma LaterLengthsIs(rest: Fields)
    ensures var f := LaterLengths(rest);
            Fitting(f) == Fitting(rest) && Bits(f) == 33 + Bits(rest)
            && Number(f) == 0x76bc1dfe + 0x200000000 * Number(rest)
  {
    hide Number, Bits, Fitting, Up, Ahead;
  }

  lemma DistanceLengthsIs(rest: Fields)
    ensures var f := DistanceLengths(rest);
            Fitting(f) == Fitting(rest) && Bits(f) == 10 + Bits(rest) && Number(f) == 0x14 + 0x400 * Number(rest)
  {
    hide Number, Bits, Fitting, Up, Ahead;
  }

  lemma LettersIs(rest: Fields)
    ensures var f := Letters(rest);
            Fitting(f) == Fitting(rest) && Bits(f) == 38 + Bits(rest)
            && Number(f) == 0x1f7ffbfbf6 + 0x4000000000 * Number(rest)
  {
    hide Number, Bits, Fitting, Up, Ahead;
  }

  lemma CopiedIs(rest: Fields)
    ensures var f := Copied(rest);
            Fitting(f) == Fitting(rest) && Bits(f) == 5 + Bits(rest) && Number(f) == 0x1d + 0x20 * Number(rest)
  {
    hide Number, Bits, Fitting, Up, Ahead;
  }

  lemma EndingIs(rest: Fields)
    ensures var f := Ending(rest);
            Fitting(f) == Fitting(rest) && Bits(f) == 5 + Bits(rest) && Number(f) == 0x7 + 0x20 * Number(rest)
  {
    hide Number, Bits, Fitting, Up, Ahead;
  }

  lemma FieldedIs(rest: Fields)
    ensures var f := Fielded(rest);
            Fitting(f) == Fitting(rest) && Bits(f) == 200 + Bits(rest)
            && Number(f) == 0x3f5f7ffbfbf6050ed783bfdfbeee6cad21041461838131c44d
            + 0x100000000000000000000000000000000000000000000000000 * Number(rest)
  {
    hide Number, Bits, Fitting, Header, FirstCodeLengths, MoreCodeLengths, FirstLengths, LaterLengths, DistanceLengths,
         Letters, Copied, Ending;
    EndingIs(rest);
    var f1 := Ending(rest);
    CopiedIs(f1);
    var f2 := Copied(f1);
    LettersIs(f2);
    var f3 := Letters(f2);
    DistanceLengthsIs(f3);
    var f4 := DistanceLengths(f3);
    LaterLengthsIs(f4);
    var f5 := LaterLengths(f4);
    FirstLengthsIs(f5);
    var f6 := FirstLengths(f5);
    MoreCodeLengthsIs(f6);
    var f7 := MoreCodeLengths(f6);
    FirstCodeLengthsIs(f7);
    var f8 := FirstCodeLengths(f7);
    HeaderIs(f8);
  }

  // ----- the stream as bytes

  lemma FirstByte(s: seq<Byte>, i: nat)
    requires i < |s|
    ensures Value(s[i..]) == s[i] + 256 * Value(s[i + 1..])
  {
    assert s[i..] == [s[i]] + s[i + 1..];
    ValueCons(s[i], s[i + 1..]);
    EightUp(Value(s[i + 1..]));
  }

  lemma FourBytes(s: seq<Byte>, i: nat)
    requires i + 4 <= |s|
    ensures Value(s[i..]) == s[i] + 0x100 * s[i + 1] + 0x10000 * s[i + 2] + 0x1000000 * s[i + 3]
                             + 0x100000000 * Value(s[i + 4..])
  {
    hide Value;
    FirstByte(s, i);
    FirstByte(s, i + 1);
    FirstByte(s, i + 2);
    FirstByte(s, i + 3);
  }

  lemma EarlyBytes()
    ensures |STREAM| == 25
    ensures STREAM[0] == 77 && STREAM[1] == 196 && STREAM[2] == 49 && STREAM[3] == 129 && STREAM[4] == 131
            && STREAM[5] == 97
    ensures STREAM[6] == 20 && STREAM[7] == 4 && STREAM[8] == 33 && STREAM[9] == 173 && STREAM[10] == 108
            && STREAM[11] == 238
  {
  }

  lemma StreamValue()
    ensures |STREAM| == 25 && Value(STREAM) == 0x3f5f7ffbfbf6050ed783bfdfbeee6cad21041461838131c44d
  {
    hide *;
    EarlyBytes();
    assert STREAM[0..] == STREAM;
    FourBytes(STREAM, 0);
    FourBytes(STREAM, 4);
    FourBytes(STREAM, 8);
    LaterValue();
  }

  lemma LaterValue()
    ensures |STREAM| == 25 && Value(STREAM[12..]) == 0x3f5f7ffbfbf6050ed783bfdfbe
  {
    hide Value;
    assert STREAM[25..] == [];
    FourBytes(STREAM, 12);
    FourBytes(STREAM, 16);
    FourBytes(STREAM, 20);
    FirstByte(STREAM, 24);
    NoValue();
  }

  lemma NoValue()
    ensures Value([]) == 0
  {
  }

  /** The fields are the stream. */
  lemma StreamAt()
    ensures At(STREAM, START, AsPieces(Fielded(End)))
  {
    hide *;
    NoFields();
    FieldedIs(End);
    NumberIs(Fielded(End));
    StreamValue();
    StartAt(STREAM, AsPieces(Fielded(End)));
  }

  lemma NoFields()
    ensures Fitting(End) && Bits(End) == 0 && Number(End) == 0
  {
  }

  // ----- lengths, most of them zero

  /** Code lengths from the first on: each after so many zeros. */
  datatype Spots = Nowhere | Spot(before: Spots, gap: nat, len: CodeLength)

  type CodeLength = l: nat | 1 <= l <= MAXBITS witness 1

  function Spread(s: Spots): seq<int> {
    match s
    case Nowhere => []
    case Spot(before, gap, len) => Spread(before) + Repeat(0, gap) + [len]
  }

  /** How many of each length from 0 to 15. */
  function Tally(s: Spots): (t: seq<nat>)
    ensures |t| == MAXBITS + 1
  {
    match s
    case Nowhere => seq(MAXBITS + 1, b => 0)
    case Spot(before, gap, len) =>
      var t := Tally(before);
      t[0 := t[0] + gap][len := t[len] + 1]
  }

  function Place(s: Spots): nat {
    match s
    case Nowhere => 0
    case Spot(before, gap, _) => Place(before) + gap + 1
  }

  /** One length more. */
  function Cell(before: Spots, gap: nat, len: CodeLength): (s: Spots)
    ensures s == Spot(before, gap, len) && Spread(s) == Spread(before) + Repeat(0, gap) + [len]
    ensures var t := Tally(before); Tally(s) == t[0 := t[0] + gap][len := t[len] + 1]
    ensures Place(s) == Place(before) + gap + 1
  {
    Spot(before, gap, len)
  }

  lemma {:induction false} PlaceIs(s: Spots)
    ensures |Spread(s)| == Place(s)
  {
    match s
    case Nowhere =>
    case Spot(before, gap, len) =>
      PlaceIs(before);
  }

  lemma {:induction false} RepeatCount(n: nat, x: int)
    ensures Count(Repeat(0, n), x) == if x == 0 then n else 0
  {
    if n > 0 {
      RepeatCount(n - 1, x);
      assert Repeat(0, n) == Repeat(0, n - 1) + [0];
      CountSnoc(Repeat(0, n - 1), 0, x);
    }
  }

  lemma {:induction false} TallyIs(s: Spots, x: nat)
    requires x <= MAXBITS
    ensures Count(Spread(s), x) == Tally(s)[x]
  {
    match s
    case Nowhere =>
    case Spot(before, gap, len) =>
      TallyIs(before, x);
      hide Count;
      CountSnoc(Spread(before) + Repeat(0, gap), len, x);
      CountAppend(Spread(before), Repeat(0, gap), x);
      RepeatCount(gap, x);
  }

  lemma TallyCounts(s: Spots)
    ensures Cnt(Spread(s)) == Tally(s)
  {
    hide Count, Spread, Tally;
    forall x: nat | x <= MAXBITS
      ensures Cnt(Spread(s))[x] == Tally(s)[x]
    {
      TallyIs(s, x);
    }
  }

  /** Symbol s has the code whose bits, first bit lowest, are v. */
  ghost predicate Coded(lens: seq<int>, s: nat, k: nat, v: int) {
    && s < |lens| && lens[s] == k && 1 <= k <= MAXBITS
    && Code(lens, Cnt(lens), s) >= 0 && Rev(Code(lens, Cnt(lens), s), k) == v
  }

  /** The code of the symbol of a cell. */
  lemma CellCoded(lens: seq<int>, cnt: seq<int>, before: Spots, gap: nat, len: CodeLength, first: nat, v: int)
    requires Spread(Cell(before, gap, len)) <= lens && Cnt(lens) == cnt
    requires FirstCode(cnt, len) == first && Rev(first + Tally(before)[len], len) == v
    ensures Coded(lens, Place(before) + gap, len, v) && Spread(before) <= lens
  {
    hide FirstCode, Rev, Count, Tally, Spread, Cnt;
    var s := Place(before) + gap;
    PlaceIs(before);
    assert lens[s] == len && lens[..s] == Spread(before) + Repeat(0, gap);
    CountAppend(Spread(before), Repeat(0, gap), len);
    RepeatCount(gap, len);
    TallyIs(before, len);
  }

  // ----- the steps of the decoder

  /** The decoder has come to a state in the last block, with so much output and the fields ahead. */
  ghost predicate Stands(inp: seq<Byte>, st: State, out: seq<Byte>, f: Fields) {
    exists m: Machine :: m.c == Config(st, true, out) && At(inp, m, AsPieces(f))
  }

  lemma Stood(inp: seq<Byte>, m: Machine, f: Fields)
    requires m.c.last && At(inp, m, AsPieces(f))
    ensures Stands(inp, m.c.st, m.c.out, f)
  {
    hide At;
    assert m.c == Config(m.c.st, true, m.c.out);
  }

  /** A step over the first k bits. */
  lemma Stepped(inp: seq<Byte>, m: Machine, ps: seq<Piece>, f: Fields, st: State, out: seq<Byte>)
    requires m.c.last && At(inp, m, ps + AsPieces(f)) && Left(inp, m) >= 0
    requires StepAt(Rest(inp, m), Left(inp, m), m.c) == Move(Width(ps), Config(st, true, out))
    ensures Stands(inp, st, out, f)
  {
    hide *;
    Advance(inp, m, ps, AsPieces(f), Config(st, true, out));
    Stood(inp, Machine(Config(st, true, out), m.pos + Width(ps)), f);
  }

  lemma SteppedFree(inp: seq<Byte>, m: Machine, f: Fields, st: State, out: seq<Byte>)
    requires m.c.last && At(inp, m, AsPieces(f)) && Left(inp, m) >= 0
    requires StepAt(Rest(inp, m), Left(inp, m), m.c) == Move(0, Config(st, true, out))
    ensures Stands(inp, st, out, f)
  {
    hide *;
    Advance0(inp, m, AsPieces(f), Config(st, true, out));
    Stood(inp, Machine(Config(st, true, out), m.pos), f);
  }

  /** What a step finds: k bits with the value v. */
  lemma Found1(inp: seq<Byte>, st: State, out: seq<Byte>, v: int, k: nat, rest: Fields) returns (m: Machine)
    requires Stands(inp, st, out, Ahead(v, k, rest))
    ensures m.c == Config(st, true, out) && At(inp, m, [Piece(v, k)] + AsPieces(rest))
    ensures k <= Left(inp, m) && Low(Rest(inp, m), k) == v && Width([Piece(v, k)]) == k
    ensures Carries(Rest(inp, m), Left(inp, m), [Piece(v, k)] + AsPieces(rest))
  {
    hide *;
    m := Standing(inp, st, out, Ahead(v, k, rest));
    AtParts(inp, m, [Piece(v, k)] + AsPieces(rest));
    HeadPiece(Rest(inp, m), Left(inp, m), Piece(v, k), AsPieces(rest));
  }

  lemma Standing(inp: seq<Byte>, st: State, out: seq<Byte>, f: Fields) returns (m: Machine)
    requires Stands(inp, st, out, f)
    ensures m.c == Config(st, true, out) && At(inp, m, AsPieces(f))
    ensures Left(inp, m) >= 0
  {
    hide At;
    m :| m.c == Config(st, true, out) && At(inp, m, AsPieces(f));
    AtParts(inp, m, AsPieces(f));
  }

  lemma CodeFound(kind: CodeType, lens: seq<int>, s: nat, k: nat, v: int, x: int, n: nat)
    requires Usable(kind, lens) && Coded(lens, s, k, v) && x >= 0 && k <= n && Low(x, k) == v
    ensures SymbolAt(lens, x, n) == Found(s)
  {
    hide Usable, Rev, Low, SymbolAt, Pow2, Code, Cnt;
    CodeFits(kind, lens, s);
    LowRev(x, k, Code(lens, Cnt(lens), s));
    assert Complete(lens, x, n, s);
    SymbolFound(kind, lens, x, n, s);
  }

  /** A length of the code length code. */
  lemma ThreeBits(inp: seq<Byte>, nl: nat, nd: nat, nc: nat, read: seq<int>, v: int, more: seq<int>, rest: Fields)
    requires Stands(inp, LenLens(nl, nd, nc, read), [], Ahead(v, 3, rest)) && |read| < nc && more == read + [v]
    ensures Stands(inp, LenLens(nl, nd, nc, more), [], rest)
  {
    hide *;
    var m := Found1(inp, LenLens(nl, nd, nc, read), [], v, 3, rest);
    BlStep(Rest(inp, m), Left(inp, m), m.c, nl, nd, nc, read, v);
    Stepped(inp, m, [Piece(v, 3)], rest, LenLens(nl, nd, nc, read + [v]), []);
  }

  /** A code length. */
  lemma LengthRead(inp: seq<Byte>, nl: nat, nd: nat, code: seq<int>, before: Spots, gap: nat, k: nat, v: int,
                   len: CodeLength,
                   rest: Fields)
    requires Stands(inp, CodeLens(nl, nd, code, Spread(before) + Repeat(0, gap)), [], Ahead(v, k, rest))
    requires Place(before) + gap < nl + nd && Usable(Codes, code) && Coded(code, len, k, v)
    ensures Stands(inp, CodeLens(nl, nd, code, Spread(Cell(before, gap, len))), [], rest)
  {
    hide *;
    var lens := Spread(before) + Repeat(0, gap);
    var m := Found1(inp, CodeLens(nl, nd, code, lens), [], v, k, rest);
    CodeFound(Codes, code, len, k, v, Rest(inp, m), Left(inp, m));
    PlaceIs(before);
    RepeatSize(gap);
    CodedAt(code, len, k, v);
    PlainRun(lens, len);
    RunStep(Rest(inp, m), Left(inp, m), m.c, Run(len, 0), k, 0);
    Stepped(inp, m, [Piece(v, k)], rest, CodeLens(nl, nd, code, lens + [len]), []);
  }

  lemma PlainRun(lens: seq<int>, len: nat)
    requires len <= MAXBITS
    ensures len < 16 && Apply(lens, Run(len, 0)) == lens + [len]
  {
  }

  lemma CodedAt(lens: seq<int>, s: nat, k: nat, v: int)
    requires Coded(lens, s, k, v)
    ensures s < |lens| && lens[s] == k && 1 <= k
  {
  }

  lemma RepeatSize(n: nat)
    ensures |Repeat(0, n)| == n
  {
  }

  lemma RepeatSum(a: nat, b: nat)
    ensures Repeat(0, a) + Repeat(0, b) == Repeat(0, a + b)
  {
  }

  /** A run of zeros: symbol 17 or 18. */
  lemma ZerosRead(inp: seq<Byte>, nl: nat, nd: nat, code: seq<int>, before: Spots, gap: nat, s: nat, k: nat, v: int,
                  e: int, x: nat, count: nat, rest: Fields)
    requires Stands(inp, CodeLens(nl, nd, code, Spread(before) + Repeat(0, gap)), [], Ahead(v, k, Ahead(e, x, rest)))
    requires Usable(Codes, code) && Coded(code, s, k, v) && (if s == 17 then x == 3 else s == 18 && x == 7)
    requires count == (if s == 17 then 3 else 11) + e && Place(before) + gap + count <= nl + nd && count > 0
    ensures Stands(inp, CodeLens(nl, nd, code, Spread(before) + Repeat(0, gap + count)), [], rest)
  {
    hide *;
    var lens := Spread(before) + Repeat(0, gap);
    var m := Found1(inp, CodeLens(nl, nd, code, lens), [], v, k, Ahead(e, x, rest));
    CodeFound(Codes, code, s, k, v, Rest(inp, m), Left(inp, m));
    PlaceIs(before);
    RepeatSize(gap);
    CodedAt(code, s, k, v);
    RunBitsAre();
    var p, q := Piece(v, k), Piece(e, x);
    HeadPiece(Rest(inp, m), Left(inp, m), p, [q] + AsPieces(rest));
    HeadPiece(Shr(Rest(inp, m), k), Left(inp, m) - k, q, AsPieces(rest));
    ZeroRun(lens, s, e, count);
    RepeatSize(count);
    RepeatSum(gap, count);
    assert lens + Repeat(0, count) == Spread(before) + (Repeat(0, gap) + Repeat(0, count));
    RunStep(Rest(inp, m), Left(inp, m), m.c, Run(s, e), k, e);
    assert [p] + ([q] + AsPieces(rest)) == [p, q] + AsPieces(rest) && [p] + [q] == [p, q];
    WidthAppend([p], [q]);
    Stepped(inp, m, [p, q], rest, CodeLens(nl, nd, code, lens + Repeat(0, count)), []);
  }

  lemma RunBitsAre()
    ensures RunBits(17) == 3 && RunBits(18) == 7
  {
  }

  lemma ZeroRun(lens: seq<int>, s: nat, e: int, count: nat)
    requires s == 17 || s == 18
    requires count == (if s == 17 then 3 else 11) + e
    ensures Apply(lens, Run(s, e)) == lens + Repeat(0, count)
  {
    hide Repeat;
  }

  /** A literal. */
  lemma LiteralRead(inp: seq<Byte>, c: Pair, b: Byte, k: nat, v: int, out: seq<Byte>, more: seq<Byte>,
                    rest: Fields)
    requires Stands(inp, Len(c), out, Ahead(v, k, rest)) && Usable(Lens, c.lit) && Coded(c.lit, b, k, v)
    requires more == out + [b]
    ensures Stands(inp, Len(c), more, rest)
  {
    hide *;
    SymbolRead1(inp, c, b, k, v, out, rest);
    AfterLiteral(c, b);
    var m := Standing(inp, Lit(c, b), out, rest);
    LitStep(Rest(inp, m), Left(inp, m), m.c, c, b);
    SteppedFree(inp, m, rest, Len(c), out + [b]);
  }

  lemma SymbolRead1(inp: seq<Byte>, c: Pair, s: nat, k: nat, v: int, out: seq<Byte>, rest: Fields)
    requires Stands(inp, Len(c), out, Ahead(v, k, rest)) && Usable(Lens, c.lit) && Coded(c.lit, s, k, v)
    ensures Stands(inp, AfterLen(c, s), out, rest)
  {
    hide *;
    var m := Found1(inp, Len(c), out, v, k, rest);
    CodeFound(Lens, c.lit, s, k, v, Rest(inp, m), Left(inp, m));
    CodedAt(c.lit, s, k, v);
    LenStep(Rest(inp, m), Left(inp, m), m.c, c, s);
    Stepped(inp, m, [Piece(v, k)], rest, AfterLen(c, s), out);
  }

  lemma AfterLiteral(c: Pair, b: Byte)
    ensures AfterLen(c, b) == Lit(c, b)
  {
  }

  lemma LitStep(x: int, n: nat, c: Config, d: Pair, b: Byte)
    requires x >= 0 && c.st == Lit(d, b)
    ensures StepAt(x, n, c) == Move(0, c.(st := Len(d), out := c.out + [b]))
  {
  }

  /** The length symbol 265 with one extra bit, and the distance symbol 4 with one. */
  lemma PairRead(inp: seq<Byte>, c: Pair, k: nat, v: int, e: int, k': nat, v': int, e': int, out: seq<Byte>,
                 rest: Fields)
    requires Stands(inp, Len(c), out, Ahead(v, k, Ahead(e, 1, Ahead(v', k', Ahead(e', 1, rest)))))
    requires Usable(Lens, c.lit) && Usable(Dists, c.dist) && Coded(c.lit, 265, k, v) && Coded(c.dist, 4, k', v')
    requires 0 <= e <= 1 && 0 <= e' <= 1 && 5 + e' <= |out|
    ensures Stands(inp, Match(c, 11 + e, 5 + e'), out, rest)
  {
    hide *;
    SymbolRead1(inp, c, 265, k, v, out, Ahead(e, 1, Ahead(v', k', Ahead(e', 1, rest))));
    PairStates(c, 11 + e);
    var m := Found1(inp, LenExt(c, 11, 1), out, e, 1, Ahead(v', k', Ahead(e', 1, rest)));
    LenExtStep(Rest(inp, m), Left(inp, m), m.c, c, 11, 1, e);
    Stepped(inp, m, [Piece(e, 1)], Ahead(v', k', Ahead(e', 1, rest)), Dist(c, 11 + e), out);
    m := Found1(inp, Dist(c, 11 + e), out, v', k', Ahead(e', 1, rest));
    CodeFound(Dists, c.dist, 4, k', v', Rest(inp, m), Left(inp, m));
    CodedAt(c.dist, 4, k', v');
    DistStep(Rest(inp, m), Left(inp, m), m.c, c, 11 + e, 4);
    Stepped(inp, m, [Piece(v', k')], Ahead(e', 1, rest), DistExt(c, 11 + e, 5, 1), out);
    m := Found1(inp, DistExt(c, 11 + e, 5, 1), out, e', 1, rest);
    DistExtStep(Rest(inp, m), Left(inp, m), m.c, c, 11 + e, 5, 1, e');
    Stepped(inp, m, [Piece(e', 1)], rest, Match(c, 11 + e, 5 + e'), out);
  }

  lemma PairStates(c: Pair, length: nat)
    ensures AfterLen(c, 265) == LenExt(c, 11, 1) && AfterDist(c, length, 4) == DistExt(c, length, 5, 1)
  {
    hide LBASE, LEXT, DBASE, DEXT;
    LengthTable(8);
    DistanceTable(4);
  }

  /** One byte of a match. */
  lemma ByteCopied(inp: seq<Byte>, c: Pair, length: nat, dist: nat, out: seq<Byte>, b: Byte, more: seq<Byte>,
                   rest: Fields)
    requires Stands(inp, Match(c, length, dist), out, rest) && length > 0 && 1 <= dist <= |out|
    requires b == out[|out| - dist] && more == out + [b]
    ensures Stands(inp, if length == 1 then Len(c) else Match(c, length - 1, dist), more, rest)
  {
    hide *;
    var m := Standing(inp, Match(c, length, dist), out, rest);
    CopiedStep(Rest(inp, m), Left(inp, m), m.c, c, length, dist, b);
    SteppedFree(inp, m, rest, if length == 1 then Len(c) else Match(c, length - 1, dist), out + [b]);
  }

  lemma CopiedStep(x: int, n: nat, c: Config, d: Pair, length: nat, dist: nat, b: Byte)
    requires x >= 0 && c.st == Match(d, length, dist) && length > 0 && 1 <= dist <= |c.out|
    requires b == c.out[|c.out| - dist]
    ensures StepAt(x, n, c)
         == Move(0, c.(st := if length == 1 then Len(d) else Match(d, length - 1, dist), out := c.out + [b]))
  {
  }

  // ----- the three codes

  /** The code length code: 1, 18 with two bits, 7 and 17 with three, 2, 3 and 8 with four, 4 with five, 5 and 6. */
  function ShortCode(): Spots {
    Cell(Cell(Cell(Cell(Cell(Nowhere, 1, 2), 0, 4), 0, 4), 0, 5), 0, 6)
  }

  function LengthCode(): Spots {
    Cell(Cell(Cell(Cell(Cell(ShortCode(), 0, 6), 0, 3), 0, 4), 8, 3), 0, 2)
  }

  /** The code of the literals and lengths. */
  function FirstLetters(): Spots {
    Cell(Cell(Cell(Cell(Nowhere, 97, 1), 0, 3), 0, 7), 0, 8)
  }

  function LetterCode(): Spots {
    Cell(Cell(Cell(Cell(Cell(FirstLetters(), 0, 8), 0, 5), 0, 6), 152, 4), 8, 2)
  }

  /** The code of the distances. */
  function DistanceCode(): Spots {
    Cell(Cell(Nowhere, 0, 1), 3, 1)
  }

  lemma TallyNone()
    ensures Tally(Nowhere) == [0, 0, 0, 0, 0, 0, 0, 0, 0, 0, 0, 0, 0, 0, 0, 0] && Place(Nowhere) == 0
  {
  }

  lemma ShortCodeTally()
    ensures Tally(ShortCode()) == [1, 0, 1, 0, 2, 1, 1, 0, 0, 0, 0, 0, 0, 0, 0, 0] && Place(ShortCode()) == 6
  {
    hide Tally, Place, Cell;
    TallyNone();
  }

  lemma LengthCodeTally()
    ensures Tally(LengthCode()) == [9, 0, 2, 2, 3, 1, 2, 0, 0, 0, 0, 0, 0, 0, 0, 0] && Place(LengthCode()) == 19
  {
    hide Tally, Place, Cell, ShortCode;
    ShortCodeTally();
  }

  lemma FirstLettersTally()
    ensures Tally(FirstLetters()) == [97, 1, 0, 1, 0, 0, 0, 1, 1, 0, 0, 0, 0, 0, 0, 0] && Place(FirstLetters()) == 101
  {
    hide Tally, Place, Cell;
    TallyNone();
  }

  lemma LetterCodeTally()
    ensures Tally(LetterCode()) == [257, 1, 1, 1, 1, 1, 1, 1, 2, 0, 0, 0, 0, 0, 0, 0] && Place(LetterCode()) == 266
  {
    hide Tally, Place, Cell, FirstLetters;
    FirstLettersTally();
  }

  lemma DistanceCodeTally()
    ensures Tally(DistanceCode()) == [3, 2, 0, 0, 0, 0, 0, 0, 0, 0, 0, 0, 0, 0, 0, 0] && Place(DistanceCode()) == 5
  {
    hide Tally, Place, Cell;
    TallyNone();
  }

  lemma LengthUsed(cnt: seq<int>)
    requires cnt == [9, 0, 2, 2, 3, 1, 2, 0, 0, 0, 0, 0, 0, 0, 0, 0]
    ensures Used(cnt, 0) == 0 && Used(cnt, 1) == 0 && Used(cnt, 2) == 2 && Used(cnt, 3) == 6 && Used(cnt, 4) == 15
            && Used(cnt, 5) == 31 && Used(cnt, 6) == 64
  {
  }

  lemma LengthUsable()
    ensures Usable(Codes, Spread(LengthCode()))
            && Cnt(Spread(LengthCode())) == [9, 0, 2, 2, 3, 1, 2, 0, 0, 0, 0, 0, 0, 0, 0, 0]
  {
    hide *;
    TallyCounts(LengthCode());
    LengthCodeTally();
    LengthUsed([9, 0, 2, 2, 3, 1, 2, 0, 0, 0, 0, 0, 0, 0, 0, 0]);
    TopPower();
    Sizes();
    FullAcceptable(Codes, [9, 0, 2, 2, 3, 1, 2, 0, 0, 0, 0, 0, 0, 0, 0, 0], 6);
    SpotsUsable(Codes, LengthCode(), [9, 0, 2, 2, 3, 1, 2, 0, 0, 0, 0, 0, 0, 0, 0, 0]);
  }

  lemma ShortCoded(lens: seq<int>, cnt: seq<int>)
    requires Spread(ShortCode()) <= lens && Cnt(lens) == cnt == [9, 0, 2, 2, 3, 1, 2, 0, 0, 0, 0, 0, 0, 0, 0, 0]
    ensures Coded(lens, 1, 2, 0) && Coded(lens, 2, 4, 3) && Coded(lens, 3, 4, 11)
    ensures Coded(lens, 4, 5, 15) && Coded(lens, 5, 6, 31)
  {
    hide Tally, Place, Cell, Spread, Used, FirstCode, Rev, Cnt, Coded;
    TallyNone();
    LengthFirst(cnt);
    Reversals();
    var s1 := Cell(Nowhere, 1, 2);
    var s2 := Cell(s1, 0, 4);
    var s3 := Cell(s2, 0, 4);
    var s4 := Cell(s3, 0, 5);
    CellCoded(lens, cnt, s4, 0, 6, 62, 31);
    CellCoded(lens, cnt, s3, 0, 5, 30, 15);
    CellCoded(lens, cnt, s2, 0, 4, 12, 11);
    CellCoded(lens, cnt, s1, 0, 4, 12, 3);
    CellCoded(lens, cnt, Nowhere, 1, 2, 0, 0);
  }

  lemma LengthCoded(lens: seq<int>, cnt: seq<int>)
    requires Spread(LengthCode()) <= lens && Cnt(lens) == cnt == [9, 0, 2, 2, 3, 1, 2, 0, 0, 0, 0, 0, 0, 0, 0, 0]
    ensures Coded(lens, 6, 6, 63) && Coded(lens, 7, 3, 1) && Coded(lens, 8, 4, 7)
    ensures Coded(lens, 17, 3, 5) && Coded(lens, 18, 2, 2)
    ensures Spread(ShortCode()) <= lens
  {
    hide Tally, Place, Cell, Spread, Used, FirstCode, Rev, Cnt, Coded, ShortCode;
    ShortCodeTally();
    LengthFirst(cnt);
    Reversals();
    var s1 := Cell(ShortCode(), 0, 6);
    var s2 := Cell(s1, 0, 3);
    var s3 := Cell(s2, 0, 4);
    var s4 := Cell(s3, 8, 3);
    CellCoded(lens, cnt, s4, 0, 2, 0, 2);
    CellCoded(lens, cnt, s3, 8, 3, 4, 5);
    CellCoded(lens, cnt, s2, 0, 4, 12, 7);
    CellCoded(lens, cnt, s1, 0, 3, 4, 1);
    CellCoded(lens, cnt, ShortCode(), 0, 6, 62, 63);
  }

  lemma LengthFirst(cnt: seq<int>)
    requires cnt == [9, 0, 2, 2, 3, 1, 2, 0, 0, 0, 0, 0, 0, 0, 0, 0]
    ensures FirstCode(cnt, 2) == 0 && FirstCode(cnt, 3) == 4 && FirstCode(cnt, 4) == 12 && FirstCode(cnt, 5) == 30
            && FirstCode(cnt, 6) == 62
  {
    hide Used;
    LengthUsed(cnt);
  }

  lemma LetterUsed(cnt: seq<int>)
    requires cnt == [257, 1, 1, 1, 1, 1, 1, 1, 2, 0, 0, 0, 0, 0, 0, 0]
    ensures Used(cnt, 0) == 0 && Used(cnt, 1) == 1 && Used(cnt, 2) == 3 && Used(cnt, 3) == 7 && Used(cnt, 4) == 15
            && Used(cnt, 5) == 31 && Used(cnt, 6) == 63 && Used(cnt, 7) == 127 && Used(cnt, 8) == 256
  {
  }

  lemma LetterUsable()
    ensures Usable(Lens, Spread(LetterCode()))
            && Cnt(Spread(LetterCode())) == [257, 1, 1, 1, 1, 1, 1, 1, 2, 0, 0, 0, 0, 0, 0, 0]
  {
    hide *;
    TallyCounts(LetterCode());
    LetterCodeTally();
    LetterUsed([257, 1, 1, 1, 1, 1, 1, 1, 2, 0, 0, 0, 0, 0, 0, 0]);
    TopPower();
    Sizes();
    FullAcceptable(Lens, [257, 1, 1, 1, 1, 1, 1, 1, 2, 0, 0, 0, 0, 0, 0, 0], 8);
    SpotsUsable(Lens, LetterCode(), [257, 1, 1, 1, 1, 1, 1, 1, 2, 0, 0, 0, 0, 0, 0, 0]);
  }

  lemma FirstLettersCoded(lens: seq<int>, cnt: seq<int>)
    requires Spread(FirstLetters()) <= lens && Cnt(lens) == cnt == [257, 1, 1, 1, 1, 1, 1, 1, 2, 0, 0, 0, 0, 0, 0, 0]
    ensures Coded(lens, 97, 1, 0) && Coded(lens, 98, 3, 3) && Coded(lens, 99, 7, 63)
    ensures Coded(lens, 100, 8, 127)
  {
    hide Tally, Place, Cell, Spread, Used, FirstCode, Rev, Cnt, Coded;
    TallyNone();
    LetterFirst(cnt);
    Reversals();
    var s1 := Cell(Nowhere, 97, 1);
    var s2 := Cell(s1, 0, 3);
    var s3 := Cell(s2, 0, 7);
    CellCoded(lens, cnt, s3, 0, 8, 254, 127);
    CellCoded(lens, cnt, s2, 0, 7, 126, 63);
    CellCoded(lens, cnt, s1, 0, 3, 6, 3);
    CellCoded(lens, cnt, Nowhere, 97, 1, 0, 0);
  }

  lemma LetterCoded(lens: seq<int>, cnt: seq<int>)
    requires Spread(LetterCode()) <= lens && Cnt(lens) == cnt == [257, 1, 1, 1, 1, 1, 1, 1, 2, 0, 0, 0, 0, 0, 0, 0]
    ensures Coded(lens, 101, 8, 255) && Coded(lens, 102, 5, 15) && Coded(lens, 103, 6, 31)
    ensures Coded(lens, 256, 4, 7) && Coded(lens, 265, 2, 1)
    ensures Spread(FirstLetters()) <= lens
  {
    hide Tally, Place, Cell, Spread, Used, FirstCode, Rev, Cnt, Coded, FirstLetters;
    FirstLettersTally();
    LetterFirst(cnt);
    Reversals();
    var s1 := Cell(FirstLetters(), 0, 8);
    var s2 := Cell(s1, 0, 5);
    var s3 := Cell(s2, 0, 6);
    var s4 := Cell(s3, 152, 4);
    CellCoded(lens, cnt, s4, 8, 2, 2, 1);
    CellCoded(lens, cnt, s3, 152, 4, 14, 7);
    CellCoded(lens, cnt, s2, 0, 6, 62, 31);
    CellCoded(lens, cnt, s1, 0, 5, 30, 15);
    CellCoded(lens, cnt, FirstLetters(), 0, 8, 254, 255);
  }

  lemma LetterFirst(cnt: seq<int>)
    requires cnt == [257, 1, 1, 1, 1, 1, 1, 1, 2, 0, 0, 0, 0, 0, 0, 0]
    ensures FirstCode(cnt, 1) == 0 && FirstCode(cnt, 2) == 2 && FirstCode(cnt, 3) == 6 && FirstCode(cnt, 4) == 14
            && FirstCode(cnt, 5) == 30 && FirstCode(cnt, 6) == 62 && FirstCode(cnt, 7) == 126
            && FirstCode(cnt, 8) == 254
  {
    hide Used;
    LetterUsed(cnt);
  }

  lemma DistanceUsed(cnt: seq<int>)
    requires cnt == [3, 2, 0, 0, 0, 0, 0, 0, 0, 0, 0, 0, 0, 0, 0, 0]
    ensures Used(cnt, 0) == 0 && Used(cnt, 1) == 2
  {
  }

  lemma DistanceUsable()
    ensures Usable(Dists, Spread(DistanceCode()))
            && Cnt(Spread(DistanceCode())) == [3, 2, 0, 0, 0, 0, 0, 0, 0, 0, 0, 0, 0, 0, 0, 0]
  {
    hide *;
    TallyCounts(DistanceCode());
    DistanceCodeTally();
    DistanceUsed([3, 2, 0, 0, 0, 0, 0, 0, 0, 0, 0, 0, 0, 0, 0, 0]);
    TopPower();
    Sizes();
    FullAcceptable(Dists, [3, 2, 0, 0, 0, 0, 0, 0, 0, 0, 0, 0, 0, 0, 0, 0], 1);
    SpotsUsable(Dists, DistanceCode(), [3, 2, 0, 0, 0, 0, 0, 0, 0, 0, 0, 0, 0, 0, 0, 0]);
  }

  lemma DistanceCoded(lens: seq<int>, cnt: seq<int>)
    requires Spread(DistanceCode()) <= lens && Cnt(lens) == cnt == [3, 2, 0, 0, 0, 0, 0, 0, 0, 0, 0, 0, 0, 0, 0, 0]
    ensures Coded(lens, 0, 1, 0) && Coded(lens, 4, 1, 1)
  {
    hide Tally, Place, Cell, Spread, Used, FirstCode, Rev, Cnt, Coded;
    TallyNone();
    DistanceFirst(cnt);
    Reversals();
    var s1 := Cell(Nowhere, 0, 1);
    CellCoded(lens, cnt, s1, 3, 1, 0, 1);
    CellCoded(lens, cnt, Nowhere, 0, 1, 0, 0);
  }

  lemma DistanceFirst(cnt: seq<int>)
    requires cnt == [3, 2, 0, 0, 0, 0, 0, 0, 0, 0, 0, 0, 0, 0, 0, 0]
    ensures FirstCode(cnt, 1) == 0
  {
    hide Used;
    DistanceUsed(cnt);
  }

  lemma ShortReversals()
    ensures Rev(0, 1) == 0 && Rev(1, 1) == 1 && Rev(0, 2) == 0 && Rev(1, 2) == 2 && Rev(2, 2) == 1
    ensures Rev(4, 3) == 1 && Rev(5, 3) == 5 && Rev(6, 3) == 3 && Rev(7, 3) == 7
  {
  }

  lemma Reversals()
    ensures Rev(0, 1) == 0 && Rev(1, 1) == 1 && Rev(0, 2) == 0 && Rev(1, 2) == 2 && Rev(2, 2) == 1
    ensures Rev(4, 3) == 1 && Rev(5, 3) == 5 && Rev(6, 3) == 3
    ensures Rev(12, 4) == 3 && Rev(13, 4) == 11 && Rev(14, 4) == 7 && Rev(30, 5) == 15 && Rev(62, 6) == 31
    ensures Rev(63, 6) == 63 && Rev(126, 7) == 63 && Rev(254, 8) == 127 && Rev(255, 8) == 255
  {
    hide Rev, Pow2;
    ShortReversals();
    HighPowers();
    RevFirst(12, 4);
    RevFirst(13, 4);
    RevFirst(14, 4);
    RevFirst(15, 4);
    RevFirst(30, 5);
    RevFirst(31, 5);
    RevFirst(62, 6);
    RevFirst(63, 6);
    RevFirst(126, 7);
    RevFirst(127, 7);
    RevFirst(254, 8);
    RevFirst(255, 8);
  }

  lemma HighPowers()
    ensures Pow2(3) == 8 && Pow2(4) == 16 && Pow2(5) == 32 && Pow2(6) == 64 && Pow2(7) == 128
  {
  }

  lemma TopPower()
    ensures Pow2(1) == 2 && Pow2(6) == 64 && Pow2(8) == 256
  {
  }

  lemma Sizes()
    ensures MAXBITS == 15 && Alphabet(Codes) == 19 && Alphabet(Lens) == 288 && Alphabet(Dists) == 32
  {
  }

  lemma {:induction false} SpotsBounds(s: Spots)
    ensures forall i :: 0 <= i < |Spread(s)| ==> 0 <= Spread(s)[i] <= MAXBITS
  {
    match s
    case Nowhere =>
    case Spot(before, gap, len) =>
      SpotsBounds(before);
  }

  lemma SpotsUsable(kind: CodeType, s: Spots, cnt: seq<int>)
    requires Cnt(Spread(s)) == cnt && Acceptable(kind, cnt) && Place(s) <= Alphabet(kind)
    ensures Usable(kind, Spread(s))
  {
    hide Acceptable, Cnt, Spread, Place;
    PlaceIs(s);
    SpotsBounds(s);
  }

  // ----- the run of the decoder

  lemma FirstThrees(inp: seq<Byte>, rest: Fields)
    requires Stands(inp, LenLens(266, 5, 18, []), [], FirstCodeLengths(rest))
    ensures Stands(inp, LenLens(266, 5, 18, [0, 3, 2, 0, 4, 3, 0, 6, 0]), [], rest)
  {
    hide Stands, Ahead, AsPieces, Number, Bits, Fitting, Shifted;
    var f8 := Ahead(0, 3, rest);
    var f7 := Ahead(6, 3, f8);
    var f6 := Ahead(0, 3, f7);
    var f5 := Ahead(3, 3, f6);
    var f4 := Ahead(4, 3, f5);
    var f3 := Ahead(0, 3, f4);
    var f2 := Ahead(2, 3, f3);
    var f1 := Ahead(3, 3, f2);
    ThreeBits(inp, 266, 5, 18, [], 0, [0], f1);
    ThreeBits(inp, 266, 5, 18, [0], 3, [0, 3], f2);
    ThreeBits(inp, 266, 5, 18, [0, 3], 2, [0, 3, 2], f3);
    ThreeBits(inp, 266, 5, 18, [0, 3, 2], 0, [0, 3, 2, 0], f4);
    ThreeBits(inp, 266, 5, 18, [0, 3, 2, 0], 4, [0, 3, 2, 0, 4], f5);
    ThreeBits(inp, 266, 5, 18, [0, 3, 2, 0, 4], 3, [0, 3, 2, 0, 4, 3], f6);
    ThreeBits(inp, 266, 5, 18, [0, 3, 2, 0, 4, 3], 0, [0, 3, 2, 0, 4, 3, 0], f7);
    ThreeBits(inp, 266, 5, 18, [0, 3, 2, 0, 4, 3, 0], 6, [0, 3, 2, 0, 4, 3, 0, 6], f8);
    ThreeBits(inp, 266, 5, 18, [0, 3, 2, 0, 4, 3, 0, 6], 0, [0, 3, 2, 0, 4, 3, 0, 6, 0], rest);
  }

  lemma MoreThrees(inp: seq<Byte>, rest: Fields)
    requires Stands(inp, LenLens(266, 5, 18, [0, 3, 2, 0, 4, 3, 0, 6, 0]), [], MoreCodeLengths(rest))
    ensures Stands(inp, LenLens(266, 5, 18, [0, 3, 2, 0, 4, 3, 0, 6, 0, 6, 0, 5, 0, 4, 0, 4, 0, 2]), [], rest)
  {
    hide Stands, Ahead, AsPieces, Number, Bits, Fitting, Shifted;
    var f8 := Ahead(2, 3, rest);
    var f7 := Ahead(0, 3, f8);
    var f6 := Ahead(4, 3, f7);
    var f5 := Ahead(0, 3, f6);
    var f4 := Ahead(4, 3, f5);
    var f3 := Ahead(0, 3, f4);
    var f2 := Ahead(5, 3, f3);
    var f1 := Ahead(0, 3, f2);
    ThreeBits(inp, 266, 5, 18, [0, 3, 2, 0, 4, 3, 0, 6, 0], 6, [0, 3, 2, 0, 4, 3, 0, 6, 0, 6], f1);
    ThreeBits(inp, 266, 5, 18, [0, 3, 2, 0, 4, 3, 0, 6, 0, 6], 0, [0, 3, 2, 0, 4, 3, 0, 6, 0, 6, 0], f2);
    ThreeBits(inp, 266, 5, 18, [0, 3, 2, 0, 4, 3, 0, 6, 0, 6, 0], 5, [0, 3, 2, 0, 4, 3, 0, 6, 0, 6, 0, 5], f3);
    ThreeBits(inp, 266, 5, 18, [0, 3, 2, 0, 4, 3, 0, 6, 0, 6, 0, 5], 0, [0, 3, 2, 0, 4, 3, 0, 6, 0, 6, 0, 5, 0], f4);
    ThreeBits(inp, 266, 5, 18, [0, 3, 2, 0, 4, 3, 0, 6, 0, 6, 0, 5, 0], 4, [0, 3, 2, 0, 4, 3, 0, 6, 0, 6, 0, 5, 0, 4],
              f5);
    ThreeBits(inp, 266, 5, 18, [0, 3, 2, 0, 4, 3, 0, 6, 0, 6, 0, 5, 0, 4], 0,
              [0, 3, 2, 0, 4, 3, 0, 6, 0, 6, 0, 5, 0, 4, 0], f6);
    ThreeBits(inp, 266, 5, 18, [0, 3, 2, 0, 4, 3, 0, 6, 0, 6, 0, 5, 0, 4, 0], 4,
              [0, 3, 2, 0, 4, 3, 0, 6, 0, 6, 0, 5, 0, 4, 0, 4], f7);
    ThreeBits(inp, 266, 5, 18, [0, 3, 2, 0, 4, 3, 0, 6, 0, 6, 0, 5, 0, 4, 0, 4], 0,
              [0, 3, 2, 0, 4, 3, 0, 6, 0, 6, 0, 5, 0, 4, 0, 4, 0], f8);
    ThreeBits(inp, 266, 5, 18, [0, 3, 2, 0, 4, 3, 0, 6, 0, 6, 0, 5, 0, 4, 0, 4, 0], 2,
              [0, 3, 2, 0, 4, 3, 0, 6, 0, 6, 0, 5, 0, 4, 0, 4, 0, 2], rest);
  }

  lemma LengthCodeIs()
    ensures Spread(LengthCode()) == [0, 2, 4, 4, 5, 6, 6, 3, 4, 0, 0, 0, 0, 0, 0, 0, 0, 3, 2]
  {
    hide Spread, Cell, Tally, Place, Repeat;
    NoSpread();
    ShortCodeIs();
  }

  lemma ShortCodeIs()
    ensures Spread(ShortCode()) == [0, 2, 4, 4, 5, 6]
  {
    hide Spread, Cell, Tally, Place, Repeat;
    NoSpread();
  }

  lemma NoSpread()
    ensures Spread(Nowhere) == [] && Repeat(0, 0) == [] && Repeat(0, 1) == [0]
    ensures Repeat(0, 8) == [0, 0, 0, 0, 0, 0, 0, 0]
  {
  }

  lemma ReadIs()
    ensures
      Unordered([0, 3, 2, 0, 4, 3, 0, 6, 0, 6, 0, 5, 0, 4, 0, 4, 0, 2], 18)
      == [0, 2, 4, 4, 5, 6, 6, 3, 4, 0, 0, 0, 0, 0, 0, 0, 0, 3, 2]
  {
    hide Unordered;
    var read := [0, 3, 2, 0, 4, 3, 0, 6, 0, 6, 0, 5, 0, 4, 0, 4, 0, 2];
    PlacesRead(read, 18, 0);
    PlacesRead(read, 18, 1);
    PlacesRead(read, 18, 2);
    PlacesRead(read, 18, 3);
    PlacesRead(read, 18, 4);
    PlacesRead(read, 18, 5);
    PlacesRead(read, 18, 6);
    PlacesRead(read, 18, 7);
  }

  /** The first seven lengths that are not zero. */
  function FirstLettersAll(): Spots {
    Cell(Cell(Cell(FirstLetters(), 0, 8), 0, 5), 0, 6)
  }

  lemma FirstLettersPlace()
    ensures Place(FirstLettersAll()) == 104
  {
    hide Place, Tally, Spread, FirstLetters;
    FirstLettersTally();
  }

  function AllLengths(): Spots {
    Cell(Cell(LetterCode(), 0, 1), 3, 1)
  }

  lemma NoGap(s: Spots)
    ensures Spread(s) + Repeat(0, 0) == Spread(s)
  {
  }

  lemma FirstRuns(inp: seq<Byte>, code: seq<int>, rest: Fields)
    requires Usable(Codes, code) && Coded(code, 1, 2, 0) && Coded(code, 3, 4, 11) && Coded(code, 5, 6, 31)
             && Coded(code, 6, 6, 63) && Coded(code, 7, 3, 1) && Coded(code, 8, 4, 7) && Coded(code, 18, 2, 2)
    requires Stands(inp, CodeLens(266, 5, code, Spread(Nowhere)), [], FirstLengths(rest))
    ensures Stands(inp, CodeLens(266, 5, code, Spread(FirstLettersAll())), [], rest)
  {
    hide Stands, Ahead, AsPieces, Number, Bits, Fitting, Shifted, Coded, Usable, Spread, Repeat, Tally, Place;
    TallyNone();
    NoGap(Nowhere);
    var f8 := Ahead(63, 6, rest);
    var f7 := Ahead(31, 6, f8);
    var f6 := Ahead(7, 4, f7);
    var f5 := Ahead(7, 4, f6);
    var f4 := Ahead(1, 3, f5);
    var f3 := Ahead(11, 4, f4);
    var f2 := Ahead(0, 2, f3);
    var f1 := Ahead(86, 7, f2);
    ZerosRead(inp, 266, 5, code, Nowhere, 0, 18, 2, 2, 86, 7, 97, f2);
    LengthRead(inp, 266, 5, code, Nowhere, 97, 2, 0, 1, f3);
    var s1 := Cell(Nowhere, 97, 1);
    NoGap(s1);
    LengthRead(inp, 266, 5, code, s1, 0, 4, 11, 3, f4);
    var s2 := Cell(s1, 0, 3);
    NoGap(s2);
    LengthRead(inp, 266, 5, code, s2, 0, 3, 1, 7, f5);
    var s3 := Cell(s2, 0, 7);
    NoGap(s3);
    LengthRead(inp, 266, 5, code, s3, 0, 4, 7, 8, f6);
    var s4 := Cell(s3, 0, 8);
    NoGap(s4);
    LengthRead(inp, 266, 5, code, s4, 0, 4, 7, 8, f7);
    var s5 := Cell(s4, 0, 8);
    NoGap(s5);
    LengthRead(inp, 266, 5, code, s5, 0, 6, 31, 5, f8);
    var s6 := Cell(s5, 0, 5);
    NoGap(s6);
    LengthRead(inp, 266, 5, code, s6, 0, 6, 63, 6, rest);
    var s7 := Cell(s6, 0, 6);
    NoGap(s7);
  }

  lemma LaterRuns(inp: seq<Byte>, code: seq<int>, rest: Fields)
    requires Usable(Codes, code) && Coded(code, 2, 4, 3) && Coded(code, 4, 5, 15) && Coded(code, 17, 3, 5)
             && Coded(code, 18, 2, 2)
    requires Stands(inp, CodeLens(266, 5, code, Spread(FirstLettersAll())), [], LaterLengths(rest))
    ensures Stands(inp, CodeLens(266, 5, code, Spread(LetterCode())), [], rest)
  {
    hide Stands, Ahead, AsPieces, Number, Bits, Fitting, Shifted, Coded, Usable, Spread, Repeat, Tally, Place;
    hide FirstLetters;
    FirstLettersPlace();
    NoGap(FirstLettersAll());
    var f7 := Ahead(3, 4, rest);
    var f6 := Ahead(5, 3, f7);
    var f5 := Ahead(5, 3, f6);
    var f4 := Ahead(15, 5, f5);
    var f3 := Ahead(3, 7, f4);
    var f2 := Ahead(2, 2, f3);
    var f1 := Ahead(127, 7, f2);
    ZerosRead(inp, 266, 5, code, FirstLettersAll(), 0, 18, 2, 2, 127, 7, 138, f2);
    ZerosRead(inp, 266, 5, code, FirstLettersAll(), 138, 18, 2, 2, 3, 7, 14, f4);
    LengthRead(inp, 266, 5, code, FirstLettersAll(), 152, 5, 15, 4, f5);
    var s1 := Cell(FirstLettersAll(), 152, 4);
    NoGap(s1);
    ZerosRead(inp, 266, 5, code, s1, 0, 17, 3, 5, 5, 3, 8, f7);
    LengthRead(inp, 266, 5, code, s1, 8, 4, 3, 2, rest);
    var s2 := Cell(s1, 8, 2);
    NoGap(s2);
  }

  lemma DistanceRuns(inp: seq<Byte>, code: seq<int>, rest: Fields)
    requires Usable(Codes, code) && Coded(code, 1, 2, 0) && Coded(code, 17, 3, 5)
    requires Stands(inp, CodeLens(266, 5, code, Spread(LetterCode())), [], DistanceLengths(rest))
    ensures Stands(inp, CodeLens(266, 5, code, Spread(AllLengths())), [], rest)
  {
    hide Stands, Ahead, AsPieces, Number, Bits, Fitting, Shifted, Coded, Usable, Spread, Repeat, Tally, Place,
         LetterCode;
    LetterCodeTally();
    NoGap(LetterCode());
    var f3 := Ahead(0, 2, rest);
    var f2 := Ahead(0, 3, f3);
    var f1 := Ahead(5, 3, f2);
    LengthRead(inp, 266, 5, code, LetterCode(), 0, 2, 0, 1, f1);
    var s1 := Cell(LetterCode(), 0, 1);
    NoGap(s1);
    ZerosRead(inp, 266, 5, code, s1, 0, 17, 3, 5, 0, 3, 3, f3);
    LengthRead(inp, 266, 5, code, s1, 3, 2, 0, 1, rest);
    var s2 := Cell(s1, 3, 1);
    NoGap(s2);
  }

  lemma AllSpread()
    ensures Spread(AllLengths()) == Spread(LetterCode()) + Spread(DistanceCode())
    ensures |Spread(LetterCode())| == 266 && |Spread(DistanceCode())| == 5
  {
    hide Spread, Cell, Tally, Place, Repeat, LetterCode;
    NoSpread();
    PlaceIs(LetterCode());
    PlaceIs(DistanceCode());
    LetterCodeTally();
    DistanceCodeTally();
    var s, t := Spread(LetterCode()), Repeat(0, 3);
    assert Spread(DistanceCode()) == [1] + t + [1];
    assert Spread(Cell(LetterCode(), 0, 1)) == s + [1];
    assert Spread(AllLengths()) == s + [1] + t + [1];
    assert s + [1] + t + [1] == s + ([1] + t + [1]);
  }

  lemma LettersRead(inp: seq<Byte>, c: Pair, rest: Fields)
    requires Usable(Lens, c.lit) && Coded(c.lit, 97, 1, 0) && Coded(c.lit, 98, 3, 3) && Coded(c.lit, 99, 7, 63)
    requires Coded(c.lit, 100, 8, 127) && Coded(c.lit, 101, 8, 255) && Coded(c.lit, 102, 5, 15)
             && Coded(c.lit, 103, 6, 31)
    requires Stands(inp, Len(c), [], Letters(rest))
    ensures Stands(inp, Len(c), [97, 98, 99, 100, 101, 102, 103], rest)
  {
    hide Stands, Ahead, AsPieces, Number, Bits, Fitting, Shifted, Coded, Usable;
    var f6 := Ahead(31, 6, rest);
    var f5 := Ahead(15, 5, f6);
    var f4 := Ahead(255, 8, f5);
    var f3 := Ahead(127, 8, f4);
    var f2 := Ahead(63, 7, f3);
    var f1 := Ahead(3, 3, f2);
    LiteralRead(inp, c, 97, 1, 0, [], [97], f1);
    LiteralRead(inp, c, 98, 3, 3, [97], [97, 98], f2);
    LiteralRead(inp, c, 99, 7, 63, [97, 98], [97, 98, 99], f3);
    LiteralRead(inp, c, 100, 8, 127, [97, 98, 99], [97, 98, 99, 100], f4);
    LiteralRead(inp, c, 101, 8, 255, [97, 98, 99, 100], [97, 98, 99, 100, 101], f5);
    LiteralRead(inp, c, 102, 5, 15, [97, 98, 99, 100, 101], [97, 98, 99, 100, 101, 102], f6);
    LiteralRead(inp, c, 103, 6, 31, [97, 98, 99, 100, 101, 102], [97, 98, 99, 100, 101, 102, 103], rest);
  }

  lemma FirstCopies(inp: seq<Byte>, c: Pair, rest: Fields)
    requires Stands(inp, Match(c, 12, 6), [97, 98, 99, 100, 101, 102, 103], rest)
    ensures Stands(inp, Match(c, 6, 6), [97, 98, 99, 100, 101, 102, 103, 98, 99, 100, 101, 102, 103], rest)
  {
    hide *;
    ByteCopied(inp, c, 12, 6, [97, 98, 99, 100, 101, 102, 103], 98, [97, 98, 99, 100, 101, 102, 103, 98], rest);
    ByteCopied(inp, c, 11, 6, [97, 98, 99, 100, 101, 102, 103, 98], 99, [97, 98, 99, 100, 101, 102, 103, 98, 99], rest);
    ByteCopied(inp, c, 10, 6, [97, 98, 99, 100, 101, 102, 103, 98, 99], 100,
               [97, 98, 99, 100, 101, 102, 103, 98, 99, 100], rest);
    ByteCopied(inp, c, 9, 6, [97, 98, 99, 100, 101, 102, 103, 98, 99, 100], 101,
               [97, 98, 99, 100, 101, 102, 103, 98, 99, 100, 101], rest);
    ByteCopied(inp, c, 8, 6, [97, 98, 99, 100, 101, 102, 103, 98, 99, 100, 101], 102,
               [97, 98, 99, 100, 101, 102, 103, 98, 99, 100, 101, 102], rest);
    ByteCopied(inp, c, 7, 6, [97, 98, 99, 100, 101, 102, 103, 98, 99, 100, 101, 102], 103,
               [97, 98, 99, 100, 101, 102, 103, 98, 99, 100, 101, 102, 103], rest);
  }

  lemma LastCopies(inp: seq<Byte>, c: Pair, rest: Fields)
    requires Stands(inp, Match(c, 6, 6), [97, 98, 99, 100, 101, 102, 103, 98, 99, 100, 101, 102, 103], rest)
    ensures Stands(inp, Len(c), OUTPUT, rest)
  {
    hide *;
    OutputIs();
    ByteCopied(inp, c, 6, 6, [97, 98, 99, 100, 101, 102, 103, 98, 99, 100, 101, 102, 103], 98,
               [97, 98, 99, 100, 101, 102, 103, 98, 99, 100, 101, 102, 103, 98], rest);
    ByteCopied(inp, c, 5, 6, [97, 98, 99, 100, 101, 102, 103, 98, 99, 100, 101, 102, 103, 98], 99,
               [97, 98, 99, 100, 101, 102, 103, 98, 99, 100, 101, 102, 103, 98, 99], rest);
    ByteCopied(inp, c, 4, 6, [97, 98, 99, 100, 101, 102, 103, 98, 99, 100, 101, 102, 103, 98, 99], 100,
               [97, 98, 99, 100, 101, 102, 103, 98, 99, 100, 101, 102, 103, 98, 99, 100], rest);
    ByteCopied(inp, c, 3, 6, [97, 98, 99, 100, 101, 102, 103, 98, 99, 100, 101, 102, 103, 98, 99, 100], 101,
               [97, 98, 99, 100, 101, 102, 103, 98, 99, 100, 101, 102, 103, 98, 99, 100, 101], rest);
    ByteCopied(inp, c, 2, 6, [97, 98, 99, 100, 101, 102, 103, 98, 99, 100, 101, 102, 103, 98, 99, 100, 101], 102,
               [97, 98, 99, 100, 101, 102, 103, 98, 99, 100, 101, 102, 103, 98, 99, 100, 101, 102], rest);
    ByteCopied(inp, c, 1, 6, [97, 98, 99, 100, 101, 102, 103, 98, 99, 100, 101, 102, 103, 98, 99, 100, 101, 102], 103,
               [97, 98, 99, 100, 101, 102, 103, 98, 99, 100, 101, 102, 103, 98, 99, 100, 101, 102, 103], rest);
  }

  lemma OutputIs()
    ensures OUTPUT == [97, 98, 99, 100, 101, 102, 103, 98, 99, 100, 101, 102, 103, 98, 99, 100, 101, 102, 103]
  {
  }

  lemma HeaderRead(inp: seq<Byte>, rest: Fields)
    requires At(inp, START, AsPieces(Header(rest)))
    ensures Stands(inp, LenLens(266, 5, 18, []), [], rest)
  {
    hide At, Ahead, AsPieces, Number, Bits, Fitting, Shifted, SizePieces, Stands;
    var f3 := Ahead(14, 4, rest);
    var f2 := Ahead(4, 5, f3);
    var f1 := Ahead(9, 5, f2);
    ReadType(inp, START, 2, true, AsPieces(f1));
    var m1 := Machine(Config(Table, true, []), 3);
    SizeRest(266, 5, 18, AsPieces(rest));
    ReadSizes(inp, m1, 266, 5, 18, AsPieces(rest));
    Stood(inp, Machine(Config(LenLens(266, 5, 18, []), true, []), 17), rest);
  }

  lemma CodeRead(inp: seq<Byte>, rest: Fields)
    requires Stands(inp, LenLens(266, 5, 18, [0, 3, 2, 0, 4, 3, 0, 6, 0, 6, 0, 5, 0, 4, 0, 4, 0, 2]), [], rest)
    ensures Stands(inp, CodeLens(266, 5, Spread(LengthCode()), []), [], rest)
  {
    hide *;
    var read := [0, 3, 2, 0, 4, 3, 0, 6, 0, 6, 0, 5, 0, 4, 0, 4, 0, 2];
    var m := Standing(inp, LenLens(266, 5, 18, read), [], rest);
    ReadIs();
    LengthCodeIs();
    LengthUsable();
    UsableParts(Codes, Spread(LengthCode()));
    BlDone(Rest(inp, m), Left(inp, m), m.c, 266, 5, read, Spread(LengthCode()));
    SteppedFree(inp, m, rest, CodeLens(266, 5, Spread(LengthCode()), []), []);
  }

  lemma UsableParts(kind: CodeType, lens: seq<int>)
    requires Usable(kind, lens)
    ensures Acceptable(kind, Cnt(lens))
  {
    hide Acceptable, Cnt;
  }

  lemma LengthsRead(inp: seq<Byte>, rest: Fields)
    requires Stands(inp, CodeLens(266, 5, Spread(LengthCode()), []), [],
                    FirstLengths(LaterLengths(DistanceLengths(rest))))
    ensures Stands(inp, Len(CODES()), [], rest)
  {
    hide *;
    var code := Spread(LengthCode());
    LengthUsable();
    LengthCoded(code, Cnt(code));
    ShortCoded(code, Cnt(code));
    NoSpread();
    FirstRuns(inp, code, LaterLengths(DistanceLengths(rest)));
    LaterRuns(inp, code, DistanceLengths(rest));
    DistanceRuns(inp, code, rest);
    var m := Standing(inp, CodeLens(266, 5, code, Spread(AllLengths())), [], rest);
    AllSpread();
    LetterUsable();
    DistanceUsable();
    UsableParts(Lens, Spread(LetterCode()));
    UsableParts(Dists, Spread(DistanceCode()));
    CodesAre();
    EndStep(Rest(inp, m), Left(inp, m), m.c, Spread(LetterCode()), Spread(DistanceCode()), code);
    SteppedFree(inp, m, rest, Len(CODES()), []);
  }

  lemma EndStep(x: int, n: nat, c: Config, ll: seq<int>, dl: seq<int>, code: seq<int>)
    requires x >= 0 && c.st == CodeLens(|ll|, |dl|, code, ll + dl)
    requires Acceptable(Lens, Cnt(ll)) && Acceptable(Dists, Cnt(dl))
    ensures StepAt(x, n, c) == Move(0, c.(st := Len(Pair(ll, dl))))
  {
    assert (ll + dl)[..|ll|] == ll && (ll + dl)[|ll|..] == dl;
    hide Acceptable, Cnt;
  }

  function CODES(): Pair {
    Pair(Spread(LetterCode()), Spread(DistanceCode()))
  }

  lemma CodesAre()
    ensures CODES() == Pair(Spread(LetterCode()), Spread(DistanceCode()))
  {
  }

  lemma TextRead(inp: seq<Byte>, rest: Fields)
    requires Stands(inp, Len(CODES()), [], Letters(Copied(Ending(rest))))
    ensures Stands(inp, Type, OUTPUT, Ahead(0, 1, rest))
  {
    hide *;
    CodesAre();
    var c := CODES();
    LetterUsable();
    DistanceUsable();
    LetterCoded(c.lit, Cnt(c.lit));
    FirstLettersCoded(c.lit, Cnt(c.lit));
    DistanceCoded(c.dist, Cnt(c.dist));
    LettersRead(inp, c, Copied(Ending(rest)));
    CopiedFields(Ending(rest));
    PairRead(inp, c, 2, 1, 1, 1, 1, 1, [97, 98, 99, 100, 101, 102, 103], Ending(rest));
    FirstCopies(inp, c, Ending(rest));
    LastCopies(inp, c, Ending(rest));
    EndingFields(rest);
    SymbolRead1(inp, c, 256, 4, 7, OUTPUT, Ahead(0, 1, rest));
    EndOfBlock(c);
  }

  lemma CopiedFields(rest: Fields)
    ensures Copied(rest) == Ahead(1, 2, Ahead(1, 1, Ahead(1, 1, Ahead(1, 1, rest))))
  {
    hide Ahead;
  }

  lemma EndingFields(rest: Fields)
    ensures Ending(rest) == Ahead(7, 4, Ahead(0, 1, rest))
  {
    hide Ahead;
  }

  /** The decoder's output on the stream. */
  const OUTPUT: seq<Byte> := [97, 98, 99, 100, 101, 102, 103, 98, 99, 100, 101, 102, 103, 98, 99, 100, 101, 102, 103]

  lemma EndRead(inp: seq<Byte>, out: seq<Byte>) returns (m: Machine)
    requires Stands(inp, Type, out, Ahead(0, 1, End))
    ensures Reaches(inp, m) && m.c == Config(Done, true, out) && m.pos == 8 * |inp|
  {
    hide *;
    var m1 := Found1(inp, Type, out, 0, 1, End);
    NoPieces();
    assert [Piece(0, 1)] + [] == [Piece(0, 1)];
    AtParts(inp, m1, [Piece(0, 1)]);
    LastStep(Rest(inp, m1), Left(inp, m1), m1.c);
    Stepped(inp, m1, [Piece(0, 1)], End, Check, out);
    var m2 := Standing(inp, Check, out, End);
    LastStep(Rest(inp, m2), Left(inp, m2), m2.c);
    SteppedFree(inp, m2, End, Done, out);
    m := Standing(inp, Done, out, End);
    AtParts(inp, m, []);
    NoWidth();
    LeftIs(inp, m);
  }

  lemma NoPieces()
    ensures AsPieces(End) == []
  {
  }

  /** The decoder reads the stream to its end, and its output is abcdefgbcdefgbcdefg. */
  lemma KnownOutput() returns (m: Machine)
    ensures Reaches(STREAM, m) && m.c == Config(Done, true, OUTPUT) && m.pos == 200
  {
    hide *;
    var f1 := Ahead(0, 1, End);
    var text := Letters(Copied(Ending(End)));
    var lengths := FirstLengths(LaterLengths(DistanceLengths(text)));
    StreamAt();
    FieldedParts();
    StreamValue();
    HeaderRead(STREAM, FirstCodeLengths(MoreCodeLengths(lengths)));
    FirstThrees(STREAM, MoreCodeLengths(lengths));
    MoreThrees(STREAM, lengths);
    CodeRead(STREAM, lengths);
    LengthsRead(STREAM, text);
    TextRead(STREAM, End);
    m := EndRead(STREAM, OUTPUT);
  }

  lemma FieldedParts()
    ensures
      Fielded(End)
      == Header(FirstCodeLengths(MoreCodeLengths(FirstLengths(LaterLengths(DistanceLengths(
           Letters(Copied(Ending(End)))))))))
  {
    hide Ahead, Header, FirstCodeLengths, MoreCodeLengths, FirstLengths, LaterLengths, DistanceLengths;
    hide Letters, Copied, Ending;
  }
}
