/**
 CRC-32 (`crc32.c`, RFC 1952 section 8): the tables, the word-at-a-time loop, and the
 combination of two checksums by operators that append zeros.
 */
module Crc {
  import opened Arith
  import opened DecodeTable
  import opened InflateSpec
  import opened Bitwise

  type Word = x: int | 0 <= x < 0x1_0000_0000

  const POLY: Word := 0xedb88320
  const ONES: Word := 0xffffffff

  lemma Words()
    ensures Pow2(32) == 0x1_0000_0000 && Pow2(8) == 256
  {
    assert Pow2(8) == 256;
    Pow2Add(8, 8);
    Pow2Add(16, 16);
  }

  /** The sum of two words over GF(2) is a word. */
  function Add(a: Word, b: Word): (r: Word)
    ensures r == Xor(a, b)
  {
    Words();
    XorBound(a, b, 32);
    Xor(a, b)
  }

  // ----- the polynomial

  /** The exponents of the polynomial below 32. */
  const TERMS: seq<Exponent> := [0, 1, 2, 4, 5, 7, 8, 10, 11, 12, 16, 22, 23, 26]

  type Exponent = p: nat | p < 32

  /** The powers of the first n exponents, the lowest exponent in the highest bit. */
  function Terms(n: nat): nat
    requires n <= |TERMS|
  {
    if n == 0 then 0 else Terms(n - 1) + Pow2(31 - TERMS[n - 1])
  }

  lemma TermsRise(i: nat)
    requires i < 14
    ensures |TERMS| == 14 && (i > 0 ==> TERMS[i - 1] < TERMS[i])
  {
  }

  lemma TermsNone()
    ensures |TERMS| == 14 && Terms(0) == 0
  {
  }

  lemma TermsNext(n: nat)
    requires n < |TERMS|
    ensures Terms(n + 1) == Terms(n) + Pow2(31 - TERMS[n])
  {
    hide TERMS;
  }

  /** A power below all the bits of a number is added by setting its bit. */
  lemma BitSet(h: nat, k: nat, e: nat, poly: nat)
    requires e < k && poly == Up(h, k)
    ensures Or(poly, Pow2(e)) == poly + Pow2(e)
    ensures var h' := Up(h, k - e) + 1; h' >= 0 && poly + Pow2(e) == Up(h', e)
  {
    hide *;
    UpPositive(h, k - e - 1);
    var g := Up(h, k - e - 1);
    UpUp(h, k - e - 1, e + 1);
    PowRises(e);
    OrComm(poly, Pow2(e));
    OrApart(Pow2(e), g, e + 1);
    UpPositive(h, k - e);
    UpUp(h, k - e, e);
    UpSum(Up(h, k - e), 1, e);
    UpOne(e);
  }

  lemma UpPositive(h: nat, k: nat)
    ensures Up(h, k) >= 0
  {
    ShrUp(h, k);
  }

  lemma PowRises(e: nat)
    ensures Pow2(e) < Pow2(e + 1)
  {
  }

  /** The exclusive-or pattern, from the exponents. */
  method MakePoly() returns (poly: nat)
    ensures poly == POLY
  {
    hide *;
    poly := 0;
    ghost var h: nat, k: nat := 0, 32;
    TermsNone();
    ZeroUp(32);
    for n := 0 to |TERMS|
      invariant poly == Terms(n) && h >= 0 && poly == Up(h, k) && k == if n == 0 then 32 else 31 - TERMS[n - 1]
    {
      TermsRise(n);
      TermsNext(n);
      BitSet(h, k, 31 - TERMS[n], poly);
      h, k := Up(h, k - (31 - TERMS[n])) + 1, 31 - TERMS[n];
      poly := Or(poly, Pow2(31 - TERMS[n]));
    }
    AllTerms();
  }

  lemma LowTerms()
    ensures |TERMS| == 14
    ensures Terms(7) == Pow2(31) + Pow2(30) + Pow2(29) + Pow2(27) + Pow2(26) + Pow2(24) + Pow2(23)
    ensures Terms(14) == Terms(7) + Pow2(21) + Pow2(20) + Pow2(19) + Pow2(15) + Pow2(9) + Pow2(8) + Pow2(5)
  {
    hide Pow2;
  }

  lemma AllTerms()
    ensures |TERMS| == 14 && Terms(14) == POLY
  {
    hide Pow2, Terms;
    LowTerms();
    SmallPowers();
    Pow2Add(8, 7);
    Pow2Add(16, 3);
    Pow2Add(16, 4);
    Pow2Add(16, 5);
    Pow2Add(16, 7);
    Pow2Add(8, 8);
    Pow2Add(16, 8);
    Pow2Add(24, 2);
    Pow2Add(24, 3);
    Pow2Add(24, 5);
    Pow2Add(24, 6);
    Pow2Add(24, 7);
  }

  lemma SmallPowers()
    ensures Pow2(2) == 4 && Pow2(3) == 8 && Pow2(4) == 16 && Pow2(5) == 32 && Pow2(6) == 64 && Pow2(7) == 128
    ensures Pow2(8) == 256 && Pow2(9) == 512
  {
  }

  // ----- one bit at a time

  /** The register when one zero bit comes in. */
  function BitStep(c: Word): Word {
    if c % 2 == 1 then Add(POLY, c / 2) else c / 2
  }

  /** The register when n zero bits come in. */
  function Steps(c: Word, n: nat): Word
    decreases n
  {
    if n == 0 then c else Steps(BitStep(c), n - 1)
  }

  function ByteStep(c: Word, b: Byte): Word {
    Steps(Add(c, b), 8)
  }

  /** The register after the bytes, by the definition. */
  function Register(c: Word, s: seq<Byte>): Word
    decreases |s|
  {
    if s == [] then c else Register(ByteStep(c, s[0]), s[1..])
  }

  /** The checksum. */
  function Checksum(s: seq<Byte>): Word {
    Add(Register(ONES, s), ONES)
  }

  lemma {:induction false} RegisterAppend(c: Word, a: seq<Byte>, b: seq<Byte>)
    ensures Register(c, a + b) == Register(Register(c, a), b)
    decreases |a|
  {
    hide ByteStep;
    if a == [] {
      assert a + b == b;
    } else {
      assert (a + b)[1..] == a[1..] + b;
      RegisterAppend(ByteStep(c, a[0]), a[1..], b);
    }
  }

  // ----- the register is linear

  lemma AddSwap(a: Word, b: Word, c: Word)
    ensures Add(Add(a, b), c) == Add(Add(a, c), b) == Add(a, Add(b, c))
  {
    hide Xor;
    XorSwap(a, b, c);
    XorAssoc(a, b, c);
  }

  lemma AddTwice(a: Word, b: Word)
    ensures Add(Add(a, b), b) == a && Add(a, b) == Add(b, a) && Add(a, 0) == a == Add(0, a) && Add(a, a) == 0
  {
    hide Xor;
    XorTwice(a, b);
    XorComm(a, b);
    XorNone(a);
    XorSelf(a);
  }

  lemma BitLinear(a: Word, b: Word)
    ensures BitStep(Add(a, b)) == Add(BitStep(a), BitStep(b))
  {
    XorStep(a, b);
    hide Xor, Add;
    var p, x, y := POLY, a / 2, b / 2;
    AddSwap(p, x, y);
    AddSwap(Add(p, x), p, y);
    AddSwap(p, x, p);
    AddTwice(x, p);
    AddTwice(p, x);
    AddSwap(x, p, y);
    AddTwice(Add(x, y), p);
    AddTwice(x, Add(p, y));
    AddTwice(p, Add(x, y));
  }

  lemma {:induction false} StepsLinear(a: Word, b: Word, n: nat)
    ensures Steps(Add(a, b), n) == Add(Steps(a, n), Steps(b, n))
    decreases n
  {
    hide BitStep, Add;
    if n > 0 {
      BitLinear(a, b);
      StepsLinear(BitStep(a), BitStep(b), n - 1);
    }
  }

  lemma {:induction false} StepsAdd(c: Word, m: nat, n: nat)
    ensures Steps(c, m + n) == Steps(Steps(c, m), n)
    decreases m
  {
    hide BitStep;
    if m > 0 {
      StepsAdd(BitStep(c), m - 1, n);
    }
  }

  /** Low zero bits are shifted out. */
  lemma {:induction false} StepsUp(y: int, n: nat)
    requires y >= 0 && Up(y, n) < 0x1_0000_0000
    ensures 0 <= Up(y, n) && 0 <= y < 0x1_0000_0000 && Steps(Up(y, n), n) == y
    decreases n
  {
    ShrUp(y, n);
    if n > 0 {
      ShrUp(y, n - 1);
      StepsUp(y, n - 1);
      assert BitStep(Up(y, n)) == Up(y, n - 1);
    }
  }

  // ----- the tables

  /** A word is its low byte and the rest. */
  lemma Split(x: Word)
    ensures 0 <= x / 256 < 0x100_0000 && Up(x / 256, 8) == x - x % 256 && x == Add(x % 256, Up(x / 256, 8))
  {
    Words();
    XorApart(x % 256, x / 256, 8);
    EightUp(x / 256);
  }

  /** Some bytes of zeros after a word: those after its low byte, and one less after the rest. */
  lemma Slice(x: Word, k: nat)
    ensures 0 <= x / 256 < 0x100_0000 && Steps(x, 8 + 8 * k) == Add(Steps(x % 256, 8 + 8 * k), Steps(x / 256, 8 * k))
  {
    hide *;
    Split(x);
    StepsLinear(x % 256, Up(x / 256, 8), 8 + 8 * k);
    StepsAdd(Up(x / 256, 8), 8, 8 * k);
    StepsUp(x / 256, 8);
  }

  lemma StepsNext(c: Word, n: nat)
    requires n > 0
    ensures Steps(c, n) == Steps(if c % 2 == 1 then Add(POLY, c / 2) else c / 2, n - 1)
  {
  }

  lemma NoSteps(x: Word)
    ensures Steps(x, 0) == x
  {
  }

  /** A byte comes in by way of the first table. */
  lemma OneByte(c: Word, b: Byte)
    ensures ByteStep(c, b) == Add(Steps(Add(c, b) % 256, 8), c / 256)
  {
    ByteHigh(c, b);
    ByteStepIs(c, b);
    hide *;
    Slice(Add(c, b), 0);
    NoSteps(c / 256);
  }

  lemma ByteStepIs(c: Word, b: Byte)
    ensures ByteStep(c, b) == Steps(Add(c, b), 8)
  {
  }

  /** A byte leaves the upper bytes alone. */
  lemma ByteHigh(c: Word, b: Byte)
    ensures Add(c, b) / 256 == c / 256
  {
    Words();
    Split(c);
    hide Xor, Up, Pow2;
    AddSwap(c % 256, Up(c / 256, 8), b);
    XorBound(c % 256, b, 8);
    var low := Add(c % 256, b);
    XorApart(low, c / 256, 8);
  }

  /** Four bytes as they lie in memory, the first one least. */
  function Load(s: seq<Byte>): Word
    requires |s| == 4
  {
    var a: int, b: int, c: int, d: int := s[0], s[1], s[2], s[3];
    a + 0x100 * b + 0x1_0000 * c + 0x100_0000 * d
  }

  lemma LoadOf(s: seq<Byte>)
    requires |s| == 4
    ensures Load(s) == (s[0] as int) + 0x100 * (s[1] as int) + 0x1_0000 * (s[2] as int) + 0x100_0000 * (s[3] as int)
  {
  }

  /** A byte that comes in after n zero bytes' time might have come in at once, so much further up. */
  lemma Later(y: Word, b: Byte, n: nat)
    requires Up(b, n) < 0x1_0000_0000
    ensures 0 <= Up(b, n) && ByteStep(Steps(y, n), b) == Steps(Add(y, Up(b, n)), n + 8)
  {
    ByteStepIs(Steps(y, n), b);
    hide *;
    StepsUp(b, n);
    StepsLinear(y, Up(b, n), n);
    StepsAdd(Add(y, Up(b, n)), n, 8);
  }

  lemma LoadIs(a: int, b: int, c: int, d: int)
    requires 0 <= a < 256 && 0 <= b < 256 && 0 <= c < 256 && 0 <= d < 256
    ensures Up(b, 8) == 0x100 * b && Up(c, 16) == 0x1_0000 * c && Up(d, 24) == 0x100_0000 * d
    ensures a + 0x100 * b + 0x1_0000 * c + 0x100_0000 * d == Add(Add(Add(a, Up(b, 8)), Up(c, 16)), Up(d, 24))
  {
    Shifts(b);
    Shifts(c);
    Shifts(d);
    Powers();
    hide Xor, Up, Pow2;
    XorApart(a, b, 8);
    XorApart(a + 0x100 * b, c, 16);
    XorApart(a + 0x100 * b + 0x1_0000 * c, d, 24);
  }

  lemma Shifts(x: int)
    ensures Up(x, 8) == 0x100 * x && Up(x, 16) == 0x1_0000 * x && Up(x, 24) == 0x100_0000 * x
  {
    hide *;
    EightUp(x);
    EightUp(0x100 * x);
    EightUp(0x1_0000 * x);
    UpUp(x, 8, 8);
    UpUp(x, 16, 8);
  }

  lemma Powers()
    ensures Pow2(8) == 0x100 && Pow2(16) == 0x1_0000 && Pow2(24) == 0x100_0000
  {
    assert Pow2(8) == 0x100;
    hide *;
    Pow2Add(8, 8);
    Pow2Add(16, 8);
  }

  /** Four bytes at once are four bytes one after the other. */
  lemma FourBytes(c: Word, s: seq<Byte>)
    requires |s| == 4
    ensures Register(c, s) == Steps(Add(c, Load(s)), 32)
  {
    RegisterFour(c, s);
    ByteStepIs(c, s[0]);
    LoadOf(s);
    hide *;
    var x: Word, y1: Word, y2: Word, y3: Word := s[0], 0x100 * (s[1] as int), 0x1_0000 * (s[2] as int),
                                                 0x100_0000 * (s[3] as int);
    LoadIs(s[0], s[1], s[2], s[3]);
    var a := Add(c, x);
    Later(a, s[1], 8);
    Later(Add(a, y1), s[2], 16);
    Later(Add(Add(a, y1), y2), s[3], 24);
    AddSwap(c, x, y1);
    AddSwap(c, Add(x, y1), y2);
    AddSwap(c, Add(Add(x, y1), y2), y3);
  }

  lemma RegisterFour(c: Word, s: seq<Byte>)
    requires |s| == 4
    ensures Register(c, s) == ByteStep(ByteStep(ByteStep(ByteStep(c, s[0]), s[1]), s[2]), s[3])
  {
    hide ByteStep;
    RegisterOne(c, s);
    RegisterOne(ByteStep(c, s[0]), s[1..]);
    RegisterOne(ByteStep(ByteStep(c, s[0]), s[1]), s[2..]);
    RegisterOne(ByteStep(ByteStep(ByteStep(c, s[0]), s[1]), s[2]), s[3..]);
    assert s[1..][1..] == s[2..] && s[2..][1..] == s[3..] && s[3..][1..] == [];
  }

  lemma RegisterOne(c: Word, s: seq<Byte>)
    requires s != []
    ensures Register(c, s) == Register(ByteStep(c, s[0]), s[1..]) && Register(c, []) == c
  {
  }

  /** The tables of four-byte steps. */
  class CrcTables {
    const table: array2<Word>

    /** Table k holds what k + 1 zero bytes make of each byte. */
    ghost predicate Valid()
      reads table
    {
      && table.Length0 == 4 && table.Length1 == 256
      && forall k, n :: 0 <= k < 4 && 0 <= n < 256 ==> table[k, n] == Steps(n, 8 + 8 * k)
    }

    /** `make_crc_table` */
    constructor ()
      ensures Valid() && fresh(table)
    {
      table := new Word[4, 256];
      new;
      FirstTable();
      for k := 1 to 4
        invariant forall j, n :: 0 <= j < k && 0 <= n < 256 ==> table[j, n] == Steps(n, 8 + 8 * j)
      {
        NextTable(k);
      }
    }

    /** The checksum register for every byte. */
    method FirstTable()
      requires table.Length0 == 4 && table.Length1 == 256
      modifies table
      ensures forall n :: 0 <= n < 256 ==> table[0, n] == Steps(n, 8)
    {
      hide *;
      var poly := MakePoly();
      for n := 0 to 256
        invariant forall i :: 0 <= i < n ==> table[0, i] == Steps(i, 8)
      {
        var c: Word := n;
        for k := 0 to 8
          invariant Steps(c, 8 - k) == Steps(n, 8)
          invariant forall i :: 0 <= i < n ==> table[0, i] == Steps(i, 8)
        {
          StepsNext(c, 8 - k);
          c := if c % 2 == 1 then Add(poly, c / 2) else c / 2;
        }
        NoSteps(c);
        table[0, n] := c;
      }
    }

    /** One more zero byte for every entry of the table before. */
    method NextTable(k: nat)
      requires table.Length0 == 4 && table.Length1 == 256 && 1 <= k < 4
      requires forall j, n :: 0 <= j < k && 0 <= n < 256 ==> table[j, n] == Steps(n, 8 + 8 * j)
      modifies table
      ensures forall j, n :: 0 <= j <= k && 0 <= n < 256 ==> table[j, n] == Steps(n, 8 + 8 * j)
    {
      hide Steps, Add;
      for n := 0 to 256
        invariant forall j, i :: 0 <= j < k && 0 <= i < 256 ==> table[j, i] == Steps(i, 8 + 8 * j)
        invariant forall i :: 0 <= i < n ==> table[k, i] == Steps(i, 8 + 8 * k)
      {
        var c := table[k - 1, n];
        Slice(c, 0);
        NoSteps(c / 256);
        StepsAdd(n, 8 * k, 8);
        assert table[0, c % 256] == Steps(c % 256, 8);
        table[k, n] := Add(table[0, c % 256], c / 256);
      }
    }

    /** One byte by the first table. */
    method Do1(c0: Word, b: Byte) returns (c: Word)
      requires Valid()
      ensures c == ByteStep(c0, b)
    {
      OneByte(c0, b);
      hide Steps, Add, ByteStep;
      c := Add(table[0, Add(c0, b) % 256], c0 / 256);
    }

    /** Four bytes by the four tables. */
    method DoLit4(c0: Word, s: seq<Byte>) returns (c: Word)
      requires Valid() && |s| == 4
      ensures c == Register(c0, s)
    {
      FourBytes(c0, s);
      c := Add(c0, Load(s));
      Slices(c);
      hide Steps, Add, Register, Load;
      c := Add(Add(Add(table[3, c % 256], table[2, c / 0x100 % 256]), table[1, c / 0x1_0000 % 256]),
               table[0, c / 0x100_0000]);
    }

    /**
     `crc32_little`: bytes up to a word boundary of the address, words, and the rest; the result is that of single
     bits.
     */
    method Crc32Little(crc: Word, buf: seq<Byte>, address: nat) returns (r: Word)
      requires Valid()
      ensures r == Add(Register(Add(crc, ONES), buf), ONES)
      ensures forall a :: crc == Checksum(a) ==> r == Checksum(a + buf)
    {
      hide *;
      var c := Add(crc, ONES);
      ghost var c0 := c;
      RegisterNone(c);
      var i := 0;
      while i < |buf| && (address + i) % 4 != 0
        invariant i <= |buf| && c == Register(c0, buf[..i])
        decreases |buf| - i
      {
        RegisterSnoc(c0, buf, i);
        c := Do1(c, buf[i]);
        i := i + 1;
      }
      while |buf| - i >= 32
        invariant i <= |buf| && c == Register(c0, buf[..i])
      {
        ghost var i0 := i;
        for k := 0 to 8
          invariant i == i0 + 4 * k && i0 + 32 <= |buf| && c == Register(c0, buf[..i])
        {
          RegisterMore(c0, buf, i, i + 4);
          c := DoLit4(c, buf[i..i + 4]);
          i := i + 4;
        }
      }
      while |buf| - i >= 4
        invariant i <= |buf| && c == Register(c0, buf[..i])
      {
        RegisterMore(c0, buf, i, i + 4);
        c := DoLit4(c, buf[i..i + 4]);
        i := i + 4;
      }
      while i < |buf|
        invariant i <= |buf| && c == Register(c0, buf[..i])
      {
        RegisterSnoc(c0, buf, i);
        c := Do1(c, buf[i]);
        i := i + 1;
      }
      assert buf[..i] == buf;
      r := Add(c, ONES);
      forall a | crc == Checksum(a) ensures r == Checksum(a + buf) {
        Continued(a, buf, crc);
      }
    }
  }

  lemma RegisterNone(c: Word)
    ensures Register(c, []) == c
  {
  }

  lemma RegisterMore(c: Word, buf: seq<Byte>, i: nat, j: nat)
    requires i <= j <= |buf|
    ensures Register(c, buf[..j]) == Register(Register(c, buf[..i]), buf[i..j])
  {
    assert buf[..j] == buf[..i] + buf[i..j];
    RegisterAppend(c, buf[..i], buf[i..j]);
  }

  lemma RegisterSnoc(c: Word, buf: seq<Byte>, i: nat)
    requires i < |buf|
    ensures Register(c, buf[..i + 1]) == ByteStep(Register(c, buf[..i]), buf[i])
  {
    hide ByteStep;
    RegisterMore(c, buf, i, i + 1);
    RegisterOne(Register(c, buf[..i]), buf[i..i + 1]);
  }

  /** A checksum taken up again goes on where it was left. */
  lemma Continued(a: seq<Byte>, b: seq<Byte>, crc: Word)
    requires crc == Checksum(a)
    ensures Add(Register(Add(crc, ONES), b), ONES) == Checksum(a + b)
  {
    RegisterAppend(ONES, a, b);
    hide Register, Add;
    AddTwice(Register(ONES, a), ONES);
  }

  /** The table lookups of four bytes. */
  lemma Slices(x: Word)
    ensures 0 <= x / 0x100_0000 < 256
    ensures Steps(x, 32) == Add(Add(Add(Steps(x % 256, 32), Steps(x / 0x100 % 256, 24)), Steps(x / 0x1_0000 % 256, 16)),
                                Steps(x / 0x100_0000, 8))
  {
    hide *;
    var y, z: Word, w: Word := x / 0x100, x / 0x1_0000, x / 0x100_0000;
    assert y / 256 == z && z / 256 == w;
    Slice(x, 3);
    Slice(y, 2);
    Slice(z, 1);
    var a, b, c, d := Steps(x % 256, 32), Steps(y % 256, 24), Steps(z % 256, 16), Steps(w, 8);
    AddSwap(a, b, Add(c, d));
    AddSwap(Add(a, b), c, d);
  }

  // ----- combining two checksums

  /** The product of a matrix over GF(2), given by its columns, and a word, from column k on. */
  function Times(mat: seq<Word>, v: Word, k: nat): Word
    requires |mat| == 32 && k <= 32
    decreases 32 - k
  {
    if k == 32 then 0 else Add(if v % 2 == 1 then mat[k] else 0, Times(mat, v / 2, k + 1))
  }

  lemma {:induction false} TimesLinear(mat: seq<Word>, u: Word, v: Word, k: nat)
    requires |mat| == 32 && k <= 32
    ensures Times(mat, Add(u, v), k) == Add(Times(mat, u, k), Times(mat, v, k))
    decreases 32 - k
  {
    if k < 32 {
      XorStep(u, v);
      TimesLinear(mat, u / 2, v / 2, k + 1);
      hide Xor;
      assert Add(u, v) / 2 == Add(u / 2, v / 2);
      var a, b := Times(mat, u / 2, k + 1), Times(mat, v / 2, k + 1);
      hide Add, Times;
      Bits(mat[k], a, b);
    }
    AddTwice(0, 0);
  }

  lemma Bits(m: Word, a: Word, b: Word)
    ensures Add(Add(m, a), Add(m, b)) == Add(0, Add(a, b)) && Add(Add(m, a), Add(0, b)) == Add(m, Add(a, b))
    ensures Add(Add(0, a), Add(m, b)) == Add(m, Add(a, b)) && Add(Add(0, a), Add(0, b)) == Add(0, Add(a, b))
  {
    hide *;
    AddTwice(a, m);
    AddTwice(b, m);
    AddTwice(Add(a, b), m);
    AddSwap(m, a, Add(m, b));
    AddSwap(a, m, b);
    AddSwap(m, a, b);
    AddTwice(m, Add(a, b));
    AddTwice(m, a);
    AddSwap(Add(m, a), b, m);
    AddSwap(a, m, b);
    AddTwice(m, b);
  }

  lemma {:induction false} TimesNone(mat: seq<Word>, k: nat)
    requires |mat| == 32 && k <= 32
    ensures Times(mat, 0, k) == 0
    decreases 32 - k
  {
    if k < 32 {
      TimesNone(mat, k + 1);
    }
    AddTwice(0, 0);
    hide Add;
  }

  /** `gf2_matrix_times` */
  method Gf2MatrixTimes(mat: seq<Word>, vec0: Word) returns (sum: Word)
    requires |mat| == 32
    ensures sum == Times(mat, vec0, 0)
  {
    hide *;
    Words();
    sum := 0;
    var vec: Word, k: nat := vec0, 0;
    AddTwice(Times(mat, vec, 0), 0);
    while vec != 0
      invariant k <= 32 && vec < Pow2(32 - k) && Times(mat, vec0, 0) == Add(sum, Times(mat, vec, k))
      decreases vec
    {
      HalfPow(vec, k);
      Column(mat, sum, vec, k);
      if vec % 2 == 1 {
        sum := Add(sum, mat[k]);
      }
      vec, k := vec / 2, k + 1;
    }
    TimesNone(mat, k);
    AddTwice(sum, 0);
  }

  lemma HalfPow(v: int, k: nat)
    requires 0 < v && k <= 32 && v < Pow2(32 - k)
    ensures k < 32 && v / 2 < Pow2(31 - k)
  {
  }

  lemma Column(mat: seq<Word>, sum: Word, v: Word, k: nat)
    requires |mat| == 32 && k < 32
    ensures Add(sum, Times(mat, v, k)) == Add(if v % 2 == 1 then Add(sum, mat[k]) else sum, Times(mat, v / 2, k + 1))
  {
    var t := Times(mat, v / 2, k + 1);
    hide Add;
    AddSwap(sum, mat[k], t);
    AddTwice(t, 0);
  }

  /** The matrix appends n zero bits. */
  ghost predicate Appends(mat: seq<Word>, n: nat) {
    |mat| == 32 && forall v: Word :: Times(mat, v, 0) == Steps(v, n)
  }

  ghost predicate IsSquare(sq: seq<Word>, mat: seq<Word>) {
    |sq| == |mat| == 32 && forall i :: 0 <= i < 32 ==> sq[i] == Times(mat, mat[i], 0)
  }

  lemma {:induction false} TimesSquare(sq: seq<Word>, mat: seq<Word>, v: Word, k: nat)
    requires IsSquare(sq, mat) && k <= 32
    ensures Times(sq, v, k) == Times(mat, Times(mat, v, k), 0)
    decreases 32 - k
  {
    if k == 32 {
      TimesNone(mat, 0);
    } else {
      TimesSquare(sq, mat, v / 2, k + 1);
      var b := if v % 2 == 1 then mat[k] else 0;
      TimesLinear(mat, b, Times(mat, v / 2, k + 1), 0);
      TimesNone(mat, 0);
      assert sq[k] == Times(mat, mat[k], 0);
      hide Add;
    }
  }

  /** The square of an operator does twice as much. */
  lemma Squared(sq: seq<Word>, mat: seq<Word>, n: nat)
    requires IsSquare(sq, mat) && Appends(mat, n)
    ensures Appends(sq, 2 * n)
  {
    hide *;
    SquareSizes(sq, mat);
    forall v: Word ensures Times(sq, v, 0) == Steps(v, 2 * n) {
      TimesSquare(sq, mat, v, 0);
      StepsAdd(v, n, n);
      AppendsAt(mat, n, v);
      AppendsAt(mat, n, Times(mat, v, 0));
    }
    MakeAppends(sq, 2 * n);
  }

  lemma SquareSizes(sq: seq<Word>, mat: seq<Word>)
    requires IsSquare(sq, mat)
    ensures |sq| == |mat| == 32
  {
    hide Times;
  }

  lemma MakeAppends(mat: seq<Word>, n: nat)
    requires |mat| == 32 && forall v: Word :: Times(mat, v, 0) == Steps(v, n)
    ensures Appends(mat, n)
  {
    hide Times, Steps;
  }

  /** `gf2_matrix_square` */
  method Gf2MatrixSquare(square: array<Word>, mat: array<Word>, ghost n: nat)
    requires square != mat && square.Length == mat.Length == 32 && Appends(mat[..], n)
    modifies square
    ensures Appends(square[..], 2 * n)
  {
    hide *;
    ghost var m := mat[..];
    for i := 0 to 32
      invariant forall j :: 0 <= j < i ==> square[j] == Times(m, m[j], 0)
    {
      square[i] := Gf2MatrixTimes(mat[..], mat[i]);
    }
    MakeSquare(square[..], m);
    Squared(square[..], m, n);
  }

  lemma MakeSquare(sq: seq<Word>, mat: seq<Word>)
    requires |sq| == |mat| == 32 && forall i :: 0 <= i < 32 ==> sq[i] == Times(mat, mat[i], 0)
    ensures IsSquare(sq, mat)
  {
  }

  /** Columns that shift: what is above bit k - 1 comes down to it. */
  lemma {:induction false} TimesShift(mat: seq<Word>, u: Word, k: nat)
    requires |mat| == 32 && 1 <= k <= 32 && u < Pow2(32 - k)
    requires forall n :: 1 <= n < 32 ==> mat[n] == Up(1, n - 1)
    ensures Times(mat, u, k) == Up(u, k - 1)
    decreases 32 - k
  {
    if k == 32 {
      ZeroUp(31);
    } else {
      TimesShift(mat, u / 2, k + 1);
      hide Times;
      TimesNext(mat, u, k);
      UpSum(u % 2, 2 * (u / 2), k - 1);
      UpUp(u / 2, 1, k - 1);
      ZeroUp(k - 1);
      UpOne(k - 1);
      XorApart(Up(u % 2, k - 1), u / 2, k);
      hide Xor;
    }
  }

  lemma TimesNext(mat: seq<Word>, v: Word, k: nat)
    requires |mat| == 32 && k < 32
    ensures Times(mat, v, k) == Add(if v % 2 == 1 then mat[k] else 0, Times(mat, v / 2, k + 1))
  {
  }

  /** The operator for one zero bit. */
  lemma OneBit(mat: seq<Word>)
    requires |mat| == 32 && mat[0] == POLY && forall n :: 1 <= n < 32 ==> mat[n] == Up(1, n - 1)
    ensures Appends(mat, 1)
  {
    forall v: Word ensures Times(mat, v, 0) == Steps(v, 1) {
      Words();
      TimesShift(mat, v / 2, 1);
      TimesNext(mat, v, 0);
      StepsNext(v, 1);
      NoSteps(if v % 2 == 1 then Add(POLY, v / 2) else v / 2);
      AddTwice(v / 2, 0);
      hide Times, Steps, Add;
    }
    hide Times, Steps;
  }

  /** Appending n zero bits by squaring, in the terms of the loop. */
  lemma HalfWay(c: Word, h: nat, len: nat)
    ensures Steps(c, 2 * h * len) == Steps(if len % 2 == 1 then Steps(c, 2 * h) else c, 2 * (2 * h) * (len / 2))
  {
    hide *;
    var q := len / 2;
    assert 2 * h * (2 * q) == 2 * (2 * h) * q;
    if len % 2 == 1 {
      assert 2 * h * len == 2 * h + 2 * h * (2 * q);
      StepsAdd(c, 2 * h, 2 * h * (2 * q));
    }
  }

  /** One round of `crc32_combine`: the operator squared, and applied if the bit of the length is set. */
  method CombineRound(to: array<Word>, from: array<Word>, crc: Word, len: nat, ghost h: nat) returns (r: Word)
    requires to != from && to.Length == from.Length == 32 && Appends(from[..], h)
    modifies to
    ensures Appends(to[..], 2 * h) && Steps(crc, 2 * h * len) == Steps(r, 2 * (2 * h) * (len / 2))
  {
    hide *;
    Gf2MatrixSquare(to, from, h);
    HalfWay(crc, h, len);
    r := crc;
    if len % 2 == 1 {
      AppendsAt(to[..], 2 * h, crc);
      r := Gf2MatrixTimes(to[..], crc);
    }
  }

  lemma AppendsAt(mat: seq<Word>, n: nat, v: Word)
    requires Appends(mat, n)
    ensures |mat| == 32 && Times(mat, v, 0) == Steps(v, n)
  {
    hide Times, Steps;
  }

  /** The checksum of two strings from theirs: the first has the zeros of the second's length appended. */
  lemma Combined(a: seq<Byte>, b: seq<Byte>)
    ensures Checksum(a + b) == Add(Steps(Checksum(a), 8 * |b|), Checksum(b))
  {
    RegisterAppend(ONES, a, b);
    RegisterSum(Checksum(a), ONES, b);
    hide Register, Steps, Add;
    var r, t := Register(ONES, a), Steps(Checksum(a), 8 * |b|);
    AddTwice(r, ONES);
    AddSwap(t, Register(ONES, b), ONES);
  }

  /** The register is linear in its start: zeros for the part that the bytes do not meet. */
  lemma {:induction false} RegisterSum(c: Word, d: Word, s: seq<Byte>)
    ensures Register(Add(c, d), s) == Add(Steps(c, 8 * |s|), Register(d, s))
    decreases |s|
  {
    hide *;
    if s == [] {
      NoSteps(c);
      RegisterNone(d);
      RegisterNone(Add(c, d));
    } else {
      ByteStepIs(Add(c, d), s[0]);
      ByteStepIs(d, s[0]);
      RegisterOne(Add(c, d), s);
      RegisterOne(d, s);
      RegisterSum(Steps(c, 8), ByteStep(d, s[0]), s[1..]);
      AddSwap(c, d, s[0]);
      StepsLinear(c, Add(d, s[0]), 8);
      StepsAdd(c, 8, 8 * |s[1..]|);
      assert 8 + 8 * |s[1..]| == 8 * |s|;
    }
  }

  /** `crc32_combine`: from the checksums of two strings, that of one after the other. */
  method Crc32Combine(crc1: Word, crc2: Word, len2: nat) returns (r: Word)
    ensures forall a, b :: crc1 == Checksum(a) && crc2 == Checksum(b) && len2 == |b| ==> r == Checksum(a + b)
  {
    hide *;
    if len2 == 0 {
      forall a, b | crc1 == Checksum(a) && crc2 == Checksum(b) && len2 == |b| ensures crc1 == Checksum(a + b) {
        assert b == [] && a + b == a;
      }
      return crc1;
    }
    var even, odd := new Word[32](i => 0), new Word[32](i => 0);
    odd[0] := POLY;
    var row := 1;
    UpNone();
    for n := 1 to 32
      invariant odd[0] == POLY && (n < 32 ==> row == Up(1, n - 1)) && forall i :: 1 <= i < n ==> odd[i] == Up(1, i - 1)
    {
      RowFits(n);
      odd[n] := row;
      row := row * 2;
    }
    OneBit(odd[..]);
    Gf2MatrixSquare(even, odd, 1);
    Gf2MatrixSquare(odd, even, 2);
    var c, len := crc1, len2;
    ghost var h := 4;
    while true
      invariant Appends(odd[..], h) && len > 0 && Steps(crc1, 8 * len2) == Steps(c, 2 * h * len)
      decreases len
    {
      c := CombineRound(even, odd, c, len, h);
      len, h := len / 2, 2 * h;
      if len == 0 {
        break;
      }
      c := CombineRound(odd, even, c, len, h);
      len, h := len / 2, 2 * h;
      if len == 0 {
        break;
      }
    }
    NoSteps(c);
    r := Add(c, crc2);
    forall a, b | crc1 == Checksum(a) && crc2 == Checksum(b) && len2 == |b| ensures r == Checksum(a + b) {
      Combined(a, b);
    }
  }

  lemma UpNone()
    ensures Up(1, 0) == 1
  {
  }

  lemma RowFits(n: nat)
    requires 1 <= n < 32
    ensures 0 <= Up(1, n - 1) < 0x1_0000_0000 && 2 * Up(1, n - 1) == Up(1, n)
  {
    Words();
    UpOne(n - 1);
    Pow2Mono(n - 1, 31);
  }

  // ----- the residue

  function Plus(v: bv32, w: bv32): bv32 {
    v ^ w
  }

  function Half(w: bv32): bv32 {
    w >> 1
  }

  predicate Odd(w: bv32) {
    w & 1 == 1
  }

  /** The number that the lowest n bits of a word make. */
  function Bits32(w: bv32, n: nat): (r: nat) {
    if n == 0 then 0 else (if Odd(w) then 1 else 0) + 2 * Bits32(Half(w), n - 1)
  }

  lemma PlusHalf(v: bv32, w: bv32)
    ensures Half(Plus(v, w)) == Plus(Half(v), Half(w)) && Odd(Plus(v, w)) == (Odd(v) != Odd(w))
  {
  }

  lemma {:induction false} BitsBound(w: bv32, n: nat)
    ensures Bits32(w, n) < Pow2(n)
  {
    if n > 0 {
      BitsBound(Half(w), n - 1);
    }
  }

  /** All 32 bits. */
  function Number(w: bv32): Word {
    Words();
    BitsBound(w, 32);
    Bits32(w, 32)
  }

  function Down(w: bv32, n: nat): bv32
    decreases n
  {
    if n == 0 then w else Down(Half(w), n - 1)
  }

  function By4(w: bv32): bv32 {
    w >> 4
  }

  lemma FourHalves(w: bv32)
    ensures Half(Half(Half(Half(w)))) == By4(w)
  {
  }

  lemma DownFour(w: bv32, n: nat)
    ensures Down(w, n + 4) == Down(By4(w), n)
  {
    hide Half, By4, Down;
    FourHalves(w);
    DownNext(w, n + 3);
    DownNext(Half(w), n + 2);
    DownNext(Half(Half(w)), n + 1);
    DownNext(Half(Half(Half(w))), n);
  }

  lemma DownNext(w: bv32, n: nat)
    ensures Down(w, n + 1) == Down(Half(w), n) && Down(w, 0) == w
  {
    hide Half;
  }

  lemma EightFours(w: bv32)
    ensures By4(By4(By4(By4(By4(By4(By4(By4(w)))))))) == 0
  {
  }

  lemma DownAll(w: bv32)
    ensures Down(w, 32) == 0
  {
    hide *;
    DownFour(w, 28);
    var w1 := By4(w);
    DownFour(w1, 24);
    var w2 := By4(w1);
    DownFour(w2, 20);
    var w3 := By4(w2);
    DownFour(w3, 16);
    var w4 := By4(w3);
    DownFour(w4, 12);
    var w5 := By4(w4);
    DownFour(w5, 8);
    var w6 := By4(w5);
    DownFour(w6, 4);
    var w7 := By4(w6);
    DownFour(w7, 0);
    DownNext(By4(w7), 0);
    EightFours(w);
  }

  lemma {:induction false} ZeroAbove(w: bv32, n: nat)
    requires Down(w, n) == 0
    ensures Bits32(w, n + 1) == Bits32(w, n)
    decreases n
  {
    if n == 0 {
      assert !Odd(w);
    } else {
      ZeroAbove(Half(w), n - 1);
    }
  }

  /** The register on words of bits. */
  function BitStep32(c: bv32): bv32 {
    if Odd(c) then Plus(0xedb88320, Half(c)) else Half(c)
  }

  function Steps32(c: bv32, n: nat): bv32
    decreases n
  {
    if n == 0 then c else Steps32(BitStep32(c), n - 1)
  }

  lemma NumberHalf(c: bv32)
    ensures Number(Half(c)) == Number(c) / 2 && (Number(c) % 2 == 1 <==> Odd(c))
  {
    hide *;
    DownAll(c);
    DownNext(c, 31);
    ZeroAbove(Half(c), 31);
    NumberIs(c);
    NumberIs(Half(c));
    BitsNext(c, 31);
  }

  lemma NumberIs(c: bv32)
    ensures Number(c) == Bits32(c, 32)
  {
    hide Bits32;
  }

  lemma BitsNext(w: bv32, n: nat)
    ensures Bits32(w, n + 1) == (if Odd(w) then 1 else 0) + 2 * Bits32(Half(w), n) && Bits32(w, 0) == 0
  {
    hide Odd, Half;
  }

  /** The number of the lowest four bits. */
  function Nibble(w: bv32): nat {
    (if w & 1 == 0 then 0 else 1) + (if w & 2 == 0 then 0 else 2) + (if w & 4 == 0 then 0 else 4)
    + (if w & 8 == 0 then 0 else 8)
  }

  lemma NibbleIs(w: bv32)
    ensures Nibble(w) == (if Odd(w) then 1 else 0) + (if Odd(Half(w)) then 2 else 0)
                         + (if Odd(Half(Half(w))) then 4 else 0) + (if Odd(Half(Half(Half(w)))) then 8 else 0)
  {
  }

  lemma FourBits(w: bv32, n: nat)
    ensures Bits32(w, n + 4) == Nibble(w) + 16 * Bits32(By4(w), n)
  {
    hide *;
    NibbleIs(w);
    FourHalves(w);
    BitsNext(w, n + 3);
    BitsNext(Half(w), n + 2);
    BitsNext(Half(Half(w)), n + 1);
    BitsNext(Half(Half(Half(w))), n);
  }

  lemma PolyNibbles()
    ensures By4(0xedb88320) == 0xedb8832 && By4(0xedb8832) == 0xedb883 && By4(0xedb883) == 0xedb88
    ensures By4(0xedb88) == 0xedb8 && By4(0xedb8) == 0xedb && By4(0xedb) == 0xed && By4(0xed) == 0xe
    ensures Nibble(0xedb88320) == 0 && Nibble(0xedb8832) == 2 && Nibble(0xedb883) == 3 && Nibble(0xedb88) == 8
    ensures Nibble(0xedb8) == 8 && Nibble(0xedb) == 11 && Nibble(0xed) == 13 && Nibble(0xe) == 14
  {
  }

  lemma PolyNumber()
    ensures Number(0xedb88320) == POLY
  {
    hide Number, Bits32, Nibble, By4;
    PolyNibbles();
    NumberIs(0xedb88320);
    FourBits(0xedb88320, 28);
    FourBits(0xedb8832, 24);
    FourBits(0xedb883, 20);
    FourBits(0xedb88, 16);
    FourBits(0xedb8, 12);
    FourBits(0xedb, 8);
    FourBits(0xed, 4);
    FourBits(0xe, 0);
    BitsNext(By4(0xe), 0);
  }

  lemma BitStepIs(c: bv32)
    ensures Number(BitStep32(c)) == BitStep(Number(c))
  {
    hide Number, Half, Odd, Plus, Xor;
    NumberHalf(c);
    PolyNumber();
    NumberPlus(0xedb88320, Half(c));
  }

  lemma {:induction false} PlusBits(v: bv32, w: bv32, n: nat)
    ensures Bits32(Plus(v, w), n) == Xor(Bits32(v, n), Bits32(w, n))
    decreases n
  {
    hide *;
    if n == 0 {
      BitsNext(v, 0);
      BitsNext(w, 0);
      BitsNext(Plus(v, w), 0);
      XorNone(0);
    } else {
      PlusHalf(v, w);
      PlusBits(Half(v), Half(w), n - 1);
      BitsNext(v, n - 1);
      BitsNext(w, n - 1);
      BitsNext(Plus(v, w), n - 1);
      var a, b := Bits32(Half(v), n - 1), Bits32(Half(w), n - 1);
      XorStep(Bits32(v, n), Bits32(w, n));
      HalfOf(if Odd(v) then 1 else 0, a);
      HalfOf(if Odd(w) then 1 else 0, b);
    }
  }

  lemma HalfOf(bit: nat, a: nat)
    requires bit < 2
    ensures (bit + 2 * a) / 2 == a && (bit + 2 * a) % 2 == bit
  {
  }

  lemma NumberPlus(v: bv32, w: bv32)
    ensures Number(Plus(v, w)) == Add(Number(v), Number(w))
  {
    hide Plus, Xor, Bits32;
    PlusBits(v, w, 32);
  }

  lemma {:induction false} StepsAre(c: bv32, n: nat)
    ensures Number(Steps32(c, n)) == Steps(Number(c), n)
    decreases n
  {
    hide Number, BitStep32, BitStep;
    if n > 0 {
      BitStepIs(c);
      StepsAre(BitStep32(c), n - 1);
    }
  }

  lemma {:induction false} Steps32Add(c: bv32, m: nat, n: nat)
    ensures Steps32(c, m + n) == Steps32(Steps32(c, m), n)
    decreases m
  {
    hide BitStep32;
    if m > 0 {
      Steps32Add(BitStep32(c), m - 1, n);
    }
  }

  lemma EightSteps()
    ensures Steps32(0xffffffff, 8) == 0x2dfd1072 && Steps32(0x2dfd1072, 8) == 0xbe26ed00
  {
  }

  lemma MoreSteps()
    ensures Steps32(0xbe26ed00, 8) == 0xbe26ed && Steps32(0xbe26ed, 8) == 0xdebb20e3
  {
  }

  lemma AllSteps()
    ensures Steps32(0xffffffff, 32) == 0xdebb20e3
  {
    hide *;
    EightSteps();
    MoreSteps();
    Steps32Add(0xffffffff, 8, 8);
    Steps32Add(0xffffffff, 16, 8);
    Steps32Add(0xffffffff, 24, 8);
  }

  lemma OnesNumber()
    ensures Number(0xffffffff) == ONES
  {
    hide Number, Bits32, Nibble, By4;
    OnesNibbles();
    NumberIs(0xffffffff);
    FourBits(0xffffffff, 28);
    FourBits(0xfffffff, 24);
    FourBits(0xffffff, 20);
    FourBits(0xfffff, 16);
    FourBits(0xffff, 12);
    FourBits(0xfff, 8);
    FourBits(0xff, 4);
    FourBits(0xf, 0);
    BitsNext(By4(0xf), 0);
  }

  lemma OnesNibbles()
    ensures By4(0xffffffff) == 0xfffffff && By4(0xfffffff) == 0xffffff && By4(0xffffff) == 0xfffff
    ensures By4(0xfffff) == 0xffff && By4(0xffff) == 0xfff && By4(0xfff) == 0xff && By4(0xff) == 0xf
    ensures Nibble(0xffffffff) == Nibble(0xfffffff) == Nibble(0xffffff) == Nibble(0xfffff) == Nibble(0xffff) == 15
    ensures Nibble(0xfff) == Nibble(0xff) == Nibble(0xf) == 15
  {
  }

  lemma ResidueNumber()
    ensures Number(Plus(0xdebb20e3, 0xffffffff)) == 0x2144df1c
  {
    hide Number, Bits32, Nibble, By4;
    ResidueNibbles();
    NumberIs(0x2144df1c);
    FourBits(0x2144df1c, 28);
    FourBits(0x2144df1, 24);
    FourBits(0x2144df, 20);
    FourBits(0x2144d, 16);
    FourBits(0x2144, 12);
    FourBits(0x214, 8);
    FourBits(0x21, 4);
    FourBits(0x2, 0);
    BitsNext(By4(0x2), 0);
  }

  lemma ResidueNibbles()
    ensures Plus(0xdebb20e3, 0xffffffff) == 0x2144df1c
    ensures By4(0x2144df1c) == 0x2144df1 && By4(0x2144df1) == 0x2144df && By4(0x2144df) == 0x2144d
    ensures By4(0x2144d) == 0x2144 && By4(0x2144) == 0x214 && By4(0x214) == 0x21 && By4(0x21) == 0x2
    ensures Nibble(0x2144df1c) == 12 && Nibble(0x2144df1) == 1 && Nibble(0x2144df) == 15 && Nibble(0x2144d) == 13
    ensures Nibble(0x2144) == 4 && Nibble(0x214) == 4 && Nibble(0x21) == 1 && Nibble(0x2) == 2
  {
  }

  /** The four bytes of a word, the lowest first. */
  function Stored(c: Word): (s: seq<Byte>)
    ensures |s| == 4
  {
    var c1 := c / 0x100;
    var c2 := c1 / 0x100;
    [c % 0x100, c1 % 0x100, c2 % 0x100, c2 / 0x100]
  }

  lemma StoredLoad(c: Word)
    ensures Load(Stored(c)) == c
  {
    LoadOf(Stored(c));
  }

  /** A string followed by its own checksum has the same checksum whatever the string. */
  lemma Residue(s: seq<Byte>)
    ensures Checksum(s + Stored(Checksum(s))) == 0x2144df1c
  {
    hide *;
    var r, c := Register(ONES, s), Checksum(s);
    ChecksumIs(s);
    ChecksumIs(s + Stored(c));
    RegisterAppend(ONES, s, Stored(c));
    FourBytes(r, Stored(c));
    StoredLoad(c);
    AddTwice(r, ONES);
    AddTwice(ONES, r);
    AddSwap(r, r, ONES);
    AddTwice(r, r);
    AddTwice(ONES, 0);
    OnesNumber();
    AllSteps();
    StepsAre(0xffffffff, 32);
    NumberPlus(0xdebb20e3, 0xffffffff);
    ResidueNumber();
  }

  lemma ChecksumIs(s: seq<Byte>)
    ensures Checksum(s) == Add(Register(ONES, s), ONES)
  {
    hide Register, Add;
  }
}
