/**
 The permutations, key tables and bit selections of `des.c` in the words of FIPS 46-3. What each S-box and
 the permutation after it make of six bits stays a parameter.
 */
module DesStandard {
  import opened Des

  function Rotated(x: bv32): bv32 {
    (x << 1) | (x >> 31)
  }

  // ----- the initial permutation

  /** Bit k, from 1 on, of each of four bytes, the last byte first. */
  function Column(x: bv32, k: nat): bv32 {
    match k
    case 1 => (((x >> 7) & 1) << 3) | (((x >> 15) & 1) << 2) | (((x >> 23) & 1) << 1) | ((x >> 31) & 1)
    case 2 => (((x >> 6) & 1) << 3) | (((x >> 14) & 1) << 2) | (((x >> 22) & 1) << 1) | ((x >> 30) & 1)
    case 3 => (((x >> 5) & 1) << 3) | (((x >> 13) & 1) << 2) | (((x >> 21) & 1) << 1) | ((x >> 29) & 1)
    case 4 => (((x >> 4) & 1) << 3) | (((x >> 12) & 1) << 2) | (((x >> 20) & 1) << 1) | ((x >> 28) & 1)
    case 5 => (((x >> 3) & 1) << 3) | (((x >> 11) & 1) << 2) | (((x >> 19) & 1) << 1) | ((x >> 27) & 1)
    case 6 => (((x >> 2) & 1) << 3) | (((x >> 10) & 1) << 2) | (((x >> 18) & 1) << 1) | ((x >> 26) & 1)
    case 7 => (((x >> 1) & 1) << 3) | (((x >> 9) & 1) << 2) | (((x >> 17) & 1) << 1) | ((x >> 25) & 1)
    case _ => (((x >> 0) & 1) << 3) | (((x >> 8) & 1) << 2) | (((x >> 16) & 1) << 1) | ((x >> 24) & 1)
  }

  /** Bit k of each of the eight bytes, the last byte first. */
  function Gather8(b: Block, k: nat): bv32 {
    (Column(b.right, k) << 4) | Column(b.left, k)
  }

  function Four(a: bv32, b: bv32, c: bv32, d: bv32): bv32 {
    (a << 24) | (b << 16) | (c << 8) | d
  }

  lemma InitialLeft(b: Block)
    ensures Initial(b).left == Rotated(Four(Gather8(b, 2), Gather8(b, 4), Gather8(b, 6), Gather8(b, 8)))
  {
  }

  lemma InitialRight(b: Block)
    ensures Initial(b).right == Rotated(Four(Gather8(b, 1), Gather8(b, 3), Gather8(b, 5), Gather8(b, 7)))
  {
  }

  /**
   The bits at even places of the bytes make the left half, those at odd places the right one; both are kept rotated.
   */
  lemma InitialIs(b: Block)
    ensures
      Initial(b)
      == Block(Rotated(Four(Gather8(b, 2), Gather8(b, 4), Gather8(b, 6), Gather8(b, 8))),
               Rotated(Four(Gather8(b, 1), Gather8(b, 3), Gather8(b, 5), Gather8(b, 7))))
  {
    hide *;
    InitialLeft(b);
    InitialRight(b);
  }

  // ----- the bit selection E and the fields of the subkeys

  /** Six bits of a half: those that box i, from 0 on, is given, with one on either side of its four. */
  function Six(x: bv32, i: nat): bv32 {
    match i
    case 0 => ((x << 5) | (x >> 27)) & 0x3f
    case 1 => ((x << 9) | (x >> 23)) & 0x3f
    case 2 => ((x << 13) | (x >> 19)) & 0x3f
    case 3 => ((x << 17) | (x >> 15)) & 0x3f
    case 4 => ((x << 21) | (x >> 11)) & 0x3f
    case 5 => ((x << 25) | (x >> 7)) & 0x3f
    case 6 => ((x << 29) | (x >> 3)) & 0x3f
    case _ => ((x << 1) | (x >> 31)) & 0x3f
  }

  function Field(k: bv32, i: nat): bv32 {
    match i
    case 0 => k & 0x3f
    case 1 => (k >> 8) & 0x3f
    case 2 => (k >> 16) & 0x3f
    case _ => (k >> 24) & 0x3f
  }

  function Plus(x: bv32, y: bv32): bv32 {
    x ^ y
  }

  /** What the source gives the boxes with even numbers, and those with odd ones. */
  lemma HighFields(x: bv32, k: bv32)
    ensures
      var high := ((Rotated(x) >> 4) | (Rotated(x) << 28)) ^ k;
      && high & 0x3f == Plus(Six(x, 6), Field(k, 0)) && (high >> 8) & 0x3f == Plus(Six(x, 4), Field(k, 1))
      && (high >> 16) & 0x3f == Plus(Six(x, 2), Field(k, 2)) && (high >> 24) & 0x3f == Plus(Six(x, 0), Field(k, 3))
  {
  }

  lemma LowFields(x: bv32, k: bv32)
    ensures
      var low := Rotated(x) ^ k;
      && low & 0x3f == Plus(Six(x, 7), Field(k, 0)) && (low >> 8) & 0x3f == Plus(Six(x, 5), Field(k, 1))
      && (low >> 16) & 0x3f == Plus(Six(x, 3), Field(k, 2)) && (low >> 24) & 0x3f == Plus(Six(x, 1), Field(k, 3))
  {
  }

  lemma MangledIs(sp: Boxes, x: bv32, k0: bv32, k1: bv32)
    ensures
      Mangled(sp, Rotated(x), k0, k1)
      == sp(6, Plus(Six(x, 6), Field(k0, 0))) ^ sp(4, Plus(Six(x, 4), Field(k0, 1)))
         ^ sp(2, Plus(Six(x, 2), Field(k0, 2))) ^ sp(0, Plus(Six(x, 0), Field(k0, 3)))
         ^ sp(7, Plus(Six(x, 7), Field(k1, 0))) ^ sp(5, Plus(Six(x, 5), Field(k1, 1)))
         ^ sp(3, Plus(Six(x, 3), Field(k1, 2))) ^ sp(1, Plus(Six(x, 1), Field(k1, 3)))
  {
    hide Six, Field, Plus, Rotated;
    HighFields(x, k0);
    LowFields(x, k1);
  }

  /** Box i is given bits 6 i + 1 to 6 i + 6 of the 48 of a round. */
  lemma CookedIs(raw0: bv32, raw1: bv32)
    ensures
      var high, low := CookedHigh(raw0, raw1), CookedLow(raw0, raw1);
      && (high >> 24) & 0x3f == (raw0 >> 18) & 0x3f && (low >> 24) & 0x3f == (raw0 >> 12) & 0x3f
      && (high >> 16) & 0x3f == (raw0 >> 6) & 0x3f && (low >> 16) & 0x3f == raw0 & 0x3f
      && (high >> 8) & 0x3f == (raw1 >> 18) & 0x3f && (low >> 8) & 0x3f == (raw1 >> 12) & 0x3f
      && high & 0x3f == (raw1 >> 6) & 0x3f && low & 0x3f == raw1 & 0x3f
  {
  }

  // ----- the key schedule

  /**
   Permuted choice 1: bits 1 to 3 and half of bits 4 of the key's bytes, and bits 7, 6 and 5 and the rest of bits 4,
   the last byte first.
   */
  lemma FirstChoice(c: nat)
    requires c < 8
    ensures |PC1| == 56
    ensures PC1[c] == 56 - 8 * c && PC1[8 + c] == 57 - 8 * c && PC1[16 + c] == 58 - 8 * c
    ensures if c < 4 then PC1[24 + c] == 59 - 8 * c else PC1[48 + c] == 59 - 8 * c
    ensures PC1[28 + c] == 62 - 8 * c && PC1[36 + c] == 61 - 8 * c && PC1[44 + c] == 60 - 8 * c
  {
    FirstHalf(c);
    SecondHalf(c);
    hide PC1C, PC1D;
  }

  lemma FirstHalf(c: nat)
    requires c < 8
    ensures |PC1C| == 28 && PC1C[c] == 56 - 8 * c && PC1C[8 + c] == 57 - 8 * c && PC1C[16 + c] == 58 - 8 * c
    ensures c < 4 ==> PC1C[24 + c] == 59 - 8 * c
  {
  }

  lemma SecondHalf(c: nat)
    requires c < 8
    ensures |PC1D| == 28 && PC1D[c] == 62 - 8 * c && PC1D[8 + c] == 61 - 8 * c && PC1D[16 + c] == 60 - 8 * c
    ensures c >= 4 ==> PC1D[20 + c] == 59 - 8 * c
  {
  }

  /** Two places to the left in each round, but one in rounds 1, 2, 9 and 16. */
  lemma Shifts(i: nat)
    requires i < 16
    ensures
      |TOTROT| == 16
      && TOTROT[i] - (if i == 0 then 0 else TOTROT[i - 1]) == if i == 0 || i == 1 || i == 8 || i == 15 then 1 else 2
  {
  }

  /** Permuted choice 2 as the standard has it, six bits to a row, numbered from 1. */
  const CHOICEC: seq<nat> := [
    14, 17, 11, 24, 1, 5,
    3, 28, 15, 6, 21, 10,
    23, 19, 12, 4, 26, 8,
    16, 7, 27, 20, 13, 2
  ]

  const CHOICED: seq<nat> := [
    41, 52, 31, 37, 47, 55,
    30, 40, 51, 45, 33, 48,
    44, 49, 39, 56, 34, 53,
    46, 42, 50, 36, 29, 32
  ]

  lemma SecondChoice(i: nat)
    requires i < 24
    ensures |PC2| == 48 && |CHOICEC| == |CHOICED| == 24
    ensures PC2[i] + 1 == CHOICEC[i] <= 28 && PC2[24 + i] + 1 == CHOICED[i] > 28
  {
    ChoiceC(i);
    ChoiceD(i);
    hide PC2C, PC2D, CHOICEC, CHOICED;
  }

  lemma ChoiceC(i: nat)
    requires i < 24
    ensures |PC2C| == |CHOICEC| == 24 && PC2C[i] + 1 == CHOICEC[i] <= 28
  {
  }

  lemma ChoiceD(i: nat)
    requires i < 24
    ensures |PC2D| == |CHOICED| == 24 && PC2D[i] + 1 == CHOICED[i] > 28
  {
  }
}
