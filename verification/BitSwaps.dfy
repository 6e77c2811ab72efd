/**
 Bit reversal by masks (`bitreverse16` and `bit_reverse` in `stb_image.c`): four rounds
 that swap bits, pairs, nibbles and bytes.
 */
module BitSwaps {
  import opened Arith
  import opened Canonical
  import opened BitOrder
  import opened DecodeTable
  import opened Bitwise

  function And(a: int, b: int): (r: int)
    requires a >= 0 && b >= 0
    ensures r >= 0
    decreases a + b
  {
    if a == 0 || b == 0 then 0 else (if a % 2 == 1 && b % 2 == 1 then 1 else 0) + 2 * And(a / 2, b / 2)
  }

  // ----- bits of the results

  lemma BitNext(x: int, i: nat)
    requires x >= 0
    ensures Bit(x, 0) == x % 2 && (i > 0 ==> Bit(x, i) == Bit(x / 2, i - 1))
  {
  }

  lemma {:induction false} BitZero(i: nat)
    ensures Bit(0, i) == 0
  {
    if i > 0 {
      BitZero(i - 1);
      BitNext(0, i);
    }
  }

  lemma {:induction false} BitAnd(a: int, b: int, i: nat)
    requires a >= 0 && b >= 0
    ensures Bit(And(a, b), i) == if Bit(a, i) == 1 && Bit(b, i) == 1 then 1 else 0
    decreases i
  {
    BitZero(i);
    if a > 0 && b > 0 && i > 0 {
      BitAnd(a / 2, b / 2, i - 1);
      BitNext(a, i);
      BitNext(b, i);
      BitNext(And(a, b), i);
    }
  }

  lemma {:induction false} BitOr(a: int, b: int, i: nat)
    requires a >= 0 && b >= 0
    ensures Bit(Or(a, b), i) == if Bit(a, i) == 1 || Bit(b, i) == 1 then 1 else 0
    decreases i
  {
    BitZero(i);
    if a > 0 && b > 0 && i > 0 {
      BitOr(a / 2, b / 2, i - 1);
      BitNext(a, i);
      BitNext(b, i);
      BitNext(Or(a, b), i);
    }
  }

  lemma BitShr(x: int, k: nat, i: nat)
    requires x >= 0
    ensures Bit(Shr(x, k), i) == Bit(x, i + k)
  {
    ShrAdd(x, k, i);
  }

  lemma {:induction false} BitUp(x: int, k: nat, i: nat)
    requires x >= 0
    ensures Up(x, k) >= 0 && Bit(Up(x, k), i) == if i < k then 0 else Bit(x, i - k)
    decreases k
  {
    ShrUp(x, k);
    if k > 0 {
      ShrUp(x, k - 1);
      BitNext(Up(x, k), i);
      assert Up(x, k) / 2 == Up(x, k - 1) && Up(x, k) % 2 == 0;
      if i > 0 {
        BitUp(x, k - 1, i - 1);
      }
    }
  }

  lemma {:induction false} BitRev(x: int, n: nat, i: nat)
    requires x >= 0
    ensures Bit(Rev(x, n), i) == if i < n then Bit(x, n - 1 - i) else 0
    decreases n
  {
    if n == 0 {
      BitZero(i);
    } else {
      BitNext(Rev(x, n), i);
      assert Rev(x, n) / 2 == Rev(x, n - 1) && Rev(x, n) % 2 == Bit(x, n - 1);
      if i > 0 {
        BitRev(x, n - 1, i - 1);
      }
    }
  }

  /** Numbers with the same bits are the same. */
  lemma {:induction false} SameBits(x: int, y: int, n: nat)
    requires 0 <= x < Pow2(n) && 0 <= y < Pow2(n) && forall i: nat :: i < n ==> Bit(x, i) == Bit(y, i)
    ensures x == y
  {
    if n > 0 {
      forall i: nat | i < n - 1 ensures Bit(x / 2, i) == Bit(y / 2, i) {
        BitNext(x, i + 1);
        BitNext(y, i + 1);
        assert Bit(x, i + 1) == Bit(y, i + 1);
      }
      BitNext(x, 0);
      BitNext(y, 0);
      assert Bit(x, 0) == Bit(y, 0);
      SameBits(x / 2, y / 2, n - 1);
    }
  }

  // ----- the masks

  /** Bit i of a mask of alternating blocks of w bits, the upper ones set. */
  function Alternating(i: nat, w: nat): int
    requires w > 0
  {
    if i / w % 2 == 1 && i < 16 then 1 else 0
  }

  lemma {:induction false} HighBits(m: int, n: nat, i: nat)
    requires 0 <= m < Pow2(n) && i >= n
    ensures Bit(m, i) == 0
  {
    if n == 0 {
      BitZero(i);
    } else {
      BitNext(m, i);
      HighBits(m / 2, n - 1, i - 1);
    }
  }

  lemma MaskBits(i: nat)
    ensures Bit(0xAAAA, i) == Alternating(i, 1) && Bit(0xCCCC, i) == Alternating(i, 2)
    ensures Bit(0xF0F0, i) == Alternating(i, 4) && Bit(0xFF00, i) == Alternating(i, 8)
    ensures i < 16 ==> Bit(0x5555, i) == 1 - Alternating(i, 1) && Bit(0x3333, i) == 1 - Alternating(i, 2)
    ensures i < 16 ==> Bit(0x0F0F, i) == 1 - Alternating(i, 4) && Bit(0x00FF, i) == 1 - Alternating(i, 8)
    ensures i >= 16 ==> Bit(0x5555, i) == Bit(0x3333, i) == Bit(0x0F0F, i) == Bit(0x00FF, i) == 0
  {
    if i >= 16 {
      Sixteen();
      HighBits(0xAAAA, 16, i);
      HighBits(0xCCCC, 16, i);
      HighBits(0xF0F0, 16, i);
      HighBits(0xFF00, 16, i);
      HighBits(0x5555, 16, i);
      HighBits(0x3333, 16, i);
      HighBits(0x0F0F, 16, i);
      HighBits(0x00FF, 16, i);
    } else {
      LowMasks(i);
    }
  }

  lemma Sixteen()
    ensures Pow2(16) == 0x1_0000
  {
    assert Pow2(8) == 256;
    Pow2Add(8, 8);
  }

  /** A bit of a number of four nibbles is a bit of a nibble. */
  lemma NibbleBit(m: int, a: int, b: int, c: int, d: int, i: nat)
    requires 0 <= a < 16 && 0 <= b < 16 && 0 <= c < 16 && 0 <= d < 16 && m == a + 16 * (b + 16 * (c + 16 * d)) && i < 16
    ensures Bit(m, i) == Bit(if i < 4 then a else if i < 8 then b else if i < 12 then c else d, i % 4)
  {
    hide *;
    var y := c + 16 * d;
    var x := b + 16 * y;
    LowNibble(m, a, x, i);
    if i >= 4 {
      LowNibble(x, b, y, i - 4);
      if i >= 8 {
        LowNibble(y, c, d, i - 8);
      }
    }
  }

  lemma LowNibble(m: int, a: int, x: int, i: nat)
    requires 0 <= a < 16 && x >= 0 && m == a + 16 * x
    ensures Bit(m, i) == if i < 4 then Bit(a, i) else Bit(x, i - 4)
  {
    hide *;
    FourHalves(m, a, x);
    if i < 4 {
      BitRev(m, 4, 3 - i);
      BitRev(Rev(m, 4), 4, i);
    } else {
      BitShr(m, 4, i - 4);
    }
  }

  lemma FourHalves(m: int, a: int, x: int)
    requires 0 <= a < 16 && x >= 0 && m == a + 16 * x
    ensures Shr(m, 4) == x && Rev(m, 4) >= 0 && Rev(Rev(m, 4), 4) == a
  {
    assert Up(x, 1) == 2 * x;
    assert Up(x, 3) == 8 * x;
    assert Up(x, 4) == 16 * x && Pow2(4) == 16;
    hide Rev, Shr, Up;
    LowJoin(a, x, 4);
  }

  lemma NibbleMasks(r: nat)
    requires r < 4
    ensures Bit(10, r) == r % 2 && Bit(5, r) == 1 - r % 2 && Bit(12, r) == r / 2 && Bit(3, r) == 1 - r / 2
    ensures Bit(15, r) == 1 && Bit(0, r) == 0
  {
    if r == 0 { } else if r == 1 { } else if r == 2 { } else { assert r == 3; }
  }

  lemma LowMasks(i: nat)
    requires i < 16
    ensures Bit(0xAAAA, i) == Alternating(i, 1) == 1 - Bit(0x5555, i)
            && Bit(0xCCCC, i) == Alternating(i, 2) == 1 - Bit(0x3333, i)
    ensures Bit(0xF0F0, i) == Alternating(i, 4) == 1 - Bit(0x0F0F, i)
            && Bit(0xFF00, i) == Alternating(i, 8) == 1 - Bit(0x00FF, i)
  {
    hide Bit;
    NibbleMasks(i % 4);
    NibbleBit(0xAAAA, 10, 10, 10, 10, i);
    NibbleBit(0x5555, 5, 5, 5, 5, i);
    NibbleBit(0xCCCC, 12, 12, 12, 12, i);
    NibbleBit(0x3333, 3, 3, 3, 3, i);
    NibbleBit(0xF0F0, 0, 15, 0, 15, i);
    NibbleBit(0x0F0F, 15, 0, 15, 0, i);
    NibbleBit(0xFF00, 0, 0, 15, 15, i);
    NibbleBit(0x00FF, 15, 15, 0, 0, i);
  }

  // ----- the reversal

  /** One round: blocks of w bits change places. */
  ghost predicate Exchanged(n: int, m: int, w: nat) {
    && w > 0 && n >= 0 && 0 <= m < 0x1_0000
    && forall i: nat :: i < 16 ==> Bit(m, i) == Bit(n, Partner(i, w))
  }

  /** Where the bit at place i comes from. */
  function Partner(i: nat, w: nat): (j: nat)
    requires w > 0
  {
    assert i / w % 2 != 0 ==> i >= w;
    if i / w % 2 == 0 then i + w else i - w
  }

  function Swapped(n: int, w: nat, high: int, low: int): (m: int)
    requires n >= 0 && high >= 0 && low >= 0
    ensures m >= 0
  {
    ShrUp(And(n, low), w);
    Or(Shr(And(n, high), w), Up(And(n, low), w))
  }

  ghost predicate Masks(high: int, low: int, w: nat) {
    && 0 <= high < 0x1_0000 && 0 <= low < 0x1_0000 && w in {1, 2, 4, 8}
    && forall i: nat :: Bit(high, i) == Alternating(i, w) && Bit(low, i) == if i < 16 then 1 - Alternating(i, w) else 0
  }

  lemma Exchange(n: int, w: nat, high: int, low: int)
    requires n >= 0 && Masks(high, low, w)
    ensures Exchanged(n, Swapped(n, w, high, low), w)
  {
    var m := Swapped(n, w, high, low);
    forall i: nat ensures Bit(m, i) == if i >= 16 then 0 else Bit(n, Partner(i, w)) {
      OneBit(n, w, high, low, i);
    }
    hide Bit, Swapped, Partner, Masks;
    FewBits(m, 16);
    Sixteen();
  }

  lemma OneBit(n: int, w: nat, high: int, low: int, i: nat)
    requires n >= 0 && Masks(high, low, w)
    ensures Bit(Swapped(n, w, high, low), i) == if i >= 16 then 0 else Bit(n, Partner(i, w))
  {
    hide *;
    MaskAt(high, low, w, i);
    var x, y := And(n, high), And(n, low);
    BitUp(y, w, i);
    BitOr(Shr(x, w), Up(y, w), i);
    SwappedIs(n, w, high, low);
    BitShr(x, w, i);
    BitAnd(n, high, i + w);
    MaskAt(high, low, w, i + w);
    if i >= w {
      BitAnd(n, low, i - w);
      MaskAt(high, low, w, i - w);
    }
    Blocks(i, w);
  }

  lemma SwappedIs(n: int, w: nat, high: int, low: int)
    requires n >= 0 && high >= 0 && low >= 0
    ensures Up(And(n, low), w) >= 0 && Swapped(n, w, high, low) == Or(Shr(And(n, high), w), Up(And(n, low), w))
  {
    ShrUp(And(n, low), w);
  }

  lemma MaskAt(high: int, low: int, w: nat, i: nat)
    requires Masks(high, low, w)
    ensures high >= 0 && low >= 0 && w > 0 && w in {1, 2, 4, 8}
    ensures Bit(high, i) == Alternating(i, w) && Bit(low, i) == if i < 16 then 1 - Alternating(i, w) else 0
  {
    hide Bit;
  }

  lemma Blocks(i: nat, w: nat)
    requires w in {1, 2, 4, 8}
    ensures i / w % 2 == 0 ==> (Alternating(i + w, w) == if i < 16 then 1 else 0) && Partner(i, w) == i + w
    ensures i / w % 2 == 0 && i >= w ==> Alternating(i - w, w) == if i - w < 16 then 1 else 0
    ensures i / w % 2 == 1 ==> i >= w && Alternating(i + w, w) == 0 && Alternating(i - w, w) == 0
                               && Partner(i, w) == i - w
    ensures i >= 16 && i >= w && i - w < 16 ==> i / w % 2 == 0
  {
    if w == 1 { } else if w == 2 { } else if w == 4 { } else { assert w == 8; }
  }

  /** No bits from n on. */
  lemma {:induction false} FewBits(m: int, n: nat)
    requires m >= 0 && forall i: nat :: i >= n ==> Bit(m, i) == 0
    ensures m < Pow2(n)
    decreases m, n
  {
    if m > 0 {
      BitNext(m, 0);
      if n == 0 {
        assert Bit(m, 0) == 0;
        forall i: nat ensures Bit(m / 2, i) == 0 {
          BitNext(m, i + 1);
          assert Bit(m, i + 1) == 0;
        }
        FewBits(m / 2, 0);
      } else {
        forall i: nat | i >= n - 1 ensures Bit(m / 2, i) == 0 {
          BitNext(m, i + 1);
          assert Bit(m, i + 1) == 0;
        }
        FewBits(m / 2, n - 1);
      }
    }
  }

  /** Swapping bits, pairs, nibbles and bytes turns the bits round. */
  lemma FourRounds(n: int, a: int, b: int, c: int, d: int)
    requires Exchanged(n, a, 1) && Exchanged(a, b, 2) && Exchanged(b, c, 4) && Exchanged(c, d, 8)
    ensures n >= 0 && d == Rev(n, 16)
  {
    Sixteen();
    forall i: nat | i < 16 ensures Bit(d, i) == Bit(Rev(n, 16), i) {
      BitRev(n, 16, i);
      Turned(n, a, b, c, d, i);
    }
    hide Exchanged, Bit;
    SameBits(d, Rev(n, 16), 16);
  }

  lemma Turned(n: int, a: int, b: int, c: int, d: int, i: nat)
    requires Exchanged(n, a, 1) && Exchanged(a, b, 2) && Exchanged(b, c, 4) && Exchanged(c, d, 8) && i < 16
    ensures n >= 0 && d >= 0 && Bit(d, i) == Bit(n, 15 - i)
  {
    hide *;
    var j, k, l := Partner(i, 8), Partner(Partner(i, 8), 4), Partner(Partner(Partner(i, 8), 4), 2);
    Places(i);
    ExchangedAt(c, d, 8, i);
    ExchangedAt(b, c, 4, j);
    ExchangedAt(a, b, 2, k);
    ExchangedAt(n, a, 1, l);
  }

  lemma ExchangedAt(n: int, m: int, w: nat, i: nat)
    requires Exchanged(n, m, w) && i < 16
    ensures n >= 0 && m >= 0 && w > 0 && Bit(m, i) == Bit(n, Partner(i, w))
  {
    hide Bit, Partner;
  }

  lemma Places(i: nat)
    requires i < 16
    ensures Partner(i, 8) < 16 && Partner(Partner(i, 8), 4) < 16 && Partner(Partner(Partner(i, 8), 4), 2) < 16
    ensures Partner(Partner(Partner(Partner(i, 8), 4), 2), 1) == 15 - i
  {
    if i >= 8 {
      if i >= 12 {
        if i == 12 { } else if i == 13 { } else if i == 14 { } else { assert i == 15; }
      } else {
        if i == 8 { } else if i == 9 { } else if i == 10 { } else { assert i == 11; }
      }
    } else {
      if i >= 4 {
        if i == 4 { } else if i == 5 { } else if i == 6 { } else { assert i == 7; }
      } else {
        if i == 0 { } else if i == 1 { } else if i == 2 { } else { assert i == 3; }
      }
    }
  }

  lemma AllMasks()
    ensures Masks(0xAAAA, 0x5555, 1) && Masks(0xCCCC, 0x3333, 2) && Masks(0xF0F0, 0x0F0F, 4) && Masks(0xFF00, 0x00FF, 8)
  {
    hide Bit, Alternating;
    forall i: nat
      ensures Bit(0xAAAA, i) == Alternating(i, 1) && Bit(0x5555, i) == if i < 16 then 1 - Alternating(i, 1) else 0
      ensures Bit(0xCCCC, i) == Alternating(i, 2) && Bit(0x3333, i) == if i < 16 then 1 - Alternating(i, 2) else 0
      ensures Bit(0xF0F0, i) == Alternating(i, 4) && Bit(0x0F0F, i) == if i < 16 then 1 - Alternating(i, 4) else 0
      ensures Bit(0xFF00, i) == Alternating(i, 8) && Bit(0x00FF, i) == if i < 16 then 1 - Alternating(i, 8) else 0
    {
      MaskBits(i);
    }
  }

  /** `bitreverse16`: the low sixteen bits, reversed. */
  method BitReverse16(n0: int) returns (n: int)
    requires n0 >= 0
    ensures n == Rev(n0, 16)
  {
    hide *;
    AllMasks();
    Exchange(n0, 1, 0xAAAA, 0x5555);
    n := Swapped(n0, 1, 0xAAAA, 0x5555);
    ghost var a := n;
    Exchange(n, 2, 0xCCCC, 0x3333);
    n := Swapped(n, 2, 0xCCCC, 0x3333);
    ghost var b := n;
    Exchange(n, 4, 0xF0F0, 0x0F0F);
    n := Swapped(n, 4, 0xF0F0, 0x0F0F);
    ghost var c := n;
    Exchange(n, 8, 0xFF00, 0x00FF);
    n := Swapped(n, 8, 0xFF00, 0x00FF);
    FourRounds(n0, a, b, c, n);
  }

  /** `bit_reverse`: the low bits reversed, by way of sixteen. */
  method BitReverse(v: int, bits: nat) returns (r: int)
    requires v >= 0 && bits <= 16
    ensures r == Rev(v, bits)
  {
    var n := BitReverse16(v);
    RevPrefix(v, 16, bits);
    r := Shr(n, 16 - bits);
  }
}
