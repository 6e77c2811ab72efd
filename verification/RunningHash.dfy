/** The running hash of three bytes that heads the chains of earlier strings. */
module RunningHash {
  import opened Arith
  import opened BitOrder
  import opened DecodeTable
  import opened InflateSpec
  import opened Bitwise

  /** x and y have the same low n bits. */
  ghost predicate SameLow(x: int, y: int, n: nat)
    requires x >= 0 && y >= 0
  {
    n == 0 || (x % 2 == y % 2 && SameLow(x / 2, y / 2, n - 1))
  }

  lemma {:induction false} SameLowLess(x: int, y: int, n: nat, k: nat)
    requires x >= 0 && y >= 0 && SameLow(x, y, n) && k <= n
    ensures SameLow(x, y, k)
  {
    if k > 0 {
      SameLowLess(x / 2, y / 2, n - 1, k - 1);
    }
  }

  lemma {:induction false} SameLowXor(x: int, y: int, c: int, n: nat)
    requires x >= 0 && y >= 0 && c >= 0 && SameLow(x, y, n)
    ensures SameLow(Xor(x, c), Xor(y, c), n)
  {
    if n > 0 {
      XorStep(x, c);
      XorStep(y, c);
      SameLowXor(x / 2, y / 2, c / 2, n - 1);
    }
  }

  lemma {:induction false} SameLowUp(x: int, y: int, n: nat, k: nat)
    requires x >= 0 && y >= 0 && SameLow(x, y, n)
    ensures Up(x, k) >= 0 && Up(y, k) >= 0 && SameLow(Up(x, k), Up(y, k), n + k)
    decreases k
  {
    if k > 0 {
      SameLowUp(x, y, n, k - 1);
      assert Up(x, k) / 2 == Up(x, k - 1) && Up(y, k) / 2 == Up(y, k - 1);
    }
  }

  lemma {:induction false} SameLowRev(x: int, y: int, n: nat)
    requires x >= 0 && y >= 0
    ensures SameLow(x, y, n) <==> Rev(x, n) == Rev(y, n)
  {
    if n > 0 {
      SameLowRev(x / 2, y / 2, n - 1);
      RevFirst(x, n);
      RevFirst(y, n);
    }
  }

  lemma SameLowLow(x: int, y: int, n: nat)
    requires x >= 0 && y >= 0
    ensures SameLow(x, y, n) <==> Low(x, n) == Low(y, n)
    ensures SameLow(Low(x, n), x, n)
  {
    SameLowRev(x, y, n);
    RevRev(Rev(x, n), n);
    RevRev(Rev(y, n), n);
    SameLowRev(Low(x, n), x, n);
  }

  /** Exclusive or with x tells c and d apart, bit by bit. */
  lemma {:induction false} XorTells(x: int, c: int, d: int, n: nat)
    requires x >= 0 && c >= 0 && d >= 0 && SameLow(Xor(x, c), Xor(x, d), n)
    ensures SameLow(c, d, n)
  {
    if n > 0 {
      XorStep(x, c);
      XorStep(x, d);
      XorTells(x / 2, c / 2, d / 2, n - 1);
    }
  }

  lemma SameLowAll(x: int, y: int, n: nat)
    requires 0 <= x < Pow2(n) && 0 <= y < Pow2(n) && SameLow(x, y, n)
    ensures x == y
  {
    SameLowLow(x, y, n);
    LowAll(x, n);
    LowAll(y, n);
  }

  /** UPDATE_HASH for keys of `bits` bits. */
  function Update(h: int, c: int, shift: nat, bits: nat): (r: int)
    requires h >= 0 && c >= 0
    ensures 0 <= r < Pow2(bits)
  {
    ShrUp(h, shift);
    Low(Xor(Up(h, shift), c), bits)
  }

  function Hash3(a: Byte, b: Byte, c: Byte, shift: nat, bits: nat): (r: int)
    ensures 0 <= r < Pow2(bits)
  {
    Update(Update(Update(0, a, shift, bits), b, shift, bits), c, shift, bits)
  }

  /** Keys that agree in n bits agree in shift more after an update. */
  lemma UpdateAgrees(g: int, h: int, c: int, n: nat, shift: nat, bits: nat, k: nat)
    requires g >= 0 && h >= 0 && c >= 0 && SameLow(g, h, n) && k <= bits && k <= n + shift
    ensures SameLow(Update(g, c, shift, bits), Update(h, c, shift, bits), k)
  {
    SameLowUp(g, h, n, shift);
    SameLowLess(Up(g, shift), Up(h, shift), n + shift, k);
    var x, y := Xor(Up(g, shift), c), Xor(Up(h, shift), c);
    SameLowXor(Up(g, shift), Up(h, shift), c, k);
    SameLowLow(x, x, bits);
    SameLowLow(y, y, bits);
    SameLowLess(Low(x, bits), x, bits, k);
    SameLowLess(Low(y, bits), y, bits, k);
    SameLowVia(Low(x, bits), x, y, k);
    SameLowVia(Low(x, bits), y, Low(y, bits), k);
  }

  lemma {:induction false} SameLowVia(x: int, y: int, z: int, n: nat)
    requires x >= 0 && y >= 0 && z >= 0 && SameLow(x, y, n) && (SameLow(y, z, n) || SameLow(z, y, n))
    ensures SameLow(x, z, n)
  {
    if n > 0 {
      SameLowVia(x / 2, y / 2, z / 2, n - 1);
    }
  }

  /** The running key over two bytes: what lies further back no longer matters. */
  ghost predicate Running2(h: int, a: Byte, b: Byte, shift: nat, bits: nat) {
    h >= 0 && SameLow(h, Update(Update(0, a, shift, bits), b, shift, bits), Min(2 * shift, bits))
  }

  /** The third byte completes the key. */
  lemma ThirdByte(h: int, a: Byte, b: Byte, c: Byte, shift: nat, bits: nat)
    requires Running2(h, a, b, shift, bits) && 3 * shift >= bits
    ensures h >= 0 && Update(h, c, shift, bits) == Hash3(a, b, c, shift, bits)
    ensures Running2(Update(h, c, shift, bits), b, c, shift, bits)
  {
    var g := Update(Update(0, a, shift, bits), b, shift, bits);
    UpdateAgrees(h, g, c, Min(2 * shift, bits), shift, bits, bits);
    SameLowAll(Update(h, c, shift, bits), Update(g, c, shift, bits), bits);
    var g1 := Update(Update(0, a, shift, bits), b, shift, bits);
    var h1 := Update(0, b, shift, bits);
    SameLowZero(Update(0, a, shift, bits), 0);
    UpdateAgrees(Update(0, a, shift, bits), 0, b, 0, shift, bits, Min(shift, bits));
    UpdateAgrees(g1, h1, c, Min(shift, bits), shift, bits, Min(2 * shift, bits));
  }

  lemma SameLowZero(x: int, y: int)
    requires x >= 0 && y >= 0
    ensures SameLow(x, y, 0)
  {
  }

  /** Keys started afresh from two bytes. */
  lemma TwoBytes(a: Byte, b: Byte, shift: nat, bits: nat)
    requires bits >= 8
    ensures Running2(Update(a, b, shift, bits), a, b, shift, bits)
  {
    FirstByte(a, shift, bits);
    SameLowSelf(Update(a, b, shift, bits), Min(2 * shift, bits));
  }

  lemma FirstByte(a: Byte, shift: nat, bits: nat)
    requires bits >= 8
    ensures Update(0, a, shift, bits) == a
  {
    ZeroUp(shift);
    assert Pow2(8) == 256;
    Pow2Mono(8, bits);
    LowAll(a, bits);
  }

  lemma {:induction false} SameLowSelf(x: int, n: nat)
    requires x >= 0
    ensures SameLow(x, x, n)
  {
    if n > 0 {
      SameLowSelf(x / 2, n - 1);
    }
  }

  /** Equal keys of strings with equal first bytes have equal third bytes. */
  lemma ThirdByteTells(a: Byte, b: Byte, c: Byte, d: Byte, shift: nat, bits: nat)
    requires bits >= 8 && Hash3(a, b, c, shift, bits) == Hash3(a, b, d, shift, bits)
    ensures c == d
  {
    var g := Update(Update(0, a, shift, bits), b, shift, bits);
    ShrUp(g, shift);
    var x := Up(g, shift);
    SameLowLow(Xor(x, c), Xor(x, d), bits);
    XorTells(x, c, d, bits);
    SameLowLess(c, d, bits, 8);
    assert Pow2(8) == 256;
    SameLowAll(c, d, 8);
  }
}
