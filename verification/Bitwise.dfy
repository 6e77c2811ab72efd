/** Operations on numbers bit by bit. */
module Bitwise {
  import opened Arith
  import opened DecodeTable

  function Xor(a: int, b: int): (r: int)
    requires a >= 0 && b >= 0
    ensures r >= 0
    decreases a + b
  {
    if a == 0 then b else if b == 0 then a
    else (if a % 2 == b % 2 then 0 else 1) + 2 * Xor(a / 2, b / 2)
  }

  lemma XorStep(a: int, b: int)
    requires a >= 0 && b >= 0
    ensures Xor(a, b) % 2 == (if a % 2 == b % 2 then 0 else 1) && Xor(a, b) / 2 == Xor(a / 2, b / 2)
  {
    if a == 0 || b == 0 {
      assert Xor(a / 2, b / 2) == a / 2 + b / 2;
    }
  }

  lemma {:induction false} XorComm(a: int, b: int)
    requires a >= 0 && b >= 0
    ensures Xor(a, b) == Xor(b, a)
    decreases a + b
  {
    if a > 0 && b > 0 {
      XorComm(a / 2, b / 2);
    }
  }

  lemma {:induction false} XorAssoc(a: int, b: int, c: int)
    requires a >= 0 && b >= 0 && c >= 0
    ensures Xor(Xor(a, b), c) == Xor(a, Xor(b, c))
    decreases a + b + c
  {
    if a > 0 && b > 0 && c > 0 {
      XorAssoc(a / 2, b / 2, c / 2);
      XorStep(a, b);
      XorStep(b, c);
      XorStep(Xor(a, b), c);
      XorStep(a, Xor(b, c));
    }
  }

  /** The last of three may come before the second. */
  lemma XorSwap(a: int, b: int, c: int)
    requires a >= 0 && b >= 0 && c >= 0
    ensures Xor(Xor(a, b), c) == Xor(Xor(a, c), b)
  {
    hide *;
    XorAssoc(a, b, c);
    XorAssoc(a, c, b);
    XorComm(b, c);
  }

  lemma {:induction false} XorSelf(a: int)
    requires a >= 0
    ensures Xor(a, a) == 0
  {
    if a > 0 {
      XorSelf(a / 2);
    }
  }

  lemma XorNone(a: int)
    requires a >= 0
    ensures Xor(a, 0) == a == Xor(0, a)
  {
  }

  /** What is added twice is gone. */
  lemma XorTwice(a: int, b: int)
    requires a >= 0 && b >= 0
    ensures Xor(Xor(a, b), b) == a
  {
    hide *;
    XorAssoc(a, b, b);
    XorSelf(b);
    XorNone(a);
  }

  lemma {:induction false} XorBound(a: int, b: int, n: nat)
    requires 0 <= a < Pow2(n) && 0 <= b < Pow2(n)
    ensures 0 <= Xor(a, b) < Pow2(n)
    decreases n
  {
    if n > 0 {
      XorStep(a, b);
      XorBound(a / 2, b / 2, n - 1);
    }
  }

  /** Bits that do not overlap add up. */
  lemma {:induction false} XorApart(a: int, b: int, k: nat)
    requires 0 <= a < Pow2(k) && b >= 0
    ensures Up(b, k) >= 0 && Xor(a, Up(b, k)) == a + Up(b, k)
    decreases k
  {
    ShrUp(b, k);
    if k > 0 {
      XorApart(a / 2, b, k - 1);
      ShrUp(b, k - 1);
      XorStep(a, Up(b, k));
      assert Up(b, k) / 2 == Up(b, k - 1) && Up(b, k) % 2 == 0;
    }
  }

  function Or(a: int, b: int): (r: int)
    requires a >= 0 && b >= 0
    ensures r >= 0
    decreases a + b
  {
    if a == 0 then b else if b == 0 then a
    else (if a % 2 == 1 || b % 2 == 1 then 1 else 0) + 2 * Or(a / 2, b / 2)
  }

  lemma {:induction false} OrComm(a: int, b: int)
    requires a >= 0 && b >= 0
    ensures Or(a, b) == Or(b, a)
    decreases a + b
  {
    if a > 0 && b > 0 {
      OrComm(a / 2, b / 2);
    }
  }

  /** Bits that do not overlap add up. */
  lemma {:induction false} OrApart(a: int, b: int, k: nat)
    requires 0 <= a < Pow2(k) && b >= 0
    ensures Up(b, k) >= 0 && Or(a, Up(b, k)) == a + Up(b, k)
    decreases k
  {
    ShrUp(b, k);
    if k > 0 {
      OrApart(a / 2, b, k - 1);
      ShrUp(b, k - 1);
      assert Up(b, k) / 2 == Up(b, k - 1) && Up(b, k) % 2 == 0;
    }
  }
}
