/**
 Bit order.  Codes are numbers with their first bit most significant, streams
 are read least significant bit first; reversing a code's bits connects the two.
 */
module BitOrder {
  import opened Arith
  import opened Canonical

  /** Bit i of x. */
  function Bit(x: int, i: nat): (b: int)
    requires x >= 0
    ensures b == 0 || b == 1
  {
    Shr(x, i) % 2
  }

  /** The first n bits of x, least significant bit first, read as a number whose first bit is most significant. */
  function Rev(x: int, n: nat): (r: int)
    requires x >= 0
    ensures 0 <= r < Pow2(n)
  {
    if n == 0 then 0 else 2 * Rev(x, n - 1) + Bit(x, n - 1)
  }

  /** The leading l bits of the reversed number are the reversal of the first l bits. */
  lemma {:induction false} RevPrefix(x: int, n: nat, l: nat)
    requires x >= 0 && l <= n
    ensures Shr(Rev(x, n), n - l) == Rev(x, l)
    decreases n
  {
    if l < n {
      RevPrefix(x, n - 1, l);
      assert Rev(x, n) / 2 == Rev(x, n - 1);
    }
  }

  /** The first bit of the stream is the most significant bit of the reversal. */
  lemma {:induction false} RevFirst(x: int, n: nat)
    requires x >= 0 && n > 0
    ensures Rev(x, n) == (if x % 2 == 1 then Pow2(n - 1) else 0) + Rev(x / 2, n - 1)
  {
    if n == 1 {
      assert Rev(x, 1) == 2 * Rev(x, 0) + Bit(x, 0);
    } else {
      RevFirst(x, n - 1);
      assert Bit(x, n - 1) == Bit(x / 2, n - 2);
    }
  }

  /** Only the first n bits matter. */
  lemma {:induction false} RevLow(x: int, m: nat, n: nat)
    requires x >= 0 && n <= m
    ensures Rev(x + Pow2(m), n) == Rev(x, n)
    decreases n
  {
    hide *;
    if n == 0 {
      RevZero(x);
      RevZero(x + Pow2(m));
    } else {
      RevFirst(x, n);
      RevFirst(x + Pow2(m), n);
      HalfHigh(x, m);
      RevLow(x / 2, m - 1, n - 1);
    }
  }

  lemma RevZero(x: int)
    requires x >= 0
    ensures Rev(x, 0) == 0
  {
  }

  lemma HalfHigh(x: int, m: nat)
    requires x >= 0 && m > 0
    ensures (x + Pow2(m)) / 2 == x / 2 + Pow2(m - 1) && (x + Pow2(m)) % 2 == x % 2
  {
  }

  lemma {:induction false} TopBit(x: int, n: nat)
    requires 0 <= x < Pow2(n)
    ensures Shr(x, n) == 0 && Bit(x + Pow2(n), n) == 1 && Bit(x, n) == 0
  {
    if n > 0 {
      TopBit(x / 2, n - 1);
      assert (x + Pow2(n)) / 2 == x / 2 + Pow2(n - 1);
    }
  }

  lemma RevNone(x: int)
    requires 0 <= x < Pow2(0)
    ensures x == 0 && Rev(x, 0) == 0 && Rev(Rev(x, 0), 0) == 0
  {
  }

  lemma HalfRange(x: int, n: nat)
    requires 0 <= x < Pow2(n) && n > 0
    ensures 0 <= x / 2 < Pow2(n - 1) && 0 <= Rev(x / 2, n - 1) < Pow2(n - 1) && Rev(x, n) >= 0
  {
  }

  /** The last bit of the stream is the least significant of the reversal. */
  lemma RevLast(x: int, n: nat)
    requires x >= 0 && n > 0
    ensures Rev(x, n) == 2 * Rev(x, n - 1) + Bit(x, n - 1)
  {
  }

  /** Reversing twice restores the number. */
  lemma {:induction false} RevRev(x: int, n: nat)
    requires 0 <= x < Pow2(n)
    ensures Rev(Rev(x, n), n) == x
  {
    hide *;
    if n == 0 {
      RevNone(x);
    } else {
      var y, z := Rev(x, n), Rev(x / 2, n - 1);
      HalfRange(x, n);
      RevRev(x / 2, n - 1);
      RevFirst(x, n);
      TopBit(z, n - 1);
      RevLast(y, n);
      if x % 2 == 1 {
        RevLow(z, n - 1, n - 1);
      }
    }
  }

  /** A stream that starts with the reversed bits of c reads as c. */
  lemma RevMod(x: int, n: nat)
    requires x >= 0
    ensures x % Pow2(n) >= 0 && Rev(x, n) == Rev(x % Pow2(n), n)
  {
    hide *;
    DivMod(x, Pow2(n));
    RevMultiple(x % Pow2(n), x / Pow2(n), n);
  }

  lemma {:induction false} RevMultiple(x: int, q: nat, n: nat)
    requires x >= 0
    ensures x + q * Pow2(n) >= 0 && Rev(x + q * Pow2(n), n) == Rev(x, n)
    decreases q
  {
    if q > 0 {
      RevMultiple(x, q - 1, n);
      assert x + q * Pow2(n) == x + (q - 1) * Pow2(n) + Pow2(n);
      RevLow(x + (q - 1) * Pow2(n), n, n);
    }
  }

  /** `bi_reverse`: reverse the first len bits of a code, bit by bit. */
  method BiReverse(code0: int, len0: int) returns (res: int)
    requires code0 >= 0 && 1 <= len0 <= 15
    ensures res == Rev(code0, len0)
  {
    var code, len, r := code0, len0, 0;
    ghost var n := 0;
    while true
      invariant 0 <= n < len0 && len == len0 - n
      invariant code == Shr(code0, n) && r == 2 * Rev(code0, n)
      decreases len
    {
      r := r + code % 2;
      ShrAdd(code0, n, 1);
      assert Shr(code, 1) == Shr(code / 2, 0);
      code := code / 2;
      r := r * 2;
      n := n + 1;
      len := len - 1;
      if len <= 0 {
        break;
      }
    }
    res := r / 2;
  }

  /** The stream x starts with the code of symbol s. */
  ghost predicate Starts(lens: seq<int>, cnt: seq<int>, x: int, s: nat) {
    && x >= 0 && s < |lens| && 0 < lens[s] < |cnt| && Rev(x, lens[s]) == Code(lens, cnt, s)
  }

  /** Starting with a symbol's code is heading the reversed stream with it. */
  lemma StartsIsHeads(lens: seq<int>, cnt: seq<int>, x: int, top: nat, s: nat)
    requires x >= 0 && s < |lens| && 0 < lens[s] <= top && top < |cnt|
    ensures Starts(lens, cnt, x, s) <==> Heads(lens, cnt, Rev(x, top), top, s)
  {
    RevPrefix(x, top, lens[s]);
  }

  /** No stream starts with two symbols. */
  lemma StartsUnique(lens: seq<int>, cnt: seq<int>, x: int, s: nat, t: nat)
    requires Counts(lens, cnt) && Fits(cnt) && Starts(lens, cnt, x, s) && Starts(lens, cnt, x, t)
    ensures s == t
  {
    StartsIsHeads(lens, cnt, x, |cnt| - 1, s);
    StartsIsHeads(lens, cnt, x, |cnt| - 1, t);
    HeadsUnique(lens, cnt, Rev(x, |cnt| - 1), |cnt| - 1, s, t);
  }
}
