/**
 The fast path of `inflate` and the slow one do the same: wherever they come to the same
 place in the input, they stand in the same state and have put out the same bytes.
 */
module FastSlow {
  import opened Canonical
  import opened DecodeTable
  import opened InflateSpec
  import opened InflateRuns
  import opened Inflate
  import BitReservoir

  /** Between symbols, or between blocks. */
  ghost predicate Boundary(m: Machine) {
    m.c.st.Len? || m.c.st == Type
  }

  lemma Before(inp: seq<Byte>, k: nat, b: Machine) returns (p: Machine)
    requires After(inp, k) == Some(b) && k > 0
    ensures After(inp, k - 1) == Some(p) && Next(inp, p) == Some(b)
  {
    hide Next;
    p := After(inp, k - 1).value;
  }

  lemma NextForward(inp: seq<Byte>, p: Machine, b: Machine)
    requires Next(inp, p) == Some(b)
    ensures p.pos <= b.pos
    ensures p.c.st == Check || p.c.st == Done ==> b.c.st == Done
  {
    hide Value, Shr;
    var s := StepAt(Shr(Value(inp), p.pos), 8 * |inp| - p.pos, p.c) by {
      ShrAt(inp, p.pos);
    }
    if p.c.st == Check || p.c.st == Done {
    } else {
      hide StepAt;
    }
  }

  lemma ShrAt(inp: seq<Byte>, pos: nat)
    ensures Shr(Value(inp), pos) >= 0
  {
  }

  lemma {:induction false} NeverBack(inp: seq<Byte>, n: nat, a: Machine, k: nat, b: Machine)
    requires After(inp, n) == Some(a) && After(inp, k) == Some(b) && n <= k
    ensures a.pos <= b.pos
  {
    hide *;
    if n < k {
      var p := Before(inp, k, b);
      NeverBack(inp, n, a, k - 1, p);
      NextForward(inp, p, b);
    }
  }

  /** From a boundary the decoder moves on, except past the last block, where it ends. */
  lemma LeaveBoundary(inp: seq<Byte>, a: Machine, b: Machine)
    requires Boundary(a) && Next(inp, a) == Some(b)
    ensures b.pos > a.pos || b.c.st == Check
  {
    hide Value, Shr, Low, SymbolAt;
    if a.c.st.Len? {
      SymbolBits(a.c.st.c.lit, Shr(Value(inp), a.pos), 8 * |inp| - a.pos);
    }
  }

  lemma SymbolBits(lens: seq<int>, x: int, n: nat)
    requires x >= 0
    ensures SymbolAt(lens, x, n).Found? ==> SymbolAt(lens, x, n).sym < |lens| && lens[SymbolAt(lens, x, n).sym] >= 1
  {
  }

  /** After the last block nothing follows but the end. */
  lemma {:induction false} AfterCheck(inp: seq<Byte>, n: nat, a: Machine, k: nat, b: Machine)
    requires After(inp, n) == Some(a) && (a.c.st == Check || a.c.st == Done) && After(inp, k) == Some(b) && n <= k
    ensures b.c.st == Check || b.c.st == Done
  {
    hide *;
    if n < k {
      var p := Before(inp, k, b);
      AfterCheck(inp, n, a, k - 1, p);
      NextForward(inp, p, b);
    }
  }

  /** A run passes a boundary only once. */
  lemma Once(inp: seq<Byte>, n: nat, a: Machine, k: nat, b: Machine)
    requires After(inp, n) == Some(a) && After(inp, k) == Some(b) && n <= k
    requires Boundary(a) && Boundary(b) && a.pos == b.pos
    ensures a == b
  {
    hide *;
    BoundaryIs(b);
    if n < k {
      Defined(inp, n, k);
      var c := After(inp, n + 1).value;
      LeaveBoundary(inp, a, c);
      if c.c.st == Check {
        AfterCheck(inp, n + 1, c, k, b);
      } else {
        NeverBack(inp, n + 1, c, k, b);
      }
    }
  }

  lemma BoundaryIs(m: Machine)
    requires Boundary(m)
    ensures m.c.st.Len? || m.c.st == Type
  {
  }

  lemma {:induction false} Defined(inp: seq<Byte>, n: nat, k: nat)
    requires After(inp, k) != None && n < k
    ensures After(inp, n) != None && After(inp, n + 1) != None && After(inp, n + 1) == Next(inp, After(inp, n).value)
  {
    hide Next;
    if n + 1 < k {
      Defined(inp, n, k - 1);
    }
  }

  lemma SamePlace(inp: seq<Byte>, a: Machine, b: Machine)
    requires Reaches(inp, a) && Reaches(inp, b) && Boundary(a) && Boundary(b) && a.pos == b.pos
    ensures a == b
  {
    hide After, Boundary;
    var n: nat :| After(inp, n) == Some(a);
    var k: nat :| After(inp, k) == Some(b);
    if n <= k {
      Once(inp, n, a, k, b);
    } else {
      Once(inp, k, b, n, a);
    }
  }

  /**
   Two machines in the midst of the same data, whichever of them came there by `inflate_fast` and whichever
   by the single states: at the same bit of the input, both between symbols or blocks, they have the same
   decoder, have put out the same bytes, and are in the same mode.
   */
  lemma FastSlowAgree(s: InflateState, t: InflateState, data: seq<Byte>)
    requires s.Core() && s.next <= |s.input| && s.base + s.input[..s.next] <= data && Boundary(s.m)
    requires t.Core() && t.next <= |t.input| && t.base + t.input[..t.next] <= data && Boundary(t.m)
    requires s.m.pos == t.m.pos
    ensures s.m == t.m && s.hist + s.output == t.hist + t.output && Observed(s.mode) == Observed(t.mode)
  {
    hide *;
    Within(s, data);
    Within(t, data);
    SamePlace(data, s.m, t.m);
    s.CoreParts();
    t.CoreParts();
    SameMode(s.mode, t.mode, s.bits, t.bits, s.r, t.r, s.m.c.st);
  }

  lemma Within(s: InflateState, data: seq<Byte>)
    requires s.Core() && s.next <= |s.input| && s.base + s.input[..s.next] <= data
    ensures Reaches(data, s.m)
  {
    hide *;
    s.CoreParts();
    s.FlowParts();
    ConsumedIs(s.base, s.input, s.next);
    ReservoirReached(s.hold, s.bits, Consumed(s.base, s.input, s.next), s.m);
    var got := s.base + s.input[..s.next];
    BitReservoir.ReachesMore(got, data[|got|..], s.m);
    assert got + data[|got|..] == data;
  }

  lemma ReservoirReached(hold: int, bits: int, consumed: seq<Byte>, m: Machine)
    requires BitReservoir.Reservoir(hold, bits, consumed, m)
    ensures Reaches(consumed, m)
  {
    hide Reaches, Value, Shr;
  }
}
