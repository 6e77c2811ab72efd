/**
 The bit accumulator.  `hold` keeps the bits of the input that have been pulled
 in but not used; with them the decoder's next step can be told.  More input
 leaves everything decoded as it was, so a run may be cut anywhere.
 */
module BitReservoir {
  import opened Arith
  import opened Canonical
  import opened BitOrder
  import opened DecodeTable
  import opened InflateSpec
  import opened InflateRuns
  import opened InflateSound

  // ----- reached states

  lemma {:induction false} AfterSane(inp: seq<Byte>, n: nat, m: Machine)
    requires After(inp, n) == Some(m)
    ensures Sane(m.c) && m.pos <= 8 * |inp|
  {
    hide Next, Sane;
    if n == 0 {
      StartSane();
    } else {
      var p := After(inp, n - 1).value;
      AfterSane(inp, n - 1, p);
      NextSane(inp, p, m);
    }
  }

  lemma StartSane()
    ensures Sane(START.c)
  {
  }

  lemma NextSane(inp: seq<Byte>, m: Machine, m': Machine)
    requires Sane(m.c) && Next(inp, m) == Some(m')
    ensures Sane(m'.c) && m'.pos <= 8 * |inp|
  {
    hide StepAt, Sane;
    StepSane(Shr(Value(inp), m.pos), 8 * |inp| - m.pos, m.c);
  }

  lemma ReachedSane(inp: seq<Byte>, m: Machine)
    requires Reaches(inp, m)
    ensures Sane(m.c) && m.pos <= 8 * |inp|
  {
    hide After, Sane;
    var n: nat :| After(inp, n) == Some(m);
    AfterSane(inp, n, m);
  }

  // ----- more input

  lemma NextMore(inp: seq<Byte>, b: Byte, m: Machine, m': Machine)
    requires Sane(m.c) && Next(inp, m) == Some(m')
    ensures Next(inp + [b], m) == Some(m')
  {
    hide StepAt, Sane;
    var n := 8 * |inp| - m.pos;
    ByteMore(inp, b, m.pos);
    StepAgree(Shr(Value(inp), m.pos), Shr(Value(inp + [b]), m.pos), n, n + 8, m.c);
  }

  lemma {:induction false} AfterMore(inp: seq<Byte>, b: Byte, n: nat, m: Machine)
    requires After(inp, n) == Some(m)
    ensures After(inp + [b], n) == Some(m)
  {
    hide Next;
    if n > 0 {
      var p := After(inp, n - 1).value;
      AfterMore(inp, b, n - 1, p);
      AfterSane(inp, n - 1, p);
      NextMore(inp, b, p, m);
    }
  }

  /** What is reached on some input is reached on every longer input. */
  lemma {:induction false} ReachesMore(inp: seq<Byte>, more: seq<Byte>, m: Machine)
    requires Reaches(inp, m)
    ensures Reaches(inp + more, m)
    decreases |more|
  {
    hide After;
    if more == [] {
      assert inp + more == inp;
    } else {
      var n: nat :| After(inp, n) == Some(m);
      AfterMore(inp, more[0], n, m);
      ReachesMore(inp + [more[0]], more[1..], m);
      assert inp + more == (inp + [more[0]]) + more[1..];
    }
  }

  // ----- output only grows

  lemma StepGrows(x: int, n: nat, c: Config)
    requires x >= 0 && StepAt(x, n, c).Move?
    ensures c.out <= StepAt(x, n, c).next.out
  {
    hide SymbolAt, Low, Shr, Unordered, AfterLens;
  }

  lemma NextGrows(inp: seq<Byte>, m: Machine, m': Machine)
    requires Next(inp, m) == Some(m')
    ensures m.c.out <= m'.c.out
  {
    hide StepAt;
    StepGrows(Shr(Value(inp), m.pos), 8 * |inp| - m.pos, m.c);
  }

  lemma {:induction false} AfterGrows(inp: seq<Byte>, i: nat, j: nat, a: Machine, b: Machine)
    requires i <= j && After(inp, i) == Some(a) && After(inp, j) == Some(b)
    ensures a.c.out <= b.c.out
    decreases j
  {
    hide Next;
    if i < j {
      var p := After(inp, j - 1).value;
      AfterGrows(inp, i, j - 1, a, p);
      NextGrows(inp, p, b);
    }
  }

  /** Everything that any run on the input puts out, a run to the end puts out too. */
  lemma OutputPrefix(inp: seq<Byte>, a: Machine, b: Machine)
    requires Reaches(inp, a) && Reaches(inp, b) && Next(inp, b) == None
    ensures a.c.out <= b.c.out
  {
    hide Next, After;
    var i: nat :| After(inp, i) == Some(a);
    var j: nat :| After(inp, j) == Some(b);
    if i > j {
      StuckStays(inp, j, b, i);
    } else {
      AfterGrows(inp, i, j, a, b);
    }
  }

  // ----- the accumulator

  /** hold and bits are what is left of the bytes consumed, the decoder having come to m. */
  ghost predicate Reservoir(hold: int, bits: int, consumed: seq<Byte>, m: Machine) {
    && bits >= 0 && m.pos + bits == 8 * |consumed|
    && hold == Shr(Value(consumed), m.pos) && Reaches(consumed, m)
  }

  lemma {:induction false} ValueBound(s: seq<Byte>)
    ensures Value(s) < Pow2(8 * |s|)
  {
    if s != [] {
      var t := s[..|s| - 1];
      var k := 8 * |t|;
      var b: int := s[|t|];
      ValueBound(t);
      UpMono(b + 1, 256, k);
      UpSum(b, 1, k);
      UpOne(k);
      UpOne(8);
      UpUp(1, 8, k);
      UpOne(k + 8);
    }
  }

  /** hold has no more than its bits: 32 bits are enough for 32. */
  lemma HoldBound(hold: int, bits: int, consumed: seq<Byte>, m: Machine)
    requires Reservoir(hold, bits, consumed, m)
    ensures 0 <= hold < Pow2(bits)
  {
    hide Reaches, Value;
    ValueBound(consumed);
    ShrBound(Value(consumed), m.pos, 8 * |consumed|);
  }

  lemma PullByteLemma(hold: int, bits: nat, consumed: seq<Byte>, m: Machine, b: Byte)
    requires Reservoir(hold, bits, consumed, m)
    ensures Reservoir(hold + Up(b, bits), bits + 8, consumed + [b], m)
    ensures hold >= 0 && Agree(hold, hold + Up(b, bits), bits)
  {
    hide Reaches, Value, Rev, Shr, Up;
    ByteMore(consumed, b, m.pos);
    ReachesMore(consumed, [b], m);
  }

  /** The accumulator shows the decoder's next step. */
  lemma ReservoirNext(hold: int, bits: nat, consumed: seq<Byte>, m: Machine)
    requires Reservoir(hold, bits, consumed, m)
    ensures hold >= 0 && Sane(m.c)
    ensures StepAt(hold, bits, m.c) == Stuck <==> Next(consumed, m) == None
  {
    hide StepAt, Reaches, Sane;
    ReachedSane(consumed, m);
  }

  lemma TakeStep(hold: int, bits: nat, consumed: seq<Byte>, m: Machine, k: nat, c: Config)
    requires Reservoir(hold, bits, consumed, m) && hold >= 0 && StepAt(hold, bits, m.c) == Move(k, c)
    ensures k <= bits && Reservoir(Shr(hold, k), bits - k, consumed, Machine(c, m.pos + k)) && Sane(c)
  {
    hide StepAt, Sane, Reaches, Value, Shr;
    ReachedSane(consumed, m);
    StepSane(hold, bits, m.c);
    var m' := Machine(c, m.pos + k);
    assert Next(consumed, m) == Some(m');
    NextReached(consumed, m, m');
    ShrAdd(Value(consumed), m.pos, k);
  }
}
