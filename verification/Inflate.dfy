/**
 `inflate`: the resumable decoder.  Each state of the machine either makes its
 step or leaves, keeping what it has, when input or output space runs out.
 */
module Inflate {
  import opened Arith
  import opened Canonical
  import opened BitOrder
  import opened DecodeTable
  import opened SymbolSort
  import opened SubTables
  import opened InflateTable
  import opened InflateSpec
  import opened InflateRuns
  import opened FixedCodes
  import opened InflateSound
  import opened BitReservoir
  import opened FastSteps
  import opened TableLookup
  import opened Window

  datatype Mode =
    | HEAD | TYPE | TYPEDO | STORED | COPY | TABLE | LENLENS | CODELENS
    | LEN | LENEXT | DIST | DISTEXT | MATCH | LIT | CHECK | DONE | BAD

  /** Whether the machine goes on, or leaves for want of input or of output space. */
  datatype Leave = Stay | NoInput | NoOutput

  /** The registers that the states pass values in. */
  datatype Regs = Regs(length: nat, offset: nat, extra: nat, ncode: nat, nlen: nat, ndist: nat, have: nat,
                       lens: seq<int>,
                       lencode: CodeTable, distcode: CodeTable)

  /** The tables of a block are those of its codes. */
  ghost predicate Tables(r: Regs, c: Pair) {
    Good(r.lencode, Lens, c.lit) && Good(r.distcode, Dists, c.dist)
  }

  /** The machine's mode and registers stand for the decoder's state. */
  ghost predicate Shows(mode: Mode, bits: int, r: Regs, st: State) {
    match mode
    case HEAD => st == Type
    case TYPE => st == Type
    case TYPEDO => st == Type
    case STORED => st == Stored || (st == StoredLen && bits % 8 == 0)
    case COPY => st == Copy(r.length) && bits == 0
    case TABLE => st == State.Table
    case LENLENS =>
      && st.LenLens? && st.nlen == r.nlen && st.ndist == r.ndist && st.ncode == r.ncode && |st.read| == r.have <= 19
      && |r.lens| == 320 && forall i :: 0 <= i < r.have ==> r.lens[ORDER[i]] == st.read[i]
    case CODELENS =>
      && st.CodeLens? && st.nlen == r.nlen && st.ndist == r.ndist && |st.lens| == r.have <= 316
      && |r.lens| == 320 && r.lens[..r.have] == st.lens
      && Good(r.lencode, Codes, st.code) && NoLonger(st.code, r.lencode.bits)
    case LEN => st.Len? && Tables(r, st.c)
    case LENEXT => st.LenExt? && Tables(r, st.c) && st.length == r.length && st.extra == r.extra
    case DIST => st.Dist? && Tables(r, st.c) && st.length == r.length
    case DISTEXT => st.DistExt? && Tables(r, st.c) && st.length == r.length && st.dist == r.offset
         && st.extra == r.extra
    case MATCH => st.Match? && Tables(r, st.c) && st.length == r.length && st.dist == r.offset
    case LIT => st.Lit? && Tables(r, st.c) && st.byte == r.length
    case CHECK => st == Check
    case DONE => st == Done
    case BAD => st == Bad
  }

  /** Fewer than eight bits are left over, unless they do not suffice for the next step. */
  ghost predicate Thrifty(hold: int, bits: int, c: Config) {
    hold >= 0 && bits >= 0 && (bits < 8 || StepAt(hold, bits, c) == Stuck)
  }

  lemma CountedIsCnt(lens: seq<int>, cnt: seq<int>)
    requires Counted(lens, cnt)
    ensures cnt == Cnt(lens)
  {
  }

  /** What `inflate_table` says and builds, in terms of the lengths. */
  lemma BuiltGood(t: seq<Entry>, base: nat, kind: CodeType, lens: seq<int>, cnt: seq<int>, bits0: nat, ret: int,
                  used: nat, bits: nat)
    requires Built(t, base, kind, lens, cnt, bits0, ret, used, bits)
    requires |lens| <= Alphabet(kind) && forall i :: 0 <= i < |lens| ==> 0 <= lens[i] <= MAXBITS
    ensures ret == 0 <==> Acceptable(kind, Cnt(lens))
    ensures ret == 0 ==> base + used <= |t| && bits0 <= 15 && used <= Enough(bits0, |lens|)
    ensures ret == 0 ==> Good(CodeTable(t[..base + used], base, bits), kind, lens)
    ensures ret == 0 && NoLonger(lens, bits0) ==> NoLonger(lens, bits)
  {
    CountedIsCnt(lens, cnt);
    hide Acceptable, Decodes, Counted, Fits;
  }

  /** Build the table of one code on its own. */
  method OneTable(kind: CodeType, lens: seq<int>, bits0: nat) returns (ret: int, tab: CodeTable)
    requires |lens| <= Alphabet(kind) <= 288 && forall i :: 0 <= i < |lens| ==> 0 <= lens[i] <= MAXBITS
    requires 1 <= bits0 <= 9 && (kind.Lens? ==> bits0 == 9) && |lens| < Pow2(bits0 + 1)
    ensures ret == 0 <==> Acceptable(kind, Cnt(lens))
    ensures ret == 0 ==> Good(tab, kind, lens) && (NoLonger(lens, bits0) ==> NoLonger(lens, tab.bits))
  {
    hide *;
    var codes := new Entry[Enough(bits0, |lens|)](i => INVALID);
    var work := new int[288];
    var used, bits;
    ghost var cnt;
    ret, used, bits, cnt := InflateTable.InflateTable(kind, lens, codes, 0, bits0, work);
    BuiltGood(codes[..], 0, kind, lens, cnt, bits0, ret, used, bits);
    tab := CodeTable(if ret == 0 then codes[..0 + used] else [], 0, bits);
  }

  /** Tables of the fixed codes, as the generator of `inffixed.h` builds them. */
  method FixedTables() returns (lenfix: CodeTable, distfix: CodeTable)
    ensures Good(lenfix, Lens, FixedLit()) && Good(distfix, Dists, FixedDist())
  {
    FixedLitUsable();
    FixedDistUsable();
    SmallPowers();
    UsableRange(Lens, FixedLit());
    UsableRange(Dists, FixedDist());
    hide Usable, Good, FixedLit, FixedDist, Acceptable, NoLonger, Cnt;
    var ret;
    ret, lenfix := OneTable(Lens, FixedLit(), 9);
    ret, distfix := OneTable(Dists, FixedDist(), 5);
  }

  /** The two tables of a dynamic block, the second after the first in the space for both. */
  method BlockTables(lit: seq<int>, dist: seq<int>) returns (ret: int, lencode: CodeTable, distcode: CodeTable)
    requires |lit| <= 286 && |dist| <= 30
    requires (forall i :: 0 <= i < |lit| ==> 0 <= lit[i] <= MAXBITS)
             && forall i :: 0 <= i < |dist| ==> 0 <= dist[i] <= MAXBITS
    ensures ret == 0 <==> Acceptable(Lens, Cnt(lit)) && Acceptable(Dists, Cnt(dist))
    ensures ret == 0 ==> Good(lencode, Lens, lit) && Good(distcode, Dists, dist)
  {
    var codes := new Entry[ENOUGH](i => INVALID);
    var work := new int[288];
    SmallPowers();
    EnoughIsEnough();
    EnoughMono(lit, dist);
    assert codes.Length == 2048;
    hide *;
    lencode, distcode := CodeTable([], 0, 0), CodeTable([], 0, 0);
    var used, bits;
    ghost var cnt;
    ret, used, bits, cnt := InflateTable.InflateTable(Lens, lit, codes, 0, 9, work);
    BuiltGood(codes[..], 0, Lens, lit, cnt, 9, ret, used, bits);
    if ret != 0 {
      return;
    }
    lencode := CodeTable(codes[..0 + used], 0, bits);
    var used2, bits2;
    ghost var cnt2;
    ret, used2, bits2, cnt2 := InflateTable.InflateTable(Dists, dist, codes, used, 6, work);
    BuiltGood(codes[..], used, Dists, dist, cnt2, 6, ret, used2, bits2);
    if ret == 0 {
      distcode := CodeTable(codes[..used + used2], used, bits2);
    }
  }

  lemma EnoughMono(lit: seq<int>, dist: seq<int>)
    requires |lit| <= 286 && |dist| <= 30
    ensures Enough(9, |lit|) <= Enough(9, 286) && Enough(6, |dist|) <= Enough(6, 32)
    ensures |lit| <= Alphabet(Lens) && |dist| <= Alphabet(Dists)
  {
    hide Pow2;
  }

  lemma UsableRange(kind: CodeType, lens: seq<int>)
    requires Usable(kind, lens)
    ensures |lens| <= Alphabet(kind) && forall i :: 0 <= i < |lens| ==> 0 <= lens[i] <= MAXBITS
    ensures Acceptable(kind, Cnt(lens))
  {
  }

  /** The input used: all that earlier calls used, and the first n bytes of this call's. */
  ghost function Consumed(base: seq<Byte>, input: seq<Byte>, n: nat): seq<Byte>
    requires n <= |input|
  {
    base + input[..n]
  }

  lemma ConsumedNext(base: seq<Byte>, input: seq<Byte>, n: nat)
    requires n < |input|
    ensures Consumed(base, input, n + 1) == Consumed(base, input, n) + [input[n]]
  {
    assert input[..n + 1] == input[..n] + [input[n]];
  }

  /** Write a run of equal lengths. */
  method WriteRun(lens0: seq<int>, have: nat, copy: nat, len: int) returns (lens: seq<int>)
    requires have + copy <= |lens0|
    ensures Written(lens, lens0, have, copy, len) && |lens| == |lens0|
  {
    hide *;
    var k := 0;
    lens := lens0;
    WriteNone(lens0, have, len);
    while k < copy
      invariant 0 <= k <= copy && |lens| == |lens0|
      invariant Written(lens, lens0, have, k, len)
    {
      WriteOne(lens, lens0, have, k, len);
      lens := lens[have + k := len];
      k := k + 1;
    }
  }

  /** The lengths of the code length code that the stream leaves out are zero. */
  method FillLens(lens0: seq<int>, have0: nat, ghost read: seq<int>) returns (lens: seq<int>)
    requires Filled(lens0, read, have0, have0) && have0 == |read| <= 19
    ensures |lens| == 320 && lens[..19] == Unordered(read, |read|)
  {
    hide *;
    lens := lens0;
    for have := have0 to 19
      invariant Filled(lens, read, have0, have)
    {
      FillNext(lens, read, have0, have);
      FilledIs(lens, read, have0, have);
      lens := lens[ORDER[have] := 0];
    }
    FilledAll(lens, read, have0);
  }

  method CodeLensTable(lens: seq<int>, ghost read: seq<int>) returns (ret: int, tab: CodeTable)
    requires |lens| == 320 && |read| <= 19 && lens[..19] == Unordered(read, |read|)
    requires forall i :: 0 <= i < |read| ==> 0 <= read[i] <= 7
    ensures ret == 0 <==> Acceptable(Codes, Cnt(Unordered(read, |read|)))
    ensures ret == 0 ==>
              Good(tab, Codes, Unordered(read, |read|)) && NoLonger(Unordered(read, |read|), tab.bits)
  {
    hide *;
    UnorderedSmall(read, |read|);
    SmallAlphabet();
    ret, tab := OneTable(Codes, lens[..19], 7);
  }

  class InflateState {
    var mode: Mode
    var last: bool
    var hold: int
    var bits: nat
    var r: Regs
    const window: SlidingWindow
    const lenfix: CodeTable
    const distfix: CodeTable

    // one call: the input offered and how much of it is used, the room left, the output made
    var input: seq<Byte>
    var next: nat
    var left: nat
    var output: seq<Byte>

    ghost var base: seq<Byte>      // input used before this call
    ghost var hist: seq<Byte>      // output made before this call
    ghost var m: Machine           // the decoder this machine implements

    /** A decoder for raw deflate data with a 32K window, as `inflateInit2` with -15 window bits sets it up. */
    constructor ()
      ensures mode == HEAD && m == START && input == [] && output == [] && hist == [] && base == []
      ensures Good(lenfix, Lens, FixedLit()) && Good(distfix, Dists, FixedDist())
      ensures fresh(window) && fresh(window.buf) && window.Holds([]) && window.buf.Length == 32768
      ensures hold == 0 && bits == 0 && !last && next == 0 && Idle()
    {
      hide *;
      SmallPowers();
      mode, last, hold, bits := HEAD, false, 0, 0;
      r := Regs(0, 0, 0, 0, 0, 0, 0, seq(320, i => 0), CodeTable([], 0, 0), CodeTable([], 0, 0));
      input, next, left, output := [], 0, 0, [];
      base, hist, m := [], [], START;
      window := new SlidingWindow(15);
      var l, d := FixedTables();
      lenfix, distfix := l, d;
      new;
      StartCore();
      StartIdle();
    }

    /** A new machine stands for the decoder at its start. */
    lemma StartCore()
      requires hold == 0 && bits == 0 && next == 0 && input == [] && output == [] && base == [] && hist == []
               && m == START
      requires mode == HEAD && !last && |r.lens| == 320
      requires Good(lenfix, Lens, FixedLit()) && Good(distfix, Dists, FixedDist())
      ensures Core()
    {
      hide *;
      StartReached([]);
      ConsumedIs(base, input, 0);
      assert base + input[..0] == [];
      StartReservoir();
      MakeFlow();
      assert hist + output == [];
      StartShows(bits, r);
      MakeCore();
    }

    lemma StartIdle()
      requires Core() && input == [] && next == 0 && output == [] && hist == [] && window.Holds([])
               && window.buf.Length == 32768
      ensures Idle()
    {
      assert hist + output == [];
      hide Core, SlidingWindow.Holds;
    }

    /** The accumulator holds what is left of the input used. */
    ghost predicate Flow()
      reads `base, `input, `next, `hold, `bits, `m
    {
      && next <= |input| && Reservoir(hold, bits, Consumed(base, input, next), m)
    }

    /** All input is used, and what is left in the accumulator is not enough for a step. */
    ghost predicate Starved()
      reads this
    {
      next == |input| && hold >= 0 && StepAt(hold, bits, m.c) == Stuck
    }

    /** What the machine keeps: it stands for the decoder that its input so far leads to. */
    ghost predicate Core()
      reads `base, `input, `next, `hold, `bits, `m, `mode, `last, `r, `hist, `output
    {
      && Flow() && Thrifty(hold, bits, m.c) && Shows(mode, bits, r, m.c.st)
      && m.c.last == last && m.c.out == hist + output && |r.lens| == 320
      && Good(lenfix, Lens, FixedLit()) && Good(distfix, Dists, FixedDist())
    }

    // ----- the bit accumulator

    /** PULLBYTE: take one byte of input into the accumulator. */
    method PullByte()
      requires Flow() && next < |input|
      modifies this`hold, this`bits, this`next
      ensures Flow() && bits == old(bits) + 8 && next == old(next) + 1
      ensures old(hold) >= 0 && Agree(old(hold), hold, old(bits))
    {
      hide *;
      FlowParts();
      ConsumedNext(base, input, next);
      PullByteLemma(hold, bits, Consumed(base, input, next), m, input[next]);
      hold := hold + Up(input[next], bits);
      next := next + 1;
      bits := bits + 8;
      MakeFlow();
    }

    /** NEEDBITS: pull in bytes until there are n bits. */
    method NeedBits(n: nat) returns (ok: bool)
      requires Flow()
      modifies this`hold, this`bits, this`next
      ensures Flow() && 8 * next - bits == old(8 * next - bits)
      ensures ok ==> bits >= n && (if old(bits) >= n then bits == old(bits) && hold == old(hold) else bits < n + 8)
      ensures !ok ==> next == |input| && bits < n
      ensures old(bits) <= bits && (bits - old(bits)) % 8 == 0
    {
      hide Reservoir;
      while bits < n
        invariant Flow() && 8 * next - bits == old(8 * next - bits)
        invariant bits == old(bits) || bits < n + 8
        invariant bits == old(bits) ==> hold == old(hold)
        invariant old(bits) <= bits && (bits - old(bits)) % 8 == 0
      {
        if next == |input| {
          ok := false;
          return;
        }
        PullByte();
      }
      ok := true;
    }

    /** The decoder takes the step that drops k bits; the accumulator is dropped alike. */
    method Drop(k: nat, ghost c: Config)
      requires Flow() && hold >= 0 && StepAt(hold, bits, m.c) == Move(k, c)
      modifies this`hold, this`bits, this`m
      ensures Flow() && bits == old(bits) - k && m == Machine(c, old(m).pos + k) && hold >= 0 && Sane(c)
    {
      hide *;
      FlowParts();
      TakeStep(hold, bits, Consumed(base, input, next), m, k, c);
      hold := Shr(hold, k);
      bits := bits - k;
      m := Machine(c, m.pos + k);
      MakeFlow();
    }

    lemma FlowParts()
      requires Flow()
      ensures hold >= 0 && next <= |input| && Reservoir(hold, bits, Consumed(base, input, next), m)
    {
      hide Reaches, Value, Shr;
    }

    lemma MakeFlow()
      requires next <= |input| && Reservoir(hold, bits, Consumed(base, input, next), m)
      ensures Flow() && hold >= 0
    {
      hide Reaches, Value, Shr;
    }

    /** Look up the next code in the root table, pulling in bytes until the entry can be told. */
    method RootCode(tab: CodeTable, ghost kind: CodeType, ghost lens: seq<int>)
        returns (ok: bool, here: Entry, ghost w: Waited)
      requires Flow() && Good(tab, kind, lens)
      modifies this`hold, this`bits, this`next
      ensures Flow() && 8 * next - bits == old(8 * next - bits) && hold >= 0
      ensures old(bits) <= bits && (bits - old(bits)) % 8 == 0
      ensures Waiting(lens, w, old(hold), old(bits), hold, bits)
      ensures !ok ==> next == |input| && SymbolAt0(lens, hold, bits) == More
      ensures ok ==> tab.base + Low(hold, tab.bits) < |tab.t| && here == tab.t[tab.base + Low(hold, tab.bits)]
                     && here.bits <= bits
    {
      hide *;
      FlowParts();
      w := Waited(hold, bits);
      WaitStart(lens, hold, bits);
      while true
        invariant Flow() && 8 * next - bits == old(8 * next - bits) && hold >= 0
        invariant old(bits) <= bits && (bits - old(bits)) % 8 == 0
        invariant Waiting(lens, w, old(hold), old(bits), hold, bits)
        decreases |input| - next
      {
        LookUp(tab, kind, lens, hold, bits);
        here := tab.t[tab.base + Low(hold, tab.bits)];
        RootCases(tab, kind, lens, hold, bits, here);
        if here.bits <= bits {
          ok := true;
          return;
        }
        FlowParts();
        if next == |input| {
          ok := false;
          return;
        }
        ghost var px, pn := hold, bits;
        PullByte();
        FlowParts();
        WaitMore(lens, w, old(hold), old(bits), px, pn, hold);
        w := Waited(px, pn);
      }
    }

    /** Look up the rest of a code in the sub-table that the root entry `last` names. */
    method SubCode(tab: CodeTable, last: Entry, ghost kind: CodeType, ghost lens: seq<int>, ghost w0: Waited,
                   ghost h0: int, ghost n0: nat)
      returns (ok: bool, here: Entry, ghost w: Waited)
      requires Flow() && Good(tab, kind, lens) && hold >= 0 && Waiting(lens, w0, h0, n0, hold, bits)
      requires tab.base + Low(hold, tab.bits) < |tab.t| && last == tab.t[tab.base + Low(hold, tab.bits)]
               && last.bits <= bits && Link(last)
      modifies this`hold, this`bits, this`next
      ensures Flow() && 8 * next - bits == old(8 * next - bits) && hold >= 0
      ensures old(bits) <= bits && (bits - old(bits)) % 8 == 0
      ensures Waiting(lens, w, h0, n0, hold, bits)
      ensures !ok ==> next == |input| && SymbolAt0(lens, hold, bits) == More
      ensures ok ==> 0 <= last.bits <= last.bits + here.bits <= bits
                     && Answer(kind, lens, hold, bits, Entry(here.op, last.bits + here.bits, here.val)) && !Link(here)
    {
      hide *;
      w := w0;
      LookUp(tab, kind, lens, hold, bits);
      RootCases(tab, kind, lens, hold, bits, last);
      LinkIs(last);
      while true
        invariant Flow() && 8 * next - bits == old(8 * next - bits) && hold >= 0 && 0 <= last.bits == tab.bits <= bits
                  && Link(last)
        invariant old(bits) <= bits && (bits - old(bits)) % 8 == 0
        invariant Waiting(lens, w, h0, n0, hold, bits)
        invariant tab.base + Low(hold, tab.bits) < |tab.t| && last == tab.t[tab.base + Low(hold, tab.bits)]
        decreases |input| - next
      {
        LookUp(tab, kind, lens, hold, bits);
        SubCases(tab, kind, lens, hold, bits, last);
        here := tab.t[tab.base + last.val + Low(Shr(hold, last.bits), last.op)];
        if last.bits + here.bits <= bits {
          ok := true;
          return;
        }
        FlowParts();
        if next == |input| {
          ok := false;
          return;
        }
        ghost var px, pn := hold, bits;
        PullByte();
        FlowParts();
        AgreeLess(px, hold, pn, tab.bits);
        WaitMore(lens, w, h0, n0, px, pn, hold);
        w := Waited(px, pn);
      }
    }

    /** Decode the next code of a table, pulling in just enough bytes for it; none are dropped yet. */
    method NextCode(tab: CodeTable, ghost kind: CodeType, ghost lens: seq<int>) returns (ok: bool, here: Entry)
      requires Flow() && Good(tab, kind, lens)
      modifies this`hold, this`bits, this`next
      ensures Flow() && 8 * next - bits == old(8 * next - bits) && hold >= 0
      ensures old(bits) <= bits && (bits - old(bits)) % 8 == 0
      ensures ok ==> Answer(kind, lens, hold, bits, here) && 0 <= here.bits <= bits && !Link(here)
      ensures ok ==> if bits == old(bits) then hold == old(hold) else bits < here.bits + 8
      ensures !ok ==> next == |input| && SymbolAt0(lens, hold, bits) == More
    {
      hide *;
      ghost var w;
      ghost var h0, n0 := hold, bits;
      ok, here, w := RootCode(tab, kind, lens);
      if !ok {
        return;
      }
      LookUp(tab, kind, lens, hold, bits);
      RootCases(tab, kind, lens, hold, bits, here);
      if 0 < here.op < 16 {
        var last := here;
        LinkIs(last);
        ok, here, w := SubCode(tab, last, kind, lens, w, h0, n0);
        if !ok {
          return;
        }
        LinkIs(here);
        here := Entry(here.op, last.bits + here.bits, here.val);
      }
      LinkIs(here);
      GoodUsable(tab, kind, lens);
      WaitEnough(kind, lens, w, h0, n0, hold, bits, here);
    }
    lemma CoreParts()
      requires Core()
      ensures Flow() && Thrifty(hold, bits, m.c) && Shows(mode, bits, r, m.c.st) && hold >= 0
      ensures m.c.last == last && m.c.out == hist + output && |r.lens| == 320 && Sane(m.c)
      ensures Good(lenfix, Lens, FixedLit()) && Good(distfix, Dists, FixedDist())
    {
      FlowSane();
      hide Flow, Shows, Good;
    }

    lemma FlowSane()
      requires Flow()
      ensures Sane(m.c)
    {
      hide Reaches, Value, Sane;
      ReachedSane(Consumed(base, input, next), m);
    }

    lemma MakeCore()
      requires Flow() && hold >= 0 && Thrifty(hold, bits, m.c) && Shows(mode, bits, r, m.c.st)
      requires m.c.last == last && m.c.out == hist + output && |r.lens| == 320
      requires Good(lenfix, Lens, FixedLit()) && Good(distfix, Dists, FixedDist())
      ensures Core()
    {
      hide Flow, Shows, Good, Thrifty;
    }

    // ----- block headers

    /** After the last block: skip to a byte boundary. */
    method DoLast()
      requires Core() && (mode == HEAD || mode == TYPE || mode == TYPEDO) && last
      modifies this`hold, this`bits, this`m, this`mode
      ensures Core() && 8 * next - bits >= old(8 * next - bits) && mode == CHECK
    {
      hide *;
      CoreParts();
      ShowsType(mode, bits, r, m.c.st);
      AtType(hold, bits, m.c);
      ThriftyMoves(hold, bits, m.c);
      Drop(bits % 8, m.c.(st := Check));
      mode := CHECK;
      ShowsPlain(mode, bits, r, m.c.st);
      Settled();
    }

    /** The three bits that start a block. */
    method DoHeader() returns (ok: bool)
      requires Core() && (mode == HEAD || mode == TYPE || mode == TYPEDO) && !last
      modifies this`hold, this`bits, this`next, this`m, this`mode, this`last, this`r
      ensures Core() && 8 * next - bits >= old(8 * next - bits)
      ensures !ok ==> Starved() && mode == old(mode)
      ensures ok ==> 8 * next - bits > old(8 * next - bits)
    {
      hide *;
      CoreParts();
      ShowsType(mode, bits, r, m.c.st);
      ghost var h0, b0 := hold, bits;
      ok := NeedBits(3);
      FlowParts();
      AtType(hold, bits, m.c);
      ThriftyAfter(h0, b0, hold, bits, m.c, 3);
      if !ok {
        Await(b0);
        return;
      }
      TakeHeader();
    }

    method TakeHeader()
      requires Flow() && hold >= 0 && 3 <= bits < 11 && m.c.st == Type && !last
      requires m.c.last == last && m.c.out == hist + output && |r.lens| == 320
      requires Good(lenfix, Lens, FixedLit()) && Good(distfix, Dists, FixedDist())
      modifies this`hold, this`bits, this`m, this`mode, this`last, this`r
      ensures Core() && bits == old(bits) - 3
    {
      hide *;
      AtType(hold, bits, m.c);
      var first, kind := Low(hold, 1), Low(Shr(hold, 1), 2);
      Drop(3, StepAt(hold, bits, m.c).next);
      last := first == 1;
      if kind == 1 {
        r := r.(lencode := lenfix, distcode := distfix);
      }
      mode := if kind == 0 then STORED else if kind == 1 then LEN else if kind == 2 then TABLE else BAD;
      ShowsHeader(kind, mode, bits, r, m.c.st, lenfix, distfix);
      Settled();
    }

    /** TYPEDO: the header of a block, or the end after the last block. */
    method DoType() returns (ok: bool)
      requires Core() && (mode == HEAD || mode == TYPE || mode == TYPEDO)
      modifies this`hold, this`bits, this`next, this`m, this`mode, this`last, this`r
      ensures Core() && 8 * next - bits >= old(8 * next - bits)
      ensures !ok ==> Starved() && mode == old(mode)
      ensures ok ==> mode == CHECK || 8 * next - bits > old(8 * next - bits)
    {
      hide *;
      if last {
        DoLast();
        ok := true;
      } else {
        ok := DoHeader();
      }
    }

    // ----- stored blocks

    /** BYTEBITS: skip to a byte boundary. */
    method ByteBits()
      requires Flow() && Thrifty(hold, bits, m.c) && Shows(mode, bits, r, m.c.st) && mode == STORED
      modifies this`hold, this`bits, this`m
      ensures Flow() && Thrifty(hold, bits, m.c) && m.c == old(m).c.(st := StoredLen) && bits % 8 == 0
              && bits <= old(bits)
    {
      hide *;
      FlowParts();
      ShowsStored(mode, bits, r, m.c);
      AtStored(hold, bits, m.c);
      ghost var k := bits % 8;
      if m.c.st == Stored {
        ThriftyMoves(hold, bits, m.c);
        TakeStep(hold, bits, Consumed(base, input, next), m, bits % 8, m.c.(st := StoredLen));
      }
      hold := Shr(hold, bits % 8);
      bits := bits - bits % 8;
      if m.c.st == Stored {
        m := Machine(m.c.(st := StoredLen), m.pos + k);
        MakeFlow();
        ThriftyLow(hold, bits, m.c);
      }
    }

    /** STORED: the length of a stored block and its complement. */
    method DoStored() returns (ok: bool)
      requires Core() && mode == STORED
      modifies this`hold, this`bits, this`next, this`m, this`mode, this`r
      ensures Core() && 8 * next - bits >= old(8 * next - bits)
      ensures !ok ==> Starved() && mode == STORED
      ensures ok ==> mode == BAD || 8 * next - bits > old(8 * next - bits)
    {
      hide *;
      CoreParts();
      ByteBits();
      FlowParts();
      ghost var h0, b0 := hold, bits;
      ok := NeedBits(32);
      FlowParts();
      AtStoredLen(hold, bits, m.c);
      ThriftyAfter(h0, b0, hold, bits, m.c, 32);
      if !ok {
        MakeStarved();
        ShowsStoredLen(mode, bits, r, m.c);
        MakeCore();
        return;
      }
      TakeLengths();
    }

    method TakeLengths()
      requires Flow() && hold >= 0 && 32 <= bits < 40 && bits % 8 == 0 && m.c.st == StoredLen
      requires m.c.last == last && m.c.out == hist + output && |r.lens| == 320
      requires Good(lenfix, Lens, FixedLit()) && Good(distfix, Dists, FixedDist())
      modifies this`hold, this`bits, this`m, this`mode, this`r
      ensures Core() && bits <= old(bits) && (mode == BAD || bits < old(bits))
    {
      hide *;
      AtStoredLen(hold, bits, m.c);
      var len, nlen := Low(hold, 16), Low(Shr(hold, 16), 16);
      if len + nlen != 0xFFFF {
        Drop(0, m.c.(st := Bad));
        mode := BAD;
        ThriftyEnd(hold, bits, m.c);
        ShowsPlain(mode, bits, r, m.c.st);
        MakeCore();
        return;
      }
      Drop(32, m.c.(st := Copy(len)));
      r := r.(length := len);
      mode := COPY;
      ShowsCopy(mode, bits, r, m.c.st);
      Settled();
    }

    /** Copy one byte of a stored block; the accumulator is empty. */
    method CopyOne(ghost len: nat)
      requires Flow() && bits == 0 && next < |input| && left > 0 && m.c.st == Copy(len) && len > 0
      modifies this`next, this`m, this`left, this`output
      ensures Flow() && next == old(next) + 1 && left == old(left) - 1
      ensures output == old(output) + [input[old(next)]]
      ensures m.c == Config(Copy(len - 1), old(m).c.last, old(m).c.out + [input[old(next)]])
    {
      hide *;
      FlowParts();
      ConsumedNext(base, input, next);
      CopyByte(hold, Consumed(base, input, next), m, len, input[next]);
      output := output + [input[next]];
      left := left - 1;
      m := Machine(Config(Copy(len - 1), m.c.last, m.c.out + [input[next]]), m.pos + 8);
      next := next + 1;
      MakeFlow();
    }

    /** A byte that there is no room for comes next. */
    ghost predicate Full()
      reads `mode, `r
    {
      mode == MATCH || mode == LIT || (mode == COPY && r.length > 0)
    }

    lemma MakeFull()
      requires mode == MATCH || mode == LIT || (mode == COPY && r.length > 0)
      ensures Full()
    {
    }

    /** COPY: copy bytes of a stored block, as many as input and room allow. */
    method DoCopy() returns (go: Leave)
      requires Core() && mode == COPY
      modifies this`hold, this`bits, this`next, this`m, this`mode, this`r, this`left, this`output
      ensures Core() && 8 * next - bits >= old(8 * next - bits) && |output| + left == old(|output| + left)
              && left <= old(left)
      ensures go == NoInput ==> Starved() && mode == COPY
      ensures go == NoOutput ==> left == 0 && Full()
      ensures go == Stay ==> mode == TYPE || 8 * next - bits > old(8 * next - bits)
    {
      hide *;
      CoreParts();
      CopyShown(mode, bits, r, m.c);
      var copy := r.length;
      AtCopy(hold, bits, m.c, r.length);
      if copy == 0 {
        Drop(0, m.c.(st := Type));
        mode := TYPE;
        ShowsPlain(mode, bits, r, m.c.st);
        Settled();
        return Stay;
      }
      FlowParts();
      if copy > |input| - next {
        copy := |input| - next;
      }
      if copy > left {
        copy := left;
      }
      if copy == 0 {
        if next == |input| {
          MakeStarved();
          return NoInput;
        }
        MakeFull();
        return NoOutput;
      }
      CopyBytes(copy);
      return Stay;
    }

    /** Bytes of a stored block go from the input to the output. */
    method CopyBytes(copy: nat)
      requires Flow() && hold >= 0 && bits == 0 && mode == COPY && m.c.st == Copy(r.length)
      requires 1 <= copy <= r.length && copy <= left && next + copy <= |input|
      requires m.c.last == last && m.c.out == hist + output && |r.lens| == 320
      requires Good(lenfix, Lens, FixedLit()) && Good(distfix, Dists, FixedDist())
      modifies this`hold, this`bits, this`next, this`m, this`r, this`left, this`output
      ensures Core() && 8 * next - bits > old(8 * next - bits) && |output| + left == old(|output| + left)
              && left <= old(left)
    {
      hide *;
      ghost var len, next0 := r.length, next;
      var k := 0;
      while k < copy
        invariant 0 <= k <= copy && next == next0 + k && copy <= len && next0 + copy <= |input| && next <= |input|
        invariant Flow() && m.c.st == Copy(len - k) && m.c.last == last && m.c.out == hist + output
        invariant r == old(r) && bits == 0 && mode == COPY
        invariant left == old(left) - k && |output| + left == old(|output| + left) && copy <= old(left)
      {
        ghost var o, b := output, input[next];
        CopyOne(len - k);
        assert (hist + o) + [b] == hist + (o + [b]);
        k := k + 1;
      }
      r := r.(length := r.length - copy);
      FlowParts();
      ShowsCopy(mode, bits, r, m.c.st);
      Settled();
    }

// ----- dynamic blocks

    /** TABLE: the sizes of the codes. */
    method DoTable() returns (ok: bool)
      requires Core() && mode == TABLE
      modifies this`hold, this`bits, this`next, this`m, this`mode, this`r
      ensures Core() && 8 * next - bits >= old(8 * next - bits)
      ensures !ok ==> Starved() && mode == TABLE
      ensures ok ==> 8 * next - bits > old(8 * next - bits)
    {
      hide *;
      CoreParts();
      TableShown(mode, bits, r, m.c);
      ghost var h0, b0 := hold, bits;
      ok := NeedBits(14);
      FlowParts();
      AtTable(hold, bits, m.c);
      ThriftyAfter(h0, b0, hold, bits, m.c, 14);
      if !ok {
        Await(b0);
        return;
      }
      TakeSizes();
    }

    /** The sizes, and whether they are allowed. */
    method TakeSizes()
      requires Flow() && hold >= 0 && 14 <= bits < 22 && m.c.st == State.Table
      requires m.c.last == last && m.c.out == hist + output && |r.lens| == 320
      requires Good(lenfix, Lens, FixedLit()) && Good(distfix, Dists, FixedDist())
      modifies this`hold, this`bits, this`m, this`mode, this`r
      ensures Core() && bits == old(bits) - 14
    {
      hide *;
      AtTable(hold, bits, m.c);
      var nlen, ndist, ncode := Low(hold, 5) + 257, Low(Shr(hold, 5), 5) + 1, Low(Shr(hold, 10), 4) + 4;
      Drop(14, StepAt(hold, bits, m.c).next);
      r := r.(nlen := nlen, ndist := ndist, ncode := ncode);
      if nlen > 286 || ndist > 30 {
        mode := BAD;
        ShowsPlain(mode, bits, r, m.c.st);
      } else {
        r := r.(have := 0);
        mode := LENLENS;
        ShowsLenLens0(mode, bits, r, m.c.st);
      }
      Settled();
    }

    /** Read one code length code length. */
    method OneLenLen() returns (ok: bool)
      requires Core() && mode == LENLENS && r.have < r.ncode
      modifies this`hold, this`bits, this`next, this`m, this`r
      ensures Core() && 8 * next - bits >= old(8 * next - bits)
      ensures r.ncode == old(r.ncode)
      ensures !ok ==> Starved()
      ensures ok ==> 8 * next - bits > old(8 * next - bits) && r.have == old(r.have) + 1
    {
      hide *;
      CoreParts();
      LenLensShown(mode, bits, r, m.c);
      ghost var h0, b0, read := hold, bits, m.c.st.read;
      ok := NeedBits(3);
      FlowParts();
      AtLenLens(hold, bits, m.c);
      ThriftyAfter(h0, b0, hold, bits, m.c, 3);
      if !ok {
        Await(b0);
        return;
      }
      var len := Low(hold, 3);
      SaneRead(m.c, r);
      ghost var r0, st0 := r, m.c.st;
      Drop(3, StepAt(hold, bits, m.c).next);
      r := r.(lens := r.lens[ORDER[r.have] := len], have := r.have + 1);
      ShowsLenLensNext(mode, b0, bits, r0, r, st0, m.c.st, len);
      Settled();
    }

    /** All code length code lengths are read: build their code. */
    method BuildCodeLens()
      requires Core() && mode == LENLENS && r.have >= r.ncode
      modifies this`hold, this`bits, this`m, this`mode, this`r
      ensures Core() && next == old(next) && bits == old(bits) && (mode == CODELENS || mode == BAD)
    {
      hide *;
      CoreParts();
      LenLensShown(mode, bits, r, m.c);
      ghost var read := m.c.st.read;
      AtLenLens(hold, bits, m.c);
      ThriftyMoves(hold, bits, m.c);
      var have, lens := r.have, r.lens;
      SaneRead(m.c, r);
      lens := FillLens(lens, have, read);
      var ret, tab := CodeLensTable(lens, read);
      Drop(0, StepAt(hold, bits, m.c).next);
      r := r.(lens := lens, have := 19);
      if ret != 0 {
        mode := BAD;
        ShowsPlain(mode, bits, r, m.c.st);
      } else {
        r := r.(have := 0, lencode := tab);
        mode := CODELENS;
        ShowsCodeLens0(mode, bits, r, m.c.st, read);
      }
      Settled();
    }

    /** LENLENS: the code length code. */
    method DoLenLens() returns (ok: bool)
      requires Core() && mode == LENLENS
      modifies this`hold, this`bits, this`next, this`m, this`mode, this`r
      ensures Core() && 8 * next - bits >= old(8 * next - bits)
      ensures !ok ==> Starved() && mode == LENLENS
      ensures ok ==> mode == CODELENS || mode == BAD
    {
      hide *;
      while r.have < r.ncode
        invariant Core() && mode == LENLENS && 8 * next - bits >= old(8 * next - bits)
        decreases r.ncode - r.have
      {
        ok := OneLenLen();
        if !ok {
          return;
        }
      }
      BuildCodeLens();
      ok := true;
    }

    /** Keep pulling in bytes until a code length symbol and the extra bits of its run are there. */
    method RunBitsThere(here: Entry, extra: nat, ghost code: seq<int>) returns (ok: bool)
      requires Flow() && hold >= 0 && Usable(Codes, code) && Answer(Codes, code, hold, bits, here)
               && 0 <= here.bits <= bits
      modifies this`hold, this`bits, this`next
      ensures Flow() && 8 * next - bits == old(8 * next - bits) && hold >= 0
      ensures old(bits) <= bits && (bits - old(bits)) % 8 == 0
      ensures Answer(Codes, code, hold, bits, here)
      ensures if ok then here.bits + extra <= bits && (bits == old(bits) || bits < here.bits + extra + 8)
              else next == |input| && bits < here.bits + extra
      ensures bits == old(bits) ==> hold == old(hold)
    {
      hide *;
      while bits < here.bits + extra
        invariant Flow() && 8 * next - bits == old(8 * next - bits) && hold >= 0
        invariant old(bits) <= bits && (bits - old(bits)) % 8 == 0
        invariant Answer(Codes, code, hold, bits, here) && here.bits <= bits
        invariant bits == old(bits) || bits < here.bits + extra + 8
        invariant bits == old(bits) ==> hold == old(hold)
      {
        FlowParts();
        if next == |input| {
          return false;
        }
        ghost var h0, b0 := hold, bits;
        PullByte();
        FlowParts();
        AnswerKept(Codes, code, h0, hold, b0, bits, here);
      }
      return true;
    }

    /** Read one code length, or a run of them. */
    method OneLength() returns (ok: bool)
      requires Core() && mode == CODELENS && r.have < r.nlen + r.ndist
      modifies this`hold, this`bits, this`next, this`m, this`mode, this`r
      ensures Core() && 8 * next - bits >= old(8 * next - bits) && (mode == CODELENS || mode == BAD)
      ensures !ok ==> Starved() && mode == CODELENS
      ensures ok ==> 8 * next - bits > old(8 * next - bits)
      ensures r.nlen == old(r.nlen) && r.ndist == old(r.ndist)
    {
      hide *;
      CoreParts();
      CodeLensShown(mode, bits, r, m.c);
      ghost var h0, b0, code := hold, bits, m.c.st.code;
      GoodUsable(r.lencode, Codes, code);
      var here;
      ghost var w;
      ok, here, w := RootCode(r.lencode, Codes, code);
      FlowParts();
      if !ok {
        AtCodeLensMore(hold, bits, m.c);
        Await(b0);
        return;
      }
      NoLinks(r.lencode, Codes, code, hold);
      LookUp(r.lencode, Codes, code, hold, bits);
      RootCases(r.lencode, Codes, code, hold, bits, here);
      WaitEnough(Codes, code, w, h0, b0, hold, bits, here);
      var extra := if here.val < 16 then 0 else if here.val == 16 then 2 else if here.val == 17 then 3 else 7;
      ok := RunBitsThere(here, extra, code);
      if !ok {
        RunStuck(hold, bits, m.c, here);
        Await(b0);
        return;
      }
      AtRun(hold, bits, m.c, here);
      RunSizes(here.val);
      RunThrifty(h0, b0, hold, bits, m.c, here, extra);
      ShowsMore(mode, b0, bits, r, m.c.st);
      MakeReady2(here, extra);
      if here.val < 16 {
        TakeLength(here);
      } else {
        TakeRepeat(here, extra);
      }
    }

    /** What is known once a code length symbol and its extra bits are in the accumulator. */
    ghost predicate RunReady(here: Entry, extra: nat)
      reads `base, `input, `next, `hold, `bits, `m, `mode, `last, `r, `hist, `output
    {
      && Flow() && hold >= 0 && mode == CODELENS && Shows(mode, bits, r, m.c.st) && Sane(m.c)
      && m.c.last == last && m.c.out == hist + output && |r.lens| == 320
      && Good(lenfix, Lens, FixedLit()) && Good(distfix, Dists, FixedDist())
      && r.have < r.nlen + r.ndist && 0 <= here.val < 19 && 1 <= here.bits && here.bits + extra <= bits
      && m.c.st.CodeLens? && StepAt(hold, bits, m.c) == StepRun(hold, bits, m.c, here.val, here.bits)
      && (bits < here.bits + extra + 8)
      && extra == (if here.val < 16 then 0 else RunBits(here.val))
    }

    /** A single code length. */
    method TakeLength(here: Entry)
      requires RunReady(here, 0) && here.val < 16
      modifies this`hold, this`bits, this`m, this`r
      ensures Core() && bits < old(bits) && r.nlen == old(r.nlen) && r.ndist == old(r.ndist)
    {
      hide *;
      ReadyParts(here, 0);
      CodeLensShown(mode, bits, r, m.c);
      ghost var r0, st0, b0 := r, m.c.st, bits;
      AtLength(hold, bits, m.c, here.val, here.bits);
      Drop(here.bits, m.c.(st := m.c.st.(lens := m.c.st.lens + [here.val])));
      r := r.(lens := r.lens[r.have := here.val], have := r.have + 1);
      ShowsLength(mode, b0, bits, r0, r, st0, m.c.st, here.val);
      Settled();
    }

    /** Bad data: the decoder drops k bits and stops. */
    method Refuse(k: nat)
      requires Flow() && hold >= 0 && StepAt(hold, bits, m.c) == Move(k, m.c.(st := Bad))
      requires m.c.last == last && m.c.out == hist + output && |r.lens| == 320
      requires Good(lenfix, Lens, FixedLit()) && Good(distfix, Dists, FixedDist())
      modifies this`hold, this`bits, this`m, this`mode
      ensures Core() && bits == old(bits) - k && mode == BAD
    {
      hide *;
      Drop(k, m.c.(st := Bad));
      mode := BAD;
      ThriftyEnd(hold, bits, m.c);
      ShowsPlain(mode, bits, r, m.c.st);
      MakeCore();
    }

    /** A run of lengths. */
    method TakeRepeat(here: Entry, extra: nat)
      requires RunReady(here, extra) && here.val >= 16
      modifies this`hold, this`bits, this`m, this`r, this`mode
      ensures Core() && bits < old(bits) && r.nlen == old(r.nlen) && r.ndist == old(r.ndist)
              && (mode == CODELENS || mode == BAD)
    {
      hide *;
      ReadyParts(here, extra);
      CodeLensShown(mode, bits, r, m.c);
      ghost var r0, st0, b0 := r, m.c.st, bits;
      AtRepeat(hold, bits, m.c, here.val, here.bits, extra);
      if here.val == 16 && r.have == 0 {
        Refuse(here.bits);
        return;
      }
      var len := if here.val == 16 then r.lens[r.have - 1] else 0;
      var copy := (if here.val == 18 then 11 else 3) + Low(Shr(hold, here.bits), extra);
      LowBound(Shr(hold, here.bits), extra);
      RepeatShown(mode, bits, r, m.c, here.val);
      if r.have + copy > r.nlen + r.ndist {
        Refuse(here.bits + extra);
        return;
      }
      PutRun(here.bits + extra, copy, len);
    }

    /** Enter copy lengths that are the same. */
    method PutRun(k: nat, copy: nat, len: int)
      requires Flow() && hold >= 0 && mode == CODELENS && Shows(mode, bits, r, m.c.st) && m.c.st.CodeLens?
      requires StepAt(hold, bits, m.c) == Move(k, m.c.(st := m.c.st.(lens := m.c.st.lens + seq(copy, i => len))))
      requires r.have + copy <= 316 && 1 <= k <= bits < k + 8
      requires m.c.last == last && m.c.out == hist + output && |r.lens| == 320
      requires Good(lenfix, Lens, FixedLit()) && Good(distfix, Dists, FixedDist())
      modifies this`hold, this`bits, this`m, this`r
      ensures Core() && bits == old(bits) - k && r.nlen == old(r.nlen) && r.ndist == old(r.ndist)
    {
      hide *;
      ghost var r0, st0, b0 := r, m.c.st, bits;
      var lens := WriteRun(r.lens, r.have, copy, len);
      Drop(k, m.c.(st := m.c.st.(lens := m.c.st.lens + seq(copy, i => len))));
      r := r.(lens := lens, have := r.have + copy);
      ShowsRun(mode, b0, bits, r0, r, st0, m.c.st, len, copy);
      Settled();
    }

    lemma ReadyParts(here: Entry, extra: nat)
      requires RunReady(here, extra)
      ensures Flow() && hold >= 0 && mode == CODELENS && Shows(mode, bits, r, m.c.st) && Sane(m.c)
      ensures m.c.last == last && m.c.out == hist + output && |r.lens| == 320
      ensures Good(lenfix, Lens, FixedLit()) && Good(distfix, Dists, FixedDist())
      ensures r.have < r.nlen + r.ndist && 0 <= here.val < 19 && 1 <= here.bits && here.bits + extra <= bits
      ensures m.c.st.CodeLens? && StepAt(hold, bits, m.c) == StepRun(hold, bits, m.c, here.val, here.bits)
      ensures bits < here.bits + extra + 8 && extra == (if here.val < 16 then 0 else RunBits(here.val))
    {
      hide Flow, Shows, Good, StepAt, StepRun, Sane, RunBits;
    }

    lemma MakeReady2(here: Entry, extra: nat)
      requires Flow() && hold >= 0 && mode == CODELENS && Shows(mode, bits, r, m.c.st) && Sane(m.c)
      requires m.c.last == last && m.c.out == hist + output && |r.lens| == 320
      requires Good(lenfix, Lens, FixedLit()) && Good(distfix, Dists, FixedDist())
      requires r.have < r.nlen + r.ndist && 0 <= here.val < 19 && 1 <= here.bits && here.bits + extra <= bits
      requires m.c.st.CodeLens? && StepAt(hold, bits, m.c) == StepRun(hold, bits, m.c, here.val, here.bits)
      requires bits < here.bits + extra + 8 && extra == (if here.val < 16 then 0 else RunBits(here.val))
      ensures RunReady(here, extra)
    {
      hide Flow, Shows, Good, StepAt, StepRun, Sane, RunBits;
    }

    /** All lengths are read: build the two codes of the block. */
    method BuildBlock()
      requires Core() && mode == CODELENS && r.have >= r.nlen + r.ndist
      modifies this`hold, this`bits, this`m, this`mode, this`r
      ensures Core() && next == old(next) && bits == old(bits) && (mode == LEN || mode == BAD)
    {
      hide *;
      CoreParts();
      CodeLensShown(mode, bits, r, m.c);
      AtBuild(hold, bits, m.c);
      ThriftyMoves(hold, bits, m.c);
      BlockSize(mode, bits, r, m.c);
      var lit, dist := r.lens[..r.nlen], r.lens[r.nlen..r.nlen + r.ndist];
      BlockShown(mode, bits, r, m.c, lit, dist);
      var ret, lencode, distcode := BlockTables(lit, dist);
      Drop(0, StepAt(hold, bits, m.c).next);
      if ret != 0 {
        mode := BAD;
        LensRefused(lit, dist);
        ShowsPlain(mode, bits, r, m.c.st);
      } else {
        r := r.(lencode := lencode, distcode := distcode);
        mode := LEN;
        LensBuilt(mode, bits, r, m.c.st, lit, dist);
      }
      Settled();
    }

    /** CODELENS: the code lengths of a dynamic block. */
    method DoCodeLens() returns (ok: bool)
      requires Core() && mode == CODELENS
      modifies this`hold, this`bits, this`next, this`m, this`mode, this`r
      ensures Core() && 8 * next - bits >= old(8 * next - bits)
      ensures !ok ==> Starved() && mode == CODELENS
      ensures ok ==> mode == LEN || mode == BAD
    {
      hide *;
      CoreParts();
      FlowParts();
      while r.have < r.nlen + r.ndist
        invariant Core() && mode == CODELENS && 8 * next - bits >= old(8 * next - bits)
        invariant 8 * next - bits <= 8 * |input|
        decreases 8 * |input| - (8 * next - bits)
      {
        ok := OneLength();
        if !ok {
          return;
        }
        if mode == BAD {
          return;
        }
        CoreParts();
        FlowParts();
      }
      BuildBlock();
      ok := true;
    }

    // ----- symbols of a block

    /** LEN: a literal or length code. */
    method DoLen() returns (ok: bool)
      requires Core() && mode == LEN
      modifies this`hold, this`bits, this`next, this`m, this`mode, this`r
      ensures Core() && 8 * next - bits >= old(8 * next - bits)
      ensures !ok ==> Starved() && mode == LEN
      ensures ok ==> 8 * next - bits > old(8 * next - bits)
    {
      hide *;
      CoreParts();
      LenShown(mode, bits, r, m.c);
      ghost var h0, b0, d := hold, bits, m.c.st.c;
      GoodUsable(r.lencode, Lens, d.lit);
      var here;
      ok, here := NextCode(r.lencode, Lens, d.lit);
      FlowParts();
      if !ok {
        AtLenMore(hold, bits, m.c);
        Await(b0);
        return;
      }
      AtLen(hold, bits, m.c, here);
      CodeThrifty(h0, b0, hold, bits, m.c, here.bits);
      TakeSymbol(here, d);
    }

    /** What the entry for a literal or length code says. */
    method TakeSymbol(here: Entry, ghost d: Pair)
      requires Flow() && hold >= 0 && 1 <= here.bits <= bits < here.bits + 8 && here.val >= 0
               && (here.op == 0 ==> here.val < 256)
      requires StepAt(hold, bits, m.c) == Move(here.bits, m.c.(st := LenTarget(d, here)))
      requires Good(r.lencode, Lens, d.lit) && Good(r.distcode, Dists, d.dist)
      requires m.c.last == last && m.c.out == hist + output && |r.lens| == 320
      requires Good(lenfix, Lens, FixedLit()) && Good(distfix, Dists, FixedDist())
      modifies this`hold, this`bits, this`m, this`mode, this`r
      ensures Core() && bits == old(bits) - here.bits
    {
      hide *;
      Drop(here.bits, m.c.(st := LenTarget(d, here)));
      LenValue(here, d);
      r := r.(length := here.val);
      if here.op == 0 {
        mode := LIT;
      } else if here.op / 32 % 2 == 1 {
        mode := TYPE;
      } else if here.op / 64 % 2 == 1 {
        mode := BAD;
      } else {
        r := r.(extra := here.op % 16);
        mode := LENEXT;
      }
      ShowsAfterLen(mode, bits, r, m.c.st, d, here);
      Settled();
    }

    /** LENEXT: the extra bits of a length. */
    method DoLenExt() returns (ok: bool)
      requires Core() && mode == LENEXT
      modifies this`hold, this`bits, this`next, this`m, this`mode, this`r
      ensures Core() && 8 * next - bits >= old(8 * next - bits)
      ensures !ok ==> Starved() && mode == LENEXT
      ensures ok ==> mode == DIST
    {
      hide *;
      CoreParts();
      LenExtShown(mode, bits, r, m.c);
      ghost var h0, b0, d := hold, bits, m.c.st.c;
      ok := NeedBits(r.extra);
      FlowParts();
      AtLenExt(hold, bits, m.c);
      ThriftyAfter(h0, b0, hold, bits, m.c, r.extra);
      if !ok {
        Await(b0);
        return;
      }
      var more := Low(hold, r.extra);
      LowBound(hold, r.extra);
      Drop(r.extra, m.c.(st := Dist(d, r.length + more)));
      r := r.(length := r.length + more);
      mode := DIST;
      ShowsDist(mode, bits, r, m.c.st, d);
      Settled();
    }

    /** DIST: a distance code. */
    method DoDist() returns (ok: bool)
      requires Core() && mode == DIST
      modifies this`hold, this`bits, this`next, this`m, this`mode, this`r
      ensures Core() && 8 * next - bits >= old(8 * next - bits)
      ensures !ok ==> Starved() && mode == DIST
      ensures ok ==> 8 * next - bits > old(8 * next - bits)
    {
      hide *;
      CoreParts();
      DistShown(mode, bits, r, m.c);
      ghost var h0, b0, d := hold, bits, m.c.st.c;
      GoodUsable(r.distcode, Dists, d.dist);
      var here;
      ok, here := NextCode(r.distcode, Dists, d.dist);
      FlowParts();
      if !ok {
        AtDistMore(hold, bits, m.c);
        Await(b0);
        return;
      }
      AtDist(hold, bits, m.c, here);
      CodeThrifty(h0, b0, hold, bits, m.c, here.bits);
      TakeDist(here, d);
    }

    method TakeDist(here: Entry, ghost d: Pair)
      requires Flow() && hold >= 0 && 1 <= here.bits <= bits < here.bits + 8 && here.val >= 0
               && m.c.st == Dist(d, r.length)
      requires StepAt(hold, bits, m.c) == Move(here.bits, m.c.(st := DistTarget(d, r.length, here)))
      requires m.c.last == last && m.c.out == hist + output && |r.lens| == 320
      requires Good(lenfix, Lens, FixedLit()) && Good(distfix, Dists, FixedDist())
      requires Good(r.lencode, Lens, d.lit) && Good(r.distcode, Dists, d.dist)
      modifies this`hold, this`bits, this`m, this`mode, this`r
      ensures Core() && bits < old(bits)
    {
      hide *;
      Drop(here.bits, m.c.(st := DistTarget(d, r.length, here)));
      DistValue(here, d, r.length);
      if here.op / 64 % 2 == 1 {
        mode := BAD;
      } else {
        r := r.(offset := here.val, extra := here.op % 16);
        mode := DISTEXT;
      }
      ShowsAfterDist(mode, bits, r, m.c.st, d, here);
      Settled();
    }

    /** The mode is one that puts out nothing more. */
    predicate Final()
      reads `mode
    {
      mode == CHECK || mode == DONE || mode == BAD
    }

    /** The window keeps the end of the output of earlier calls, as far as distances reach. */
    ghost predicate Remembers()
      reads this, window, window.buf
    {
      window.buf.Length == 32768 && (window.Holds(hist) || (window.wsize == 0 && Final()))
    }

    /** DISTEXT: the extra bits of a distance, and whether it reaches back too far. */
    method DoDistExt() returns (ok: bool)
      requires Core() && mode == DISTEXT && Remembers()
      modifies this`hold, this`bits, this`next, this`m, this`mode, this`r
      ensures Core() && 8 * next - bits >= old(8 * next - bits) && Remembers()
      ensures !ok ==> Starved() && mode == DISTEXT
      ensures ok ==> mode == MATCH || mode == BAD
    {
      hide *;
      Remembered();
      CoreParts();
      DistExtShown(mode, bits, r, m.c);
      ghost var h0, b0, d := hold, bits, m.c.st.c;
      ok := NeedBits(r.extra);
      FlowParts();
      AtDistExt(hold, bits, m.c);
      ThriftyAfter(h0, b0, hold, bits, m.c, r.extra);
      if !ok {
        Await(b0);
        RememberAgain();
        return;
      }
      LowBound(hold, r.extra);
      FarBack(hist, output, window.whave, r.offset + Low(hold, r.extra));
      TakeDistance(d);
      RememberAgain();
    }

    /** The distance with its extra bits. */
    method TakeDistance(ghost d: Pair)
      requires Flow() && hold >= 0 && r.extra <= bits < r.extra + 8 && Good(r.lencode, Lens, d.lit)
               && Good(r.distcode, Dists, d.dist)
      requires r.offset + Low(hold, r.extra) > window.whave + |output| <==> r.offset + Low(hold, r.extra) > |m.c.out|
      requires var o := r.offset + Low(hold, r.extra);
               0 <= o <= 32768 && StepAt(hold, bits, m.c)
               == Move(r.extra, m.c.(st := if o > |m.c.out| then Bad else Match(d, r.length, o)))
      requires m.c.last == last && m.c.out == hist + output && |r.lens| == 320
      requires Good(lenfix, Lens, FixedLit()) && Good(distfix, Dists, FixedDist())
      modifies this`hold, this`bits, this`m, this`mode, this`r
      ensures Core() && (mode == MATCH || mode == BAD) && bits == old(bits) - old(r.extra)
    {
      hide *;
      var more := Low(hold, r.extra);
      Drop(r.extra, StepAt(hold, bits, m.c).next);
      r := r.(offset := r.offset + more);
      if r.offset > window.whave + |output| {
        mode := BAD;
        ShowsPlain(mode, bits, r, m.c.st);
      } else {
        mode := MATCH;
        ShowsMatch(mode, bits, r, m.c.st, d);
      }
      Settled();
    }

    lemma Remembered()
      requires Remembers() && (mode == DISTEXT || mode == MATCH || mode == LEN)
      ensures window.buf.Length == 32768 && window.Holds(hist) && window.whave == Min(|hist|, 32768)
    {
    }

    lemma RememberAgain()
      requires window.buf.Length == 32768 && window.Holds(hist)
      ensures Remembers()
    {
    }

    /** Put out one byte of a match: the byte that far back. */
    method MatchByte(b: Byte, ghost d: Pair, ghost len: nat, ghost dist: nat)
      requires Flow() && hold >= 0 && left > 0 && m.c.st == Match(d, len, dist) && len >= 1 && m.c.out == hist + output
      requires 1 <= dist <= |m.c.out| && b == m.c.out[|m.c.out| - dist]
      modifies this`m, this`left, this`output
      ensures Flow() && left == old(left) - 1 && output == old(output) + [b] && m.pos == old(m).pos
      ensures m.c == Config(if len == 1 then Len(d) else Match(d, len - 1, dist), old(m).c.last, hist + output)
    {
      hide *;
      FlowParts();
      AtMatch(hold, bits, m.c);
      ghost var c := Config(if len == 1 then Len(d) else Match(d, len - 1, dist), m.c.last, m.c.out + [b]);
      StepZero(hold, bits, Consumed(base, input, next), m, c);
      assert (hist + output) + [b] == hist + (output + [b]);
      m := Machine(c, m.pos);
      output := output + [b];
      left := left - 1;
      MakeFlow();
    }

    /** Where the bytes of a match come from, and how many can be had from there at once. */
    method MatchSource() returns (fromWindow: bool, from: nat, copy: nat)
      requires window.Holds(hist) && window.buf.Length == 32768 && r.length >= 1
      requires 1 <= r.offset <= 32768 && r.offset <= |hist| + |output|
      ensures 1 <= copy <= r.length
      ensures fromWindow ==> from + copy <= window.buf.Length
      ensures fromWindow ==> Sourced(window.buf[..], from, copy, hist + output, r.offset)
      ensures !fromWindow ==> from + r.offset == |output| && copy == r.length && r.offset <= |output|
    {
      hide *;
      copy := |output|;
      if r.offset > copy {
        InUse();
        copy := r.offset - copy;
        WindowSource(window.buf[..], window.write, window.whave, hist, output, r.offset);
        if copy > window.write {
          copy := copy - window.write;
          from := window.wsize - copy;
        } else {
          from := window.write - copy;
        }
        SourcedLess(window.buf[..], from, copy, if copy > r.length then r.length else copy, hist + output, r.offset);
        if copy > r.length {
          copy := r.length;
        }
        fromWindow := true;
      } else {
        from := |output| - r.offset;
        copy := r.length;
        fromWindow := false;
      }
    }

    lemma InUse()
      requires window.Holds(hist) && window.buf.Length == 32768 && hist != []
      ensures window.wsize == window.buf.Length && Mirrors(window.buf[..], window.write, window.whave, hist)
    {
      hide Mirrors;
    }

    /** MATCH: copy bytes of a match, as many as there is room for and as can be had from one place. */
    method DoMatch() returns (go: Leave)
      requires Core() && mode == MATCH && Remembers()
      modifies this`m, this`mode, this`r, this`left, this`output
      ensures Core() && Remembers() && |output| + left == old(|output| + left)
      ensures go == NoOutput ==> left == 0 && Full()
      ensures go == NoOutput || (go == Stay && left < old(left) && (mode == LEN || mode == MATCH))
    {
      hide *;
      CoreParts();
      Remembered();
      if left == 0 {
        MakeFull();
        return NoOutput;
      }
      MatchShown(mode, bits, r, m.c);
      AtMatch(hold, bits, m.c);
      ThriftyMoves(hold, bits, m.c);
      ghost var d := m.c.st.c;
      assert |m.c.out| == |hist| + |output|;
      var fromWindow, from, copy := MatchSource();
      if copy > left {
        if fromWindow {
          SourcedLess(window.buf[..], from, copy, left, hist + output, r.offset);
        }
        copy := left;
      }
      CopyPart(fromWindow, from, copy, d);
      RememberAgain();
      return Stay;
    }

    /** Part of a match, and what is then left of it. */
    method CopyPart(fromWindow: bool, from: nat, copy: nat, ghost d: Pair)
      requires Flow() && 0 <= bits < 8 && hold >= 0 && mode == MATCH
      requires 1 <= copy <= left && m.c.st == Match(d, r.length, r.offset) && copy <= r.length
               && 1 <= r.offset <= |hist| + |output|
      requires fromWindow ==> from + copy <= window.buf.Length
                              && Sourced(window.buf[..], from, copy, hist + output, r.offset)
      requires !fromWindow ==> from + r.offset == |output|
      requires Good(r.lencode, Lens, d.lit) && Good(r.distcode, Dists, d.dist) && r.offset <= 32768
      requires m.c.last == last && m.c.out == hist + output && |r.lens| == 320
      requires Good(lenfix, Lens, FixedLit()) && Good(distfix, Dists, FixedDist())
      modifies this`m, this`mode, this`r, this`left, this`output
      ensures Core() && |output| + left == old(|output| + left) && left < old(left) && (mode == LEN || mode == MATCH)
    {
      hide *;
      CopyMatch(fromWindow, from, copy, d);
      r := r.(length := r.length - copy);
      if r.length == 0 {
        mode := LEN;
        ShowsLen(mode, bits, r, m.c.st, d);
      } else {
        ShowsMatch(mode, bits, r, m.c.st, d);
      }
      FlowParts();
      Settled();
    }

    /** Copy bytes one at a time; source and destination may overlap. */
    method CopyMatch(fromWindow: bool, from: nat, copy: nat, ghost d: Pair)
      requires Flow() && hold >= 0 && 1 <= copy <= left && m.c.st == Match(d, r.length, r.offset)
               && m.c.out == hist + output
      requires copy <= r.length && 1 <= r.offset <= |hist| + |output|
      requires fromWindow ==> from + copy <= window.buf.Length
                              && Sourced(window.buf[..], from, copy, hist + output, r.offset)
      requires !fromWindow ==> from + r.offset == |output|
      modifies this`m, this`left, this`output
      ensures Flow() && left == old(left) - copy && |output| == old(|output|) + copy
      ensures m.c == Config(if copy == r.length then Len(d)
                            else Match(d, r.length - copy, r.offset), old(m).c.last, hist + output)
    {
      hide *;
      ghost var o, w, len, dist := output, window.buf[..], r.length, r.offset;
      var k := 0;
      while k < copy
        invariant 0 <= k <= copy && r == old(r) && w == window.buf[..] && o <= output && |output| == |o| + k
                  && left == old(left) - k
        invariant Flow() && hold >= 0
        invariant m.c == Config(if k == len then Len(d) else Match(d, len - k, dist), old(m).c.last, hist + output)
      {
        var b := if fromWindow then window.buf[from + k] else output[from + k];
        if fromWindow {
          SourcedAt(w, from, copy, hist, o, output, dist, k);
        } else {
          OverlapAt(hist, o, output, dist, k);
        }
        MatchByte(b, d, len - k, dist);
        FlowParts();
        k := k + 1;
      }
    }

    /** LIT: put out a literal. */
    method DoLit() returns (go: Leave)
      requires Core() && mode == LIT
      modifies this`hold, this`bits, this`m, this`mode, this`left, this`output
      ensures Core() && next == old(next) && bits == old(bits) && |output| + left == old(|output| + left)
      ensures go == NoOutput ==> left == 0 && Full()
      ensures go == NoOutput || (go == Stay && left == old(left) - 1 && mode == LEN)
    {
      hide *;
      CoreParts();
      if left == 0 {
        MakeFull();
        return NoOutput;
      }
      LitShown(mode, bits, r, m.c);
      ghost var d := m.c.st.c;
      AtLit(hold, bits, m.c);
      ThriftyMoves(hold, bits, m.c);
      var b: Byte := r.length;
      Drop(0, Config(Len(d), m.c.last, m.c.out + [b]));
      assert (hist + output) + [b] == hist + (output + [b]);
      output := output + [b];
      left := left - 1;
      mode := LEN;
      ShowsLen(mode, bits, r, m.c.st, d);
      Settled();
      return Stay;
    }

    /** CHECK: raw data has no check value. */
    method DoCheck()
      requires Core() && mode == CHECK
      modifies this`hold, this`bits, this`m, this`mode
      ensures Core() && next == old(next) && bits == old(bits) && mode == DONE
    {
      hide *;
      CoreParts();
      AtCheck(mode, hold, bits, r, m.c);
      Drop(0, m.c.(st := Done));
      mode := DONE;
      ShowsPlain(mode, bits, r, m.c.st);
      ThriftyEnd(hold, bits, m.c);
      MakeCore();
    }

    // ----- inflate_fast

    /** The fast path is under way: the decoder's state is reached on the bytes it has used bits of, and lo. */
    ghost predicate Running(lo: nat)
      reads `base, `input, `next, `hold, `bits, `m, `last, `hist, `output
    {
      && Flow() && hold >= 0 && m.c.last == last && m.c.out == hist + output && Sane(m.c)
      && lo <= |base| + next && TightReach(base + input, lo, m)
    }

    lemma RunningParts(lo: nat)
      requires Running(lo)
      ensures Flow() && hold >= 0 && next <= |input| && m.c.last == last && m.c.out == hist + output && Sane(m.c)
      ensures lo <= |base| + next && TightReach(base + input, lo, m)
      ensures m.pos + bits == 8 * (|base| + next)
      ensures Reservoir(hold, bits, (base + input)[..|base| + next], m)
    {
      hide TightReach, Sane, Reaches, Value, Shr;
      assert (base + input)[..|base| + next] == base + input[..next];
    }

    lemma MakeRunning(lo: nat)
      requires Flow() && hold >= 0 && m.c.last == last && m.c.out == hist + output && Sane(m.c)
      requires lo <= |base| + next && TightReach(base + input, lo, m)
      ensures Running(lo)
    {
      hide Flow, TightReach, Sane;
    }

    /** Pull in a byte that is known to be there. */
    method FastPull(ghost lo: nat)
      requires Running(lo) && next < |input|
      modifies this`hold, this`bits, this`next
      ensures Running(lo) && next == old(next) + 1 && bits == old(bits) + 8
      ensures old(hold) >= 0 && Agree(old(hold), hold, old(bits))
    {
      hide *;
      RunningParts(lo);
      PullByte();
      FlowParts();
      MakeRunning(lo);
    }

    /** Drop bits of an exact step. */
    method FastDrop(k: nat, ghost c: Config, ghost lo: nat)
      requires Running(lo) && hold >= 0 && StepAt(hold, bits, m.c) == Move(k, c) && Exact(m.c) && c.last == m.c.last
               && c.out == m.c.out
      modifies this`hold, this`bits, this`m
      ensures Running(lo) && bits == old(bits) - k && m == Machine(c, old(m).pos + k)
    {
      hide *;
      RunningParts(lo);
      ghost var n := |base| + next;
      TightNext(base + input, lo, n, hold, bits, m, k, c);
      ghost var pos := m.pos;
      Drop(k, c);
      MakeRunning(lo);
    }

    /** Fifteen bits are enough for any code: look it up without asking for input. */
    method FastCode(tab: CodeTable, ghost kind: CodeType, ghost lens: seq<int>) returns (here: Entry)
      requires hold >= 0 && bits >= 15 && Good(tab, kind, lens)
      ensures Answer(kind, lens, hold, bits, here) && 1 <= here.bits <= 15 && !Link(here)
    {
      hide *;
      FifteenBits();
      LookUp(tab, kind, lens, hold, bits);
      LookUpBits(tab, kind, lens, hold);
      here := tab.t[tab.base + Low(hold, tab.bits)];
      RootCases(tab, kind, lens, hold, bits, here);
      LinkIs(here);
      if 0 < here.op < 16 {
        SubCases(tab, kind, lens, hold, bits, here);
        var sub := tab.t[tab.base + here.val + Low(Shr(hold, here.bits), here.op)];
        LinkIs(sub);
        here := Entry(sub.op, here.bits + sub.bits, sub.val);
        LinkIs(here);
      }
      AnswerPositive(kind, lens, hold, bits, here);
    }

    /** Have at least fifteen bits. */
    method Refill(ghost lo: nat, ghost p0: nat, ghost n0: nat)
      requires Running(lo) && n0 + 6 <= |input| && p0 <= 8 * (|base| + n0) && m.pos <= p0 + 20
      modifies this`hold, this`bits, this`next
      ensures Running(lo) && bits >= 15
      ensures bits == old(bits) ==> hold == old(hold) && next == old(next)
      ensures bits != old(bits) ==> old(bits) < 15 && bits == old(bits) + 16
      ensures old(hold) >= 0 && Agree(old(hold), hold, old(bits))
    {
      hide *;
      RunningParts(lo);
      AgreeSelf(hold, bits);
      if bits < 15 {
        ghost var h0, b0 := hold, bits;
        FastPull(lo);
        RunningParts(lo);
        ghost var h1 := hold;
        FastPull(lo);
        RunningParts(lo);
        AgreeLess(h1, hold, b0 + 8, b0);
        AgreeVia(h0, h1, hold, b0);
      }
    }

    /** Have at least n bits, n at most 13. */
    method RefillSome(n: nat, ghost lo: nat, ghost p0: nat, ghost n0: nat)
      requires Running(lo) && n0 + 6 <= |input| && p0 <= 8 * (|base| + n0) && m.pos + n <= p0 + 48 && n <= 13
      modifies this`hold, this`bits, this`next
      ensures Running(lo) && bits >= n
    {
      hide *;
      RunningParts(lo);
      if bits < n {
        FastPull(lo);
        RunningParts(lo);
        if bits < n {
          FastPull(lo);
        }
      }
    }

    /** One byte of a match on the fast path. */
    method FastByte(b: Byte, ghost d: Pair, ghost len: nat, ghost dist: nat, ghost lo: nat)
      requires Running(lo) && left > 0 && m.c.st == Match(d, len, dist) && len >= 1 && 1 <= dist <= |m.c.out|
      requires b == m.c.out[|m.c.out| - dist]
      modifies this`m, this`left, this`output
      ensures Running(lo) && left == old(left) - 1 && output == old(output) + [b] && m.pos == old(m).pos
      ensures m.c == Config(if len == 1 then Len(d) else Match(d, len - 1, dist), old(m).c.last, hist + output)
    {
      hide *;
      RunningParts(lo);
      AtMatch(hold, bits, m.c);
      MatchExact(m.c);
      ghost var c := Config(if len == 1 then Len(d) else Match(d, len - 1, dist), m.c.last, m.c.out + [b]);
      ghost var all, n, m0 := base + input, |base| + next, m;
      TightNext(all, lo, n, hold, bits, m, 0, c);
      MatchByte(b, d, len, dist);
      assert (hist + old(output)) + [b] == hist + output;
      FlowParts();
      FlowSane();
      MakeRunning(lo);
    }

    /** Copy n bytes of a match from one place, one at a time. */
    method FastSegment(fromWindow: bool, from: nat, n: nat, ghost d: Pair, ghost len: nat, ghost dist: nat,
                       ghost lo: nat)
      requires Running(lo) && 1 <= n <= left && m.c.st == Match(d, len, dist) && n <= len && 1 <= dist <= |m.c.out|
      requires fromWindow ==> from + n <= window.buf.Length && Sourced(window.buf[..], from, n, hist + output, dist)
      requires !fromWindow ==> from + dist == |output|
      modifies this`m, this`left, this`output
      ensures Running(lo) && left == old(left) - n && |output| == |old(output)| + n && old(output) <= output
              && m.pos == old(m).pos
      ensures m.c == Config(if n == len then Len(d) else Match(d, len - n, dist), old(m).c.last, hist + output)
    {
      hide *;
      RunningParts(lo);
      ghost var o, w := output, window.buf[..];
      var k := 0;
      while k < n
        invariant 0 <= k <= n && w == window.buf[..] && o <= output && |output| == |o| + k && left == old(left) - k
        invariant Running(lo) && m.pos == old(m).pos
        invariant m.c == Config(if k == len then Len(d) else Match(d, len - k, dist), old(m).c.last, hist + output)
      {
        var b := if fromWindow then window.buf[from + k] else output[from + k];
        if fromWindow {
          SourcedAt(w, from, n, hist, o, output, dist, k);
        } else {
          OverlapAt(hist, o, output, dist, k);
        }
        FastByte(b, d, len - k, dist, lo);
        k := k + 1;
      }
    }

    /** Copy the rest of a match three bytes at a time, then one or two more. */
    method FastThrees(fromWindow: bool, from0: nat, len0: nat, ghost d: Pair, ghost dist: nat, ghost lo: nat)
      requires Running(lo) && 1 <= len0 <= left && m.c.st == Match(d, len0, dist) && 1 <= dist <= |m.c.out|
      requires fromWindow ==> from0 + len0 <= window.buf.Length
                              && Sourced(window.buf[..], from0, len0, hist + output, dist)
      requires !fromWindow ==> from0 + dist == |output|
      modifies this`m, this`left, this`output
      ensures Running(lo) && left == old(left) - len0 && |output| == |old(output)| + len0 && m.pos == old(m).pos
      ensures m.c == Config(Len(d), old(m).c.last, hist + output)
    {
      hide *;
      RunningParts(lo);
      var len, from := len0, from0;
      ghost var o := output;
      while len > 2
        invariant 0 <= len <= len0 && from == from0 + (len0 - len) && left == old(left) - (len0 - len)
        invariant Running(lo) && m.pos == old(m).pos && |output| == |o| + (len0 - len)
        invariant m.c == Config(if len == 0 then Len(d) else Match(d, len, dist), old(m).c.last, hist + output)
        invariant fromWindow ==> from + len <= window.buf.Length
                                 && Sourced(window.buf[..], from, len, hist + output, dist)
      {
        Three(fromWindow, from, len, d, dist, lo);
        from := from + 3;
        len := len - 3;
      }
      if len > 0 {
        if fromWindow {
          RunningParts(lo);
        }
        FastSegment(fromWindow, from, len, d, len, dist, lo);
      }
    }

    /** Three bytes of a match. */
    method Three(fromWindow: bool, from: nat, ghost len: nat, ghost d: Pair, ghost dist: nat, ghost lo: nat)
      requires Running(lo) && 3 <= len <= left && m.c.st == Match(d, len, dist) && 1 <= dist <= |m.c.out|
      requires fromWindow ==> from + len <= window.buf.Length && Sourced(window.buf[..], from, len, hist + output, dist)
      requires !fromWindow ==> from + dist == |output|
      modifies this`m, this`left, this`output
      ensures Running(lo) && left == old(left) - 3 && |output| == |old(output)| + 3 && m.pos == old(m).pos
      ensures m.c == Config(if len == 3 then Len(d) else Match(d, len - 3, dist), old(m).c.last, hist + output)
      ensures fromWindow ==> Sourced(window.buf[..], from + 3, len - 3, hist + output, dist)
    {
      hide *;
      ghost var o, w := output, window.buf[..];
      if fromWindow {
        SourcedLess(w, from, len, 3, hist + output, dist);
      }
      FastSegment(fromWindow, from, 3, d, len, dist, lo);
      if fromWindow {
        SourcedRest(w, from, len, 3, hist, o, output, dist);
      }
    }

    /** Copy a match, from the window where it starts before this call's output. */
    method FastCopy(len0: nat, dist: nat, ghost d: Pair, ghost lo: nat)
      requires Running(lo) && window.buf.Length == 32768 && window.Holds(hist)
      requires 3 <= len0 <= left && m.c.st == Match(d, len0, dist) && 1 <= dist <= |m.c.out| && dist <= 32768
      modifies this`m, this`left, this`output
      ensures Running(lo) && left == old(left) - len0 && |output| + left == old(|output| + left) && m.pos == old(m).pos
      ensures m.c == Config(Len(d), old(m).c.last, hist + output)
    {
      hide *;
      RunningParts(lo);
      var len := len0;
      if dist > |output| {
        InUse();
        WindowSource(window.buf[..], window.write, window.whave, hist, output, dist);
        var op := dist - |output|;
        var from: nat;
        if window.write == 0 {
          from := window.wsize - op;
          FastWindow(from, op, len, dist, d, lo);
        } else if window.write < op {
          from := window.wsize + window.write - op;
          FastWrapped(from, op - window.write, len, dist, d, lo);
        } else {
          from := window.write - op;
          FastWindow(from, op, len, dist, d, lo);
        }
      } else {
        FastDirect(len, dist, d, lo);
      }
    }

    /** Some from the window, the rest from the output. */
    method FastWindow(from: nat, op: nat, len0: nat, dist: nat, ghost d: Pair, ghost lo: nat)
      requires Running(lo) && 3 <= len0 <= left && m.c.st == Match(d, len0, dist) && 1 <= dist <= |m.c.out|
      requires op == dist - |output| > 0 && from + op <= window.buf.Length
               && Sourced(window.buf[..], from, op, hist + output, dist)
      modifies this`m, this`left, this`output
      ensures Running(lo) && left == old(left) - len0 && |output| + left == old(|output| + left) && m.pos == old(m).pos
      ensures m.c == Config(Len(d), old(m).c.last, hist + output)
    {
      hide *;
      RunningParts(lo);
      var len := len0;
      if op < len {
        len := len - op;
        FastSegment(true, from, op, d, len0, dist, lo);
        RunningParts(lo);
        FastThrees(false, |output| - dist, len, d, dist, lo);
      } else {
        SourcedLess(window.buf[..], from, op, len, hist + output, dist);
        FastThrees(true, from, len, d, dist, lo);
      }
    }

    /** Some from the end of the window, some from its start, the rest from the output. */
    method FastWrapped(from: nat, op: nat, len0: nat, dist: nat, ghost d: Pair, ghost lo: nat)
      requires Running(lo) && window.buf.Length == 32768 && window.Holds(hist) && hist != [] && dist <= 32768
      requires 3 <= len0 <= left && m.c.st == Match(d, len0, dist) && 1 <= dist <= |m.c.out|
      requires 0 < window.write && op == dist - |output| - window.write > 0
      requires from + op <= window.buf.Length && Sourced(window.buf[..], from, op, hist + output, dist)
      modifies this`m, this`left, this`output
      ensures Running(lo) && left == old(left) - len0 && |output| + left == old(|output| + left) && m.pos == old(m).pos
      ensures m.c == Config(Len(d), old(m).c.last, hist + output)
    {
      hide *;
      RunningParts(lo);
      var len := len0;
      if op < len {
        len := len - op;
        FastSegment(true, from, op, d, len0, dist, lo);
        RunningParts(lo);
        InUse();
        WindowSource(window.buf[..], window.write, window.whave, hist, output, dist);
        if window.write < len {
          ghost var len1 := len;
          len := len - window.write;
          FastSegment(true, 0, window.write, d, len1, dist, lo);
          RunningParts(lo);
          FastThrees(false, |output| - dist, len, d, dist, lo);
        } else {
          SourcedLess(window.buf[..], 0, window.write, len, hist + output, dist);
          FastThrees(true, 0, len, d, dist, lo);
        }
      } else {
        SourcedLess(window.buf[..], from, op, len, hist + output, dist);
        FastThrees(true, from, len, d, dist, lo);
      }
    }

    /** All from the output; the first three bytes without a check, the minimum length being three. */
    method FastDirect(len0: nat, dist: nat, ghost d: Pair, ghost lo: nat)
      requires Running(lo) && 3 <= len0 <= left && m.c.st == Match(d, len0, dist) && 1 <= dist <= |output|
      modifies this`m, this`left, this`output
      ensures Running(lo) && left == old(left) - len0 && |output| + left == old(|output| + left) && m.pos == old(m).pos
      ensures m.c == Config(Len(d), old(m).c.last, hist + output)
    {
      hide *;
      RunningParts(lo);
      ghost var last0 := m.c.last;
      var from, len := |output| - dist, len0;
      Three(false, from, len, d, dist, lo);
      from := from + 3;
      len := len - 3;
      if len > 0 {
        RunningParts(lo);
        FastThrees(false, from, len, d, dist, lo);
      }
    }

    /** The input position, or the bits that did not suffice when the fast path was entered. */
    ghost predicate Eager(lo: nat, d: Pair)
      reads `base, `next, `hold, `bits, `m
    {
      hold >= 0 && (8 * lo <= m.pos + 7 || (lo == |base| + next && SymbolAt(d.lit, hold, bits) == More))
    }

    /** A symbol decoded: what the rest of the loop body starts from. */
    ghost predicate Decoded(lo: nat, d: Pair, p0: nat, n0: nat)
      reads `base, `input, `next, `hold, `bits, `m, `last, `hist, `output, `r, window, window.buf
    {
      && Running(lo) && 8 * lo <= m.pos + 7 && n0 + 6 <= |input| && p0 <= 8 * (|base| + n0)
      && Good(r.lencode, Lens, d.lit) && Good(r.distcode, Dists, d.dist)
      && window.buf.Length == 32768 && window.Holds(hist)
    }

    lemma DecodedParts(lo: nat, d: Pair, p0: nat, n0: nat)
      requires Decoded(lo, d, p0, n0)
      ensures Running(lo) && 8 * lo <= m.pos + 7 && n0 + 6 <= |input| && p0 <= 8 * (|base| + n0)
      ensures Good(r.lencode, Lens, d.lit) && Good(r.distcode, Dists, d.dist)
      ensures window.buf.Length == 32768 && window.Holds(hist)
    {
      hide Running, Good;
    }

    lemma MakeDecoded(lo: nat, d: Pair, p0: nat, n0: nat)
      requires Running(lo) && 8 * lo <= m.pos + 7 && n0 + 6 <= |input| && p0 <= 8 * (|base| + n0)
      requires Good(r.lencode, Lens, d.lit) && Good(r.distcode, Dists, d.dist)
      requires window.buf.Length == 32768 && window.Holds(hist)
      ensures Decoded(lo, d, p0, n0)
    {
      hide Running, Good;
    }

    /** The next literal/length code. */
    method FastSymbol(ghost lo: nat, ghost d: Pair, ghost p0: nat, ghost n0: nat) returns (here: Entry)
      requires Running(lo) && Eager(lo, d) && m.c.st == Len(d) && next == n0 && n0 + 6 <= |input| && m.pos == p0
      requires Good(r.lencode, Lens, d.lit) && Good(r.distcode, Dists, d.dist)
      requires window.buf.Length == 32768 && window.Holds(hist)
      modifies this`hold, this`bits, this`next, this`m
      ensures Decoded(lo, d, p0, n0) && p0 < m.pos <= p0 + 15
      ensures m.c == Config(LenTarget(d, here), last, hist + output)
      ensures here.val >= 0 && (here.op == 0 ==> here.val < 256) && FastOp(here)
    {
      hide *;
      RunningParts(lo);
      EagerCases(lo, d);
      GoodUsable(r.lencode, Lens, d.lit);
      ghost var h0, b0 := hold, bits;
      Refill(lo, p0, n0);
      RunningParts(lo);
      here := FastCode(r.lencode, Lens, d.lit);
      AtLen(hold, bits, m.c, here);
      FastOps(Lens, d.lit, hold, bits, here);
      if 8 * lo > m.pos + 7 {
        FastEnough(d.lit, h0, hold, b0, bits, here);
      }
      MatchExact(m.c);
      FastDrop(here.bits, m.c.(st := LenTarget(d, here)), lo);
      RunningParts(lo);
      MakeDecoded(lo, d, p0, n0);
    }

    lemma EagerCases(lo: nat, d: Pair)
      requires Eager(lo, d)
      ensures 8 * lo <= m.pos + 7 || (lo == |base| + next && SymbolAt0(d.lit, hold, bits) == More)
    {
      hide SymbolAt;
    }

    /** A literal on the fast path. */
    method FastLiteral(b: Byte, ghost lo: nat, ghost d: Pair)
      requires Running(lo) && m.c.st == Lit(d, b) && left > 0
      modifies this`hold, this`bits, this`m, this`left, this`output
      ensures Running(lo) && left == old(left) - 1 && |output| + left == old(|output| + left) && m.pos == old(m).pos
      ensures m.c == Config(Len(d), old(m).c.last, hist + output) && bits == old(bits)
    {
      hide *;
      RunningParts(lo);
      AtLit(hold, bits, m.c);
      MatchExact(m.c);
      ghost var c := Config(Len(d), m.c.last, m.c.out + [b]);
      TightNext(base + input, lo, |base| + next, hold, bits, m, 0, c);
      Drop(0, c);
      assert (hist + output) + [b] == hist + (output + [b]);
      output := output + [b];
      left := left - 1;
      FlowParts();
      FlowSane();
      MakeRunning(lo);
    }

    /** The rest of a length: its extra bits, then the distance code. */
    method FastLength(here: Entry, ghost lo: nat, ghost d: Pair, ghost p0: nat, ghost n0: nat)
        returns (len: nat, code: Entry)
      requires here.val >= 0 && Decoded(lo, d, p0, n0) && m.pos <= p0 + 15
               && m.c.st == LenExt(d, here.val, here.op % 16)
      modifies this`hold, this`bits, this`next, this`m
      ensures Decoded(lo, d, p0, n0) && old(m).pos < m.pos <= p0 + 35
      ensures m.c == Config(DistTarget(d, len, code), last, hist + output) && 3 <= len <= 258
      ensures code.val >= 0 && FastOp(code) && code.op != 0 && code.op != 96
    {
      hide *;
      DecodedParts(lo, d, p0, n0);
      RunningParts(lo);
      LenExtSane(m.c);
      len := here.val;
      var op := here.op % 16;
      if op != 0 {
        RefillSome(op, lo, p0, n0);
        RunningParts(lo);
      }
      AtLenExt(hold, bits, m.c);
      LowBound(hold, op);
      MatchExact(m.c);
      LowNone(hold);
      len := len + Low(hold, op);
      FastDrop(op, m.c.(st := Dist(d, len)), lo);
      RunningParts(lo);
      Refill(lo, p0, n0);
      RunningParts(lo);
      code := FastCode(r.distcode, Dists, d.dist);
      AtDist(hold, bits, m.c, code);
      FastOps(Dists, d.dist, hold, bits, code);
      DistOps(d.dist, hold, bits, code);
      MatchExact(m.c);
      FastDrop(code.bits, m.c.(st := DistTarget(d, len, code)), lo);
      RunningParts(lo);
      MakeDecoded(lo, d, p0, n0);
    }

    /** The rest of a distance: its extra bits, the check that it is not too far back, and the copy. */
    method FastDistance(len: nat, code: Entry, ghost lo: nat, ghost d: Pair, ghost p0: nat, ghost n0: nat)
      requires code.val >= 0 && Decoded(lo, d, p0, n0) && m.pos <= p0 + 35 && mode == LEN
      requires m.c.st == DistExt(d, len, code.val, code.op % 16) && 3 <= len <= left
      modifies this`hold, this`bits, this`next, this`m, this`left, this`output, this`mode
      ensures Decoded(lo, d, p0, n0) && m.pos >= old(m).pos && |output| + left == old(|output| + left)
              && left <= old(left)
      ensures if mode == BAD then m.c.st == Bad else mode == old(mode) && m.c.st == Len(d)
    {
      hide *;
      DecodedParts(lo, d, p0, n0);
      RunningParts(lo);
      DistExtSane(m.c);
      var dist, op := code.val, code.op % 16;
      RefillSome(op, lo, p0, n0);
      RunningParts(lo);
      AtDistExt(hold, bits, m.c);
      LowBound(hold, op);
      MatchExact(m.c);
      dist := dist + Low(hold, op);
      HoldsWhave();
      FarBack(hist, output, window.whave, dist);
      ghost var c := StepAt(hold, bits, m.c).next;
      FastDrop(op, c, lo);
      RunningParts(lo);
      if dist > |output| && dist - |output| > window.whave {
        mode := BAD;
      } else {
        FastCopy(len, dist, d, lo);
        RunningParts(lo);
      }
      MakeDecoded(lo, d, p0, n0);
    }

    lemma HoldsWhave()
      requires window.Holds(hist) && window.buf.Length == 32768
      ensures window.whave == Min(|hist|, 32768)
    {
    }

    /** One round of the fast loop: a literal, a match, the end of the block, or bad data. */
    method FastRound(ghost lo: nat, ghost d: Pair)
      requires Running(lo) && Eager(lo, d) && m.c.st == Len(d) && next + 6 <= |input| && left >= 258 && mode == LEN
      requires Good(r.lencode, Lens, d.lit) && Good(r.distcode, Dists, d.dist)
      requires window.buf.Length == 32768 && window.Holds(hist)
      modifies this`hold, this`bits, this`next, this`m, this`left, this`output, this`mode
      ensures Running(lo) && 8 * lo <= m.pos + 7 && m.pos > old(m).pos && |output| + left == old(|output| + left)
              && left <= old(left)
      ensures if mode == LEN then m.c.st == Len(d) else if mode == TYPE then m.c.st == Type
              else mode == BAD && m.c.st == Bad
    {
      hide *;
      ghost var p0, n0 := m.pos, next;
      RunningParts(lo);
      var here := FastSymbol(lo, d, p0, n0);
      DecodedParts(lo, d, p0, n0);
      LenTargets(d, here);
      if here.op == 0 {
        FastLiteral(here.val, lo, d);
        RunningParts(lo);
      } else if here.op / 16 % 2 == 1 {
        var len, code := FastLength(here, lo, d, p0, n0);
        DistTargets(d, len, code);
        if code.op / 16 % 2 == 1 {
          FastDistance(len, code, lo, d, p0, n0);
          DecodedParts(lo, d, p0, n0);
        } else {
          mode := BAD;
          DecodedParts(lo, d, p0, n0);
        }
      } else if here.op / 32 % 2 == 1 {
        mode := TYPE;
      } else {
        mode := BAD;
      }
    }

    /** `inflate_fast`: decode symbols while there is input and room for any, then give back unused bytes. */
    method InflateFast()
      requires Core() && mode == LEN && Remembers() && next + 6 <= |input| && left >= 258
      modifies this`hold, this`bits, this`next, this`m, this`left, this`output, this`mode
      ensures Core() && Remembers() && (mode == LEN || mode == TYPE || mode == BAD)
      ensures 8 * next - bits > old(8 * next - bits) && |output| + left == old(|output| + left) && left <= old(left)
    {
      hide *;
      CoreParts();
      Remembered();
      LenShown(mode, bits, r, m.c);
      FlowParts();
      ghost var lo, d, all := |base| + next, m.c.st.c, base + input;
      FastStart(lo, d);
      RunningParts(lo);
      while true
        invariant Running(lo) && Eager(lo, d) && m.c.st == Len(d) && next + 6 <= |input| && left >= 258 && mode == LEN
        invariant m.pos >= old(m).pos && |output| + left == old(|output| + left) && left <= old(left)
        decreases left, 8 * |base + input| - m.pos
      {
        ghost var pos0, left0 := m.pos, left;
        FastRound(lo, d);
        RunningParts(lo);
        EagerLater(lo, d);
        if mode != LEN {
          break;
        }
        if !(|input| - next > 5 && left >= 258) {
          break;
        }
        assert |base + input| == |base| + |input|;
      }
      RunningParts(lo);
      ReturnUnused(lo);
      ShowsFast(mode, bits, r, m.c.st, d);
      Settled();
      RememberAgain();
    }

    lemma FastStart(lo: nat, d: Pair)
      requires Flow() && hold >= 0 && m.c.last == last && m.c.out == hist + output && Sane(m.c) && lo == |base| + next
      requires Thrifty(hold, bits, m.c) && m.c.st == Len(d)
      ensures Running(lo) && Eager(lo, d)
    {
      assert (base + input)[..lo] == base + input[..next];
      hide Reaches, Value, Shr, Sane;
      TightStart(base + input, lo, m);
      if bits >= 8 {
        LenStuck(hold, bits, m.c);
      }
      hide SymbolAt, TightReach;
    }

    lemma EagerLater(lo: nat, d: Pair)
      requires hold >= 0 && 8 * lo <= m.pos + 7
      ensures Eager(lo, d)
    {
    }

    /** Give back the bytes of which no bit was used. */
    method ReturnUnused(ghost lo: nat)
      requires Running(lo) && 8 * lo <= m.pos + 7 && |base| <= lo
      modifies this`hold, this`bits, this`next
      ensures Flow() && hold >= 0 && bits < 8 && 8 * next - bits == old(8 * next - bits)
    {
      hide *;
      RunningParts(lo);
      ghost var all, n := base + input, |base| + next;
      GiveBack(all, lo, n, hold, bits, m);
      var len := bits / 8;
      next := next - len;
      bits := bits - 8 * len;
      hold := Low(hold, bits);
      assert all[..n - len] == base + input[..next];
      ConsumedIs(base, input, next);
      MakeFlow();
    }

    // ----- the call

    /** Everything that holds between calls, and between the rounds of one. */
    ghost predicate Valid()
      reads this, window, window.buf
    {
      Core() && Remembers()
    }

    /** How far the machine can still go without using input or room. */
    function Rank(): nat
      reads `mode
    {
      match mode
      case HEAD => 10
      case COPY => 9
      case TYPE => 8
      case TYPEDO => 8
      case LENLENS => 7
      case CODELENS => 6
      case DIST => 4
      case DISTEXT => 3
      case MATCH => 2
      case CHECK => 1
      case DONE => 0
      case BAD => 0
      case _ => 5
    }

    /** States that need input only. */
    method StepInput() returns (ok: bool)
      requires Core() && Remembers() && mode != DONE && mode != BAD && mode != COPY && mode != MATCH && mode != LIT
      modifies this`hold, this`bits, this`next, this`m, this`mode, this`last, this`r
      ensures Core() && Remembers() && 8 * next - bits >= old(8 * next - bits)
      ensures !ok ==> Starved()
      ensures ok ==> 8 * next - bits > old(8 * next - bits) || Rank() < old(Rank())
    {
      hide Core, Starved, Flow, SlidingWindow.Holds;
      ghost var h := hist;
      match mode
      case HEAD => SkipHeader(); ok := true;
      case TYPE => ok := DoType();
      case TYPEDO => ok := DoType();
      case STORED => ok := DoStored();
      case TABLE => ok := DoTable();
      case LENLENS => ok := DoLenLens();
      case CODELENS => ok := DoCodeLens();
      case LEN => ok := DoLen();
      case LENEXT => ok := DoLenExt();
      case DIST => ok := DoDist();
      case DISTEXT => ok := DoDistExt();
      case CHECK => DoCheck(); ok := true;
    }

    /** HEAD: raw data has no header. */
    method SkipHeader()
      requires Core() && mode == HEAD
      modifies this`mode
      ensures Core() && mode == TYPEDO
    {
      hide *;
      CoreParts();
      ShowsType(mode, bits, r, m.c.st);
      mode := TYPEDO;
      ShowsTypeDo(mode, bits, r, m.c.st);
      MakeCore();
    }

    /** One round of the machine. */
    method Step() returns (go: Leave)
      requires Valid() && mode != DONE && mode != BAD
      modifies this`hold, this`bits, this`next, this`m, this`mode, this`last, this`r, this`left, this`output
      ensures Valid() && |output| + left == old(|output| + left) && 8 * next - bits >= old(8 * next - bits)
              && left <= old(left)
      ensures go == NoInput ==> Starved()
      ensures go == NoOutput ==> left == 0 && Full()
      ensures go == Stay ==> 8 * next - bits > old(8 * next - bits) || left < old(left) || Rank() < old(Rank())
    {
      hide Core, Starved, Flow, SlidingWindow.Holds;
      if mode == COPY {
        go := DoCopy();
      } else if mode == MATCH {
        go := DoMatch();
      } else if mode == LIT {
        go := DoLit();
      } else if mode == LEN && |input| - next >= 6 && left >= 258 {
        InflateFast();
        go := Stay;
      } else {
        var ok := StepInput();
        go := if ok then Stay else NoInput;
      }
    }

    /** Between calls everything of the last one has been taken in. */
    ghost predicate Idle()
      reads this, window, window.buf
    {
      Valid() && input == [] && next == 0 && output == []
    }

    /** The window takes in this call's output, if it is or will be needed. */
    method LeaveWindow()
      requires Remembers()
      modifies window, window.buf
      ensures window.buf.Length == 32768 && (window.Holds(hist + output) || (window.wsize == 0 && Final()))
    {
      if window.wsize != 0 || (!Final() && output != []) {
        window.Update(output, hist);
      } else {
        assert hist + output == hist || Final();
      }
    }

    lemma MakeIdle()
      requires Core() && window.buf.Length == 32768 && (window.Holds(hist) || (window.wsize == 0 && Final()))
      requires input == [] && next == 0 && output == []
      ensures Idle()
    {
      hide Core, SlidingWindow.Holds, Final;
    }

    /** All of this call becomes part of what came before. */
    method Settle()
      requires Core() && window.buf.Length == 32768 && (window.Holds(hist + output) || (window.wsize == 0 && Final()))
      modifies this`base, this`hist, this`input, this`next, this`output
      ensures Idle() && base == old(base) + old(input)[..old(next)] && hist == old(hist) + old(output)
      ensures m == old(m) && mode == old(mode) && hold == old(hold) && bits == old(bits)
    {
      hide *;
      CoreParts();
      FlowParts();
      ghost var used := Consumed(base, input, next);
      ConsumedIs(base, input, next);
      base := base + input[..next];
      hist := hist + output;
      input, next, output := [], 0, [];
      ConsumedIs(base, input, next);
      assert base + input[..next] == base;
      assert hist + output == hist;
      MakeFlow();
      MakeCore();
      MakeIdle();
    }

    /** The loop of `inflate`: go on until something runs out. */
    method Run(room: nat) returns (go: Leave)
      requires Valid() && output == [] && left == room
      modifies this`hold, this`bits, this`next, this`m, this`mode, this`last, this`r, this`left, this`output
      ensures Core() && Remembers() && |output| + left == room
      ensures mode == DONE || mode == BAD || (go == NoInput && Starved())
              || (go == NoOutput && left == 0 && Full())
    {
      hide *;
      go := Stay;
      ValidRange();
      while go == Stay && mode != DONE && mode != BAD
        invariant Valid() && next <= |input| && |output| + left == room
        invariant go == NoInput ==> Starved()
        invariant go == NoOutput ==> left == 0 && Full()
        decreases go == Stay, 8 * |input| - (8 * next - bits), left, Rank()
      {
        go := Step();
        ValidRange();
      }
      ValidRange();
    }

    /**
     `inflate`: decode as far as the input offered and the room for output allow.  The
     return value is 1 at the end of the data, -3 for bad data, -5 when nothing could be
     done or the caller wanted to finish, else 0.
     */
    method Inflate(offer: seq<Byte>, room: nat, finish: bool) returns (ret: int, used: nat, out: seq<Byte>)
      requires Idle()
      modifies this, window, window.buf
      ensures Idle() && used <= |offer| && |out| <= room
      ensures base == old(base) + offer[..used] && hist == old(hist) + out
      ensures mode == DONE || mode == BAD || (used == |offer| && Next(base, m) == None)
              || (|out| == room && Full())
      ensures ret == if mode == DONE then 1 else if mode == BAD then -3 else if (used == 0 && out == []) || finish
              then -5 else 0
    {
      hide *;
      Begin(offer, room);
      var go := Run(room);
      CoreParts();
      FlowParts();
      used, out := next, output;
      LeaveWindow();
      StarvedNext(go);
      assert used == |offer| ==> offer[..used] == offer;
      Settle();
      ret := if mode == DONE then 1 else if mode == BAD then -3 else 0;
      if ((used == 0 && out == []) || finish) && ret == 0 {
        ret := -5;
      }
    }

    lemma ValidRange()
      requires Valid()
      ensures Core() && Remembers() && next <= |input|
    {
      hide Shows, Good, Thrifty, Reservoir, Remembers;
    }

    /** Want of input shows in the decoder: it has no next step on the input used. */
    lemma StarvedNext(go: Leave)
      requires Core()
      ensures go == NoInput && Starved() ==> next == |input| && Next(base + input, m) == None
    {
      CoreParts();
      FlowParts();
      hide Shows, Good, Thrifty, StepAt, Next, Reservoir;
      if Starved() {
        ConsumedIs(base, input, next);
        assert input[..next] == input;
        ReservoirNext(hold, bits, base + input, m);
      }
    }

    /** Take over the input offered and the room for output. */
    method Begin(offer: seq<Byte>, room: nat)
      requires Idle()
      modifies this`input, this`left, this`mode
      ensures Valid() && input == offer && next == 0 && left == room && output == []
    {
      hide SlidingWindow.Holds, Good, Reservoir, Thrifty;
      if mode == TYPE {
        mode := TYPEDO;
      }
      assert Consumed(base, offer, 0) == Consumed(base, [], 0);
      input := offer;
      left := room;
    }

    lemma MakeStarved()
      requires next == |input| && hold >= 0 && StepAt(hold, bits, m.c) == Stuck
      ensures Starved()
    {
      hide StepAt;
    }

    /** The state is still what it was before bytes were pulled, and wants more. */
    lemma Await(b0: nat)
      requires Flow() && next == |input| && hold >= 0 && bits >= 0 && StepAt(hold, bits, m.c) == Stuck && mode != COPY
      requires Shows(mode, b0, r, m.c.st) && b0 <= bits && (bits - b0) % 8 == 0
      requires m.c.last == last && m.c.out == hist + output && |r.lens| == 320
      requires Good(lenfix, Lens, FixedLit()) && Good(distfix, Dists, FixedDist())
      ensures Starved() && Core()
    {
      hide *;
      MakeStarved();
      StuckThrifty(hold, bits, m.c);
      ShowsMore(mode, b0, bits, r, m.c.st);
      MakeCore();
    }

    /** The state after a step. */
    lemma Settled()
      requires Flow() && hold >= 0 && 0 <= bits < 8 && Shows(mode, bits, r, m.c.st)
      requires m.c.last == last && m.c.out == hist + output && |r.lens| == 320
      requires Good(lenfix, Lens, FixedLit()) && Good(distfix, Dists, FixedDist())
      ensures Core()
    {
      hide *;
      ThriftyLow(hold, bits, m.c);
      MakeCore();
    }
  }

  lemma ThriftyLow(hold: int, bits: int, c: Config)
    requires hold >= 0 && 0 <= bits < 8
    ensures Thrifty(hold, bits, c)
  {
  }

  lemma ThriftyMoves(hold: int, bits: nat, c: Config)
    requires Thrifty(hold, bits, c) && hold >= 0 && StepAt(hold, bits, c).Move?
    ensures bits < 8
  {
    hide StepAt;
  }

  /** After NEEDBITS(n): either stuck still, or fewer than n + 8 bits. */
  lemma ThriftyAfter(h0: int, b0: nat, hold: int, bits: nat, c: Config, n: nat)
    requires hold >= 0 && Thrifty(h0, b0, c)
    requires bits >= n ==> if b0 >= n then bits == b0 && hold == h0 else bits < n + 8
    requires bits < n ==> StepAt(hold, bits, c) == Stuck
    requires bits >= n ==> StepAt(hold, bits, c).Move?
    ensures bits >= n ==> bits < n + 8
    ensures bits < n ==> Thrifty(hold, bits, c)
  {
    hide StepAt;
  }

  lemma ShowsType(mode: Mode, bits: int, r: Regs, st: State)
    requires Shows(mode, bits, r, st) && (mode == HEAD || mode == TYPE || mode == TYPEDO)
    ensures st == Type
  {
  }

  /** Whole bytes pulled in do not change what the machine stands for. */
  lemma ShowsMore(mode: Mode, bits: nat, bits': nat, r: Regs, st: State)
    requires Shows(mode, bits, r, st) && bits <= bits' && (bits' - bits) % 8 == 0 && mode != COPY
    ensures Shows(mode, bits', r, st)
  {
    hide Good, NoLonger;
  }

  lemma AtType(x: int, n: nat, c: Config)
    requires x >= 0 && c.st == Type
    ensures c.last ==> StepAt(x, n, c) == Move(n % 8, c.(st := Check))
    ensures !c.last && n < 3 ==> StepAt(x, n, c) == Stuck
    ensures !c.last && n >= 3 ==> var kind := Low(Shr(x, 1), 2);
      StepAt(x, n, c) == Move(3, Config(if kind == 0 then Stored else if kind == 1 then Len(FIXED)
                                        else if kind == 2 then State.Table else Bad, Low(x, 1) == 1, c.out))
  {
    hide Low, Shr;
  }

  lemma ShowsPlain(mode: Mode, bits: int, r: Regs, st: State)
    requires (mode == CHECK && st == Check) || (mode == DONE && st == Done) || (mode == BAD && st == Bad)
             || (mode == TYPE && st == Type)
    ensures Shows(mode, bits, r, st)
  {
  }

  lemma ShowsHeader(kind: int, mode: Mode, bits: nat, r: Regs, st: State, lenfix: CodeTable, distfix: CodeTable)
    requires Good(lenfix, Lens, FixedLit()) && Good(distfix, Dists, FixedDist())
    requires st == if kind == 0 then Stored else if kind == 1 then Len(FIXED) else if kind == 2 then State.Table
             else Bad
    requires mode == if kind == 0 then STORED else if kind == 1 then LEN else if kind == 2 then TABLE else BAD
    requires kind == 1 ==> r.lencode == lenfix && r.distcode == distfix
    ensures Shows(mode, bits, r, st)
  {
    hide Good;
  }

  /** The accumulator before the last byte was pulled in, when it did not yet hold a whole code. */
  datatype Waited = Waited(x: int, n: nat)

  /** No byte has been pulled in, or the last one was needed. */
  ghost predicate Waiting(lens: seq<int>, w: Waited, h0: int, n0: nat, hold: int, bits: int) {
    && bits >= n0
    && if bits == n0 then hold == h0
       else bits == w.n + 8 && Agree(w.x, hold, w.n) && SymbolAt0(lens, w.x, w.n) == More
  }

  lemma WaitStart(lens: seq<int>, hold: int, bits: nat)
    ensures Waiting(lens, Waited(hold, bits), hold, bits, hold, bits)
  {
  }

  lemma WaitMore(lens: seq<int>, w: Waited, h0: int, n0: nat, px: int, pn: nat, hold: int)
    requires Waiting(lens, w, h0, n0, px, pn) && Agree(px, hold, pn) && SymbolAt0(lens, px, pn) == More
    ensures Waiting(lens, Waited(px, pn), h0, n0, hold, pn + 8)
  {
  }

  lemma WaitEnough(kind: CodeType, lens: seq<int>, w: Waited, h0: int, n0: nat, hold: int, bits: nat, e: Entry)
    requires Waiting(lens, w, h0, n0, hold, bits) && Usable(kind, lens) && Answer(kind, lens, hold, bits, e)
             && e.bits <= bits
    ensures if bits == n0 then hold == h0 else bits < e.bits + 8
  {
    if bits != n0 {
      JustEnough(kind, lens, w.x, hold, w.n, bits, e);
    }
  }

  lemma GoodUsable(tab: CodeTable, kind: CodeType, lens: seq<int>)
    requires Good(tab, kind, lens)
    ensures Usable(kind, lens)
  {
  }

  lemma LinkIs(e: Entry)
    ensures Link(e) <==> 0 < e.op < 16
  {
  }

  lemma RootCases(tab: CodeTable, kind: CodeType, lens: seq<int>, x: int, n: nat, e: Entry)
    requires RootAnswer(tab, kind, lens, x, n, e)
    ensures e.bits > n ==> SymbolAt0(lens, x, n) == More
    ensures Link(e) ==> e.bits == tab.bits
    ensures !Link(e) && e.bits <= n ==> Answer(kind, lens, x, n, e) && e.bits >= 0
  {
    hide Low, Shr, SymbolAt;
    if !Link(e) {
      AnswerMore(kind, lens, x, n, e);
      if e.bits <= n {
        AnswerPositive(kind, lens, x, n, e);
      }
    }
    hide Answer;
  }

  lemma AnswerPositive(kind: CodeType, lens: seq<int>, x: int, n: nat, e: Entry)
    requires Answer(kind, lens, x, n, e) && e.bits <= n
    ensures e.bits >= 1
  {
    match SymbolAt(lens, x, n)
    case Found(s) => EntryBits(kind, s, lens[s]);
    case Gap =>
  }

  lemma SubCases(tab: CodeTable, kind: CodeType, lens: seq<int>, x: int, n: nat, e: Entry)
    requires RootAnswer(tab, kind, lens, x, n, e) && Link(e) && x >= 0
    ensures e.bits == tab.bits && 0 <= tab.base + e.val + Low(Shr(x, tab.bits), e.op) < |tab.t|
    ensures var f := tab.t[tab.base + e.val + Low(Shr(x, tab.bits), e.op)];
      && f.bits > 0 && !Link(f) && Answer(kind, lens, x, n, Entry(f.op, e.bits + f.bits, f.val))
      && (e.bits + f.bits > n ==> SymbolAt0(lens, x, n) == More)
  {
    hide Low, Shr, Answer, SymbolAt;
    var f := tab.t[tab.base + e.val + Low(Shr(x, tab.bits), e.op)];
    AnswerMore(kind, lens, x, n, Entry(f.op, e.bits + f.bits, f.val));
  }

  // ----- stored blocks

  lemma ShowsStored(mode: Mode, bits: int, r: Regs, c: Config)
    requires Shows(mode, bits, r, c.st) && mode == STORED
    ensures c.st == Stored || (c.st == StoredLen && bits % 8 == 0)
  {
  }

  lemma AtStored(x: int, n: nat, c: Config)
    requires x >= 0
    ensures c.st == Stored ==> StepAt(x, n, c) == Move(n % 8, c.(st := StoredLen))
    ensures Shr(x, 0) == x
  {
  }

  lemma AtStoredLen(x: int, n: nat, c: Config)
    requires x >= 0 && c.st == StoredLen
    ensures n < 32 ==> StepAt(x, n, c) == Stuck
    ensures n >= 32 ==> var len, nlen := Low(x, 16), Low(Shr(x, 16), 16);
      StepAt(x, n, c) == if len + nlen != 0xFFFF then Move(0, c.(st := Bad)) else Move(32, c.(st := Copy(len)))
  {
    hide Low, Shr, StepType, StepCopy, StepTable, StepLenLens, StepCodeLens, StepLen, StepLenExt, StepDist, StepDistExt,
         StepMatch;
  }

  lemma ShowsStoredLen(mode: Mode, bits: int, r: Regs, c: Config)
    requires mode == STORED && c.st == StoredLen && bits % 8 == 0
    ensures Shows(mode, bits, r, c.st)
  {
  }

  lemma ThriftyEnd(hold: int, bits: int, c: Config)
    requires hold >= 0 && bits >= 0 && (c.st == Bad || c.st == Done)
    ensures Thrifty(hold, bits, c)
  {
  }

  lemma ShowsCopy(mode: Mode, bits: int, r: Regs, st: State)
    requires mode == COPY && st == Copy(r.length) && bits == 0
    ensures Shows(mode, bits, r, st)
  {
  }

  lemma CopyShown(mode: Mode, bits: int, r: Regs, c: Config)
    requires Shows(mode, bits, r, c.st) && mode == COPY
    ensures c.st == Copy(r.length) && bits == 0
  {
  }

  lemma AtCopy(x: int, n: nat, c: Config, len: nat)
    requires x >= 0 && c.st == Copy(len)
    ensures len == 0 ==> StepAt(x, n, c) == Move(0, c.(st := Type))
    ensures len > 0 && n < 8 ==> StepAt(x, n, c) == Stuck
    ensures len > 0 && n >= 8 ==> StepAt(x, n, c) == Move(8, Config(Copy(len - 1), c.last, c.out + [ByteOf(x)]))
  {
    hide ByteOf, StepType, StepTable, StepLenLens, StepCodeLens, StepLen, StepLenExt, StepDist, StepDistExt, StepMatch;
  }

  /** A byte of a stored block goes from the input to the output. */
  lemma CopyByte(hold: int, consumed: seq<Byte>, m: Machine, len: nat, b: Byte)
    requires Reservoir(hold, 0, consumed, m) && m.c.st == Copy(len) && len > 0
    ensures Reservoir(hold, 0, consumed + [b], Machine(Config(Copy(len - 1), m.c.last, m.c.out + [b]), m.pos + 8))
  {
    hide *;
    HoldBound(hold, 0, consumed, m);
    ZeroBits();
    PullByteLemma(hold, 0, consumed, m, b);
    ByteBitsOf(b);
    AtCopy(b, 8, m.c, len);
    TakeStep(b, 8, consumed + [b], m, 8, Config(Copy(len - 1), m.c.last, m.c.out + [b]));
  }

  lemma ZeroBits()
    ensures Pow2(0) == 1
  {
  }

  lemma ByteBitsOf(b: Byte)
    ensures ByteOf(b) == b && Up(b, 0) == b && Shr(b, 8) == 0
  {
    SmallPowers();
    LowAll(b, 8);
    ShrBound(b, 8, 8);
  }

  // ----- dynamic blocks

  lemma TableShown(mode: Mode, bits: int, r: Regs, c: Config)
    requires Shows(mode, bits, r, c.st) && mode == TABLE
    ensures c.st == State.Table
  {
  }

  lemma AtTable(x: int, n: nat, c: Config)
    requires x >= 0 && c.st == State.Table
    ensures n < 14 ==> StepAt(x, n, c) == Stuck
    ensures n >= 14 ==>
      var nlen, ndist, ncode := Low(x, 5) + 257, Low(Shr(x, 5), 5) + 1, Low(Shr(x, 10), 4) + 4;
      StepAt(x, n, c) == Move(14, c.(st := if nlen > 286 || ndist > 30 then Bad else LenLens(nlen, ndist, ncode, [])))
  {
    hide Low, Shr;
  }

  lemma ShowsLenLens0(mode: Mode, bits: int, r: Regs, st: State)
    requires mode == LENLENS && r.have == 0 && |r.lens| == 320 && st == LenLens(r.nlen, r.ndist, r.ncode, [])
    ensures Shows(mode, bits, r, st)
  {
  }

  lemma LenLensShown(mode: Mode, bits: int, r: Regs, c: Config)
    requires Shows(mode, bits, r, c.st) && mode == LENLENS && Sane(c)
    ensures c.st.LenLens? && |c.st.read| == r.have <= r.ncode <= 19 && c.st.ncode == r.ncode && |r.lens| == 320
    ensures c.st.nlen == r.nlen && c.st.ndist == r.ndist
    ensures Filled(r.lens, c.st.read, r.have, r.have)
  {
  }

  lemma AtLenLens(x: int, n: nat, c: Config)
    requires x >= 0 && c.st.LenLens? && |c.st.read| <= c.st.ncode <= 19
    ensures |c.st.read| < c.st.ncode && n < 3 ==> StepAt(x, n, c) == Stuck
    ensures |c.st.read| < c.st.ncode && n >= 3 ==>
            StepAt(x, n, c) == Move(3, c.(st := c.st.(read := c.st.read + [Low(x, 3)])))
    ensures |c.st.read| == c.st.ncode ==>
      var code := Unordered(c.st.read, |c.st.read|);
      StepAt(x, n, c)
      == Move(0, c.(st := if Acceptable(Codes, Cnt(code)) then CodeLens(c.st.nlen, c.st.ndist, code, []) else Bad))
  {
    hide Low, Unordered, Acceptable, Cnt;
  }

  lemma SaneRead(c: Config, r: Regs)
    requires Sane(c) && c.st.LenLens? && r.have <= 19
    ensures forall i :: 0 <= i < |c.st.read| ==> 0 <= c.st.read[i] <= 7
    ensures |ORDER| == 19 && (r.have < 19 ==> ORDER[r.have] < 19)
  {
  }

  /** The first n entries read are in place, and those after them up to k are zero. */
  ghost predicate Filled(lens: seq<int>, read: seq<int>, n: nat, k: nat) {
    && |lens| == 320 && n <= |read| && n <= k <= 19
    && (forall i :: 0 <= i < n ==> lens[ORDER[i]] == read[i])
    && (forall i :: n <= i < k ==> lens[ORDER[i]] == 0)
  }

  /** Where in ORDER each code length stands. */
  const PLACE: seq<nat> := [3, 17, 15, 13, 11, 9, 7, 5, 4, 6, 8, 10, 12, 14, 16, 18, 0, 1, 2]

  lemma OrderPlace(j: nat)
    requires j < 19
    ensures PLACE[j] < 19 && ORDER[PLACE[j]] == j && ORDER[j] < 19 && PLACE[ORDER[j]] == j
  {
  }

  lemma OrderDistinct2(i: nat, j: nat)
    requires i < 19 && j < 19 && i != j
    ensures ORDER[i] != ORDER[j] && ORDER[i] < 19 && ORDER[j] < 19
  {
    OrderPlace(i);
    OrderPlace(j);
  }

  lemma FillNext(lens: seq<int>, read: seq<int>, n: nat, k: nat)
    requires Filled(lens, read, n, k) && k < 19
    ensures |ORDER| == 19 && ORDER[k] < 320 && Filled(lens[ORDER[k] := 0], read, n, k + 1)
  {
    OrderRange(k);
    forall i | 0 <= i < k ensures ORDER[i] != ORDER[k] && 0 <= ORDER[i] < 19 {
      OrderDistinct2(i, k);
    }
    hide ORDER;
  }

  lemma OrderRange(k: nat)
    requires k < 19
    ensures |ORDER| == 19 && 0 <= ORDER[k] < 19
  {
  }

  lemma UnorderedAt(read: seq<int>, n: nat, i: nat)
    requires n <= |read| && n <= 19 && i < 19
    ensures ORDER[i] < 19 && Unordered(read, n)[ORDER[i]] == if i < n then read[i] else 0
  {
    OrderPlace(i);
    if n > 0 {
      UnorderedAt(read, n - 1, i);
      if i != n - 1 {
        OrderDistinct2(i, n - 1);
      }
    }
  }

  lemma FilledIs(lens: seq<int>, read: seq<int>, n: nat, k: nat)
    requires Filled(lens, read, n, k)
    ensures |lens| == 320 && n <= |read| && n <= k <= 19
  {
  }

  lemma FilledAll(lens: seq<int>, read: seq<int>, n: nat)
    requires Filled(lens, read, n, 19) && n == |read|
    ensures |lens| == 320 && lens[..19] == Unordered(read, n)
  {
    forall j | 0 <= j < 19 ensures lens[..19][j] == Unordered(read, n)[j] {
      OrderPlace(j);
      UnorderedAt(read, n, PLACE[j]);
    }
  }

  lemma UnorderedSmall(read: seq<int>, n: nat)
    requires n <= |read| && n <= 19 && forall i :: 0 <= i < |read| ==> 0 <= read[i] <= 7
    ensures forall i :: 0 <= i < 19 ==> 0 <= Unordered(read, n)[i] <= MAXBITS
    ensures NoLonger(Unordered(read, n), 7)
  {
    UnorderedRange(read, n);
  }

  lemma SmallAlphabet()
    ensures Pow2(8) == 256 && Alphabet(Codes) == 19 && MAXBITS == 15 && !Codes.Lens?
  {
    SmallPowers();
  }

  lemma ShowsLenLensNext(mode: Mode, b: int, b': int, r: Regs, r': Regs, st: State, st': State, len: int)
    requires Shows(mode, b, r, st) && mode == LENLENS && r.have < 19 && |r.lens| == 320 && st.LenLens?
    requires ORDER[r.have] < 19 && r' == r.(lens := r.lens[ORDER[r.have] := len], have := r.have + 1)
    requires st' == st.(read := st.read + [len])
    ensures Shows(mode, b', r', st')
  {
    forall i | 0 <= i < r.have ensures ORDER[i] != ORDER[r.have] {
      OrderDistinct2(i, r.have);
    }
  }

  lemma ShowsCodeLens0(mode: Mode, bits: int, r: Regs, st: State, read: seq<int>)
    requires mode == CODELENS && r.have == 0 && |r.lens| == 320 && |read| <= 19
    requires st == CodeLens(r.nlen, r.ndist, Unordered(read, |read|), [])
    requires Good(r.lencode, Codes, Unordered(read, |read|)) && NoLonger(Unordered(read, |read|), r.lencode.bits)
    ensures Shows(mode, bits, r, st)
  {
    hide Good, NoLonger, Unordered;
  }

  lemma CodeLensShown(mode: Mode, bits: int, r: Regs, c: Config)
    requires Shows(mode, bits, r, c.st) && mode == CODELENS && Sane(c)
    ensures c.st.CodeLens? && c.st.nlen == r.nlen <= 286 && c.st.ndist == r.ndist <= 30 && |c.st.lens| == r.have <= 316
    ensures |r.lens| == 320 && r.lens[..r.have] == c.st.lens && r.have <= r.nlen + r.ndist
    ensures Good(r.lencode, Codes, c.st.code) && NoLonger(c.st.code, r.lencode.bits)
  {
    hide Good, NoLonger, Usable;
  }

  lemma AtCodeLensMore(x: int, n: nat, c: Config)
    requires x >= 0 && c.st.CodeLens? && |c.st.lens| < c.st.nlen + c.st.ndist && SymbolAt0(c.st.code, x, n) == More
    ensures StepAt(x, n, c) == Stuck
  {
    hide SymbolAt;
  }

  lemma StuckThrifty(hold: int, bits: int, c: Config)
    requires hold >= 0 && bits >= 0 && StepAt(hold, bits, c) == Stuck
    ensures Thrifty(hold, bits, c)
  {
    hide StepAt;
  }

  lemma AnswerKept(kind: CodeType, code: seq<int>, x: int, y: int, n: nat, n': nat, e: Entry)
    requires Usable(kind, code) && Answer(kind, code, x, n, e) && e.bits <= n <= n' && Agree(x, y, n)
    ensures Answer(kind, code, y, n', e)
  {
    hide Usable, EntryOf;
    SymbolAgree(kind, code, x, y, n, n');
    hide SymbolAt;
  }

  /** The step that a code length entry stands for. */
  lemma AtRun(x: int, n: nat, c: Config, here: Entry)
    requires x >= 0 && c.st.CodeLens? && |c.st.lens| < c.st.nlen + c.st.ndist && Usable(Codes, c.st.code)
    requires Answer(Codes, c.st.code, x, n, here) && here.bits <= n
    ensures 0 <= here.val < 19 && 1 <= here.bits
    ensures StepAt(x, n, c) == StepRun(x, n, c, here.val, here.bits)
  {
    hide SymbolAt, Usable, StepRun, Answer;
    AnswerPositive(Codes, c.st.code, x, n, here);
    AnswerSymbol(c.st.code, x, n, here);
  }

  lemma AnswerSymbol(code: seq<int>, x: int, n: nat, here: Entry)
    requires Answer(Codes, code, x, n, here) && here.bits <= n
    ensures x >= 0 && 0 <= here.val < 19
    ensures match SymbolAt(code, x, n)
            case Found(s) => s < |code| && here.val == s && here.bits == code[s]
            case Gap => here.val == 0 && here.bits == 1
            case More => false
  {
  }

  lemma RunStuck(x: int, n: nat, c: Config, here: Entry)
    requires x >= 0 && c.st.CodeLens? && |c.st.lens| < c.st.nlen + c.st.ndist && Usable(Codes, c.st.code)
    requires Answer(Codes, c.st.code, x, n, here) && here.bits <= n
    requires n < here.bits + (if here.val < 16 then 0 else if here.val == 16 then 2 else if here.val == 17 then 3
                              else 7)
    ensures StepAt(x, n, c) == Stuck
  {
    AtRun(x, n, c, here);
    hide StepAt, Answer, Usable;
  }

  lemma RunThrifty(h0: int, b0: nat, hold: int, bits: nat, c: Config, here: Entry, extra: nat)
    requires Thrifty(h0, b0, c) && hold >= 0 && c.st.CodeLens? && 0 <= here.val < 19 && 1 <= here.bits
    requires extra == (if here.val < 16 then 0 else RunBits(here.val)) && here.bits + extra <= bits
    requires StepAt(hold, bits, c) == StepRun(hold, bits, c, here.val, here.bits)
    requires bits == b0 ==> hold == h0
    requires bits != b0 ==> bits < here.bits + extra + 8
    ensures bits < here.bits + extra + 8
  {
    hide StepAt;
    assert StepRun(hold, bits, c, here.val, here.bits).Move?;
  }

  lemma AtLength(x: int, n: nat, c: Config, s: nat, k: nat)
    requires x >= 0 && c.st.CodeLens? && k <= n && s < 16 && StepAt(x, n, c) == StepRun(x, n, c, s, k)
    ensures StepAt(x, n, c) == Move(k, c.(st := c.st.(lens := c.st.lens + [s])))
  {
    hide StepAt;
  }

  lemma AtRepeat(x: int, n: nat, c: Config, s: nat, k: nat, extra: nat)
    requires x >= 0 && c.st.CodeLens? && extra == RunBits(s) && k + extra <= n && 16 <= s < 19
    requires StepAt(x, n, c) == StepRun(x, n, c, s, k)
    ensures s == 16 && c.st.lens == [] ==> StepAt(x, n, c) == Move(k, c.(st := Bad))
    ensures !(s == 16 && c.st.lens == []) ==>
      var count := (if s == 18 then 11 else 3) + Low(Shr(x, k), extra);
      var value := if s == 16 then c.st.lens[|c.st.lens| - 1] else 0;
      StepAt(x, n, c) == Move(k + extra, c.(st :=
        if |c.st.lens| + count > c.st.nlen + c.st.ndist then Bad
           else c.st.(lens := c.st.lens + seq(count, i => value))))
  {
    hide StepAt, Low, Shr;
  }

  lemma RepeatShown(mode: Mode, bits: int, r: Regs, c: Config, s: nat)
    requires Shows(mode, bits, r, c.st) && mode == CODELENS && Sane(c) && (s == 16 ==> r.have > 0)
    ensures c.st.CodeLens? && (r.have == 0 <==> c.st.lens == [])
    ensures s == 16 ==> c.st.lens != [] && |r.lens| == 320 && r.have <= 316
                        && r.lens[r.have - 1] == c.st.lens[|c.st.lens| - 1]
  {
    hide Good, NoLonger, Usable;
    assert r.have > 0 ==> r.lens[..r.have][r.have - 1] == r.lens[r.have - 1];
  }

  lemma ShowsLength(mode: Mode, b: int, b': int, r: Regs, r': Regs, st: State, st': State, len: int)
    requires Shows(mode, b, r, st) && mode == CODELENS && st.CodeLens? && r.have < 316 && |r.lens| == 320
    requires r' == r.(lens := r.lens[r.have := len], have := r.have + 1) && st' == st.(lens := st.lens + [len])
    ensures Shows(mode, b', r', st')
  {
    hide Good, NoLonger;
    assert r'.lens[..r'.have] == r.lens[..r.have] + [len];
  }

  /** k entries from position i on have been set to value. */
  ghost predicate Written(lens: seq<int>, lens0: seq<int>, i: nat, k: nat, value: int) {
    && |lens| == |lens0| && i + k <= |lens0| && lens[..i + k] == lens0[..i] + seq(k, j => value)
  }

  lemma WriteNone(lens0: seq<int>, i: nat, value: int)
    requires i <= |lens0|
    ensures Written(lens0, lens0, i, 0, value)
  {
  }

  lemma WriteOne(lens: seq<int>, lens0: seq<int>, i: nat, k: nat, value: int)
    requires Written(lens, lens0, i, k, value) && i + k < |lens0|
    ensures i + k < |lens| && Written(lens[i + k := value], lens0, i, k + 1, value)
  {
    assert lens[i + k := value][..i + k + 1] == lens[..i + k] + [value];
    assert seq(k + 1, j => value) == seq(k, j => value) + [value];
  }

  lemma ShowsRun(mode: Mode, b: int, b': int, r: Regs, r': Regs, st: State, st': State, value: int, count: nat)
    requires Shows(mode, b, r, st) && mode == CODELENS && st.CodeLens? && r.have + count <= 316
    requires r' == r.(lens := r'.lens, have := r.have + count) && Written(r'.lens, r.lens, r.have, count, value)
             && |r'.lens| == 320
    requires st' == st.(lens := st.lens + seq(count, i => value))
    ensures Shows(mode, b', r', st')
  {
    hide Good, NoLonger;
  }

  lemma AtBuild(x: int, n: nat, c: Config)
    requires x >= 0 && c.st.CodeLens? && |c.st.lens| == c.st.nlen + c.st.ndist
    ensures StepAt(x, n, c) == Move(0, c.(st := AfterLens(c.st.lens[..c.st.nlen], c.st.lens[c.st.nlen..])))
  {
    hide SymbolAt, AfterLens;
  }

  lemma RunSizes(s: nat)
    ensures RunBits(s) == if s == 16 then 2 else if s == 17 then 3 else 7
  {
  }

  lemma BlockSize(mode: Mode, bits: int, r: Regs, c: Config)
    requires Shows(mode, bits, r, c.st) && mode == CODELENS && Sane(c) && r.have >= r.nlen + r.ndist
    ensures c.st.CodeLens? && r.have == r.nlen + r.ndist == |c.st.lens| && r.nlen + r.ndist <= |r.lens|
    ensures r.nlen == c.st.nlen <= 286 && r.ndist <= 30
  {
    hide Good, NoLonger, Usable;
  }

  lemma BlockShown(mode: Mode, bits: int, r: Regs, c: Config, lit: seq<int>, dist: seq<int>)
    requires Shows(mode, bits, r, c.st) && mode == CODELENS && Sane(c) && c.st.CodeLens? && r.nlen + r.ndist <= |r.lens|
    requires r.have == r.nlen + r.ndist == |c.st.lens| && r.nlen == c.st.nlen
    requires lit == r.lens[..r.nlen] && dist == r.lens[r.nlen..r.nlen + r.ndist]
    ensures lit == c.st.lens[..c.st.nlen] && dist == c.st.lens[c.st.nlen..]
    ensures forall i :: 0 <= i < |lit| ==> 0 <= lit[i] <= MAXBITS
    ensures forall i :: 0 <= i < |dist| ==> 0 <= dist[i] <= MAXBITS
  {
    hide Good, NoLonger, Usable;
    var l := r.lens[..r.have];
    assert lit == l[..r.nlen] && dist == l[r.nlen..];
  }

  lemma LensRefused(lit: seq<int>, dist: seq<int>)
    requires !(Acceptable(Lens, Cnt(lit)) && Acceptable(Dists, Cnt(dist)))
    ensures AfterLens(lit, dist) == Bad
  {
  }

  lemma LensBuilt(mode: Mode, bits: int, r: Regs, st: State, lit: seq<int>, dist: seq<int>)
    requires mode == LEN && Acceptable(Lens, Cnt(lit)) && Acceptable(Dists, Cnt(dist)) && st == AfterLens(lit, dist)
    requires Good(r.lencode, Lens, lit) && Good(r.distcode, Dists, dist)
    ensures Shows(mode, bits, r, st)
  {
    hide Good, Acceptable, Cnt;
  }

  // ----- symbols of a block

  lemma LenShown(mode: Mode, bits: int, r: Regs, c: Config)
    requires Shows(mode, bits, r, c.st) && mode == LEN
    ensures c.st.Len? && Good(r.lencode, Lens, c.st.c.lit) && Good(r.distcode, Dists, c.st.c.dist)
  {
    hide Good;
  }

  lemma AtLenMore(x: int, n: nat, c: Config)
    requires x >= 0 && c.st.Len? && SymbolAt0(c.st.c.lit, x, n) == More
    ensures StepAt(x, n, c) == Stuck
  {
    hide SymbolAt;
  }

  /** Where the entry of a literal/length code leads, told from its operation. */
  function LenTarget(d: Pair, e: Entry): State {
    if e.op == 0 then (if 0 <= e.val < 256 then Lit(d, e.val) else Bad)
    else if e.op / 32 % 2 == 1 then Type
    else if e.op / 64 % 2 == 1 then Bad
    else if e.val >= 0 then LenExt(d, e.val, e.op % 16)
    else Bad
  }

  lemma LenEntry(d: Pair, s: nat, b: int)
    requires s < 288
    ensures LenTarget(d, EntryOf(Lens, s, b)) == AfterLen(d, s)
    ensures EntryOf(Lens, s, b).val >= 0 && (EntryOf(Lens, s, b).op == 0 ==> EntryOf(Lens, s, b).val < 256)
  {
    if 257 <= s < 286 {
      assert 16 <= LEXT[s - 257] <= 21;
    }
  }

  lemma AtLen(x: int, n: nat, c: Config, here: Entry)
    requires x >= 0 && c.st.Len? && Answer(Lens, c.st.c.lit, x, n, here) && 0 <= here.bits <= n
    ensures StepAt(x, n, c) == Move(here.bits, c.(st := LenTarget(c.st.c, here))) && here.bits >= 1
    ensures here.val >= 0 && (here.op == 0 ==> here.val < 256)
  {
    AnswerPositive(Lens, c.st.c.lit, x, n, here);
    var d := c.st.c;
    AnswerEntry(Lens, d.lit, x, n, here);
    hide AfterLen, EntryOf, SymbolAt, Answer, LenTarget;
    if SymbolAt(d.lit, x, n).Found? {
      LenEntry(d, SymbolAt(d.lit, x, n).sym, here.bits);
    } else {
      GapTarget(d, 0);
    }
  }

  lemma GapTarget(d: Pair, length: nat)
    ensures LenTarget(d, INVALID) == Bad && DistTarget(d, length, INVALID) == Bad && INVALID.val == 0
  {
  }

  lemma AnswerEntry(kind: CodeType, lens: seq<int>, x: int, n: nat, here: Entry)
    requires Answer(kind, lens, x, n, here) && 0 <= here.bits <= n
    ensures x >= 0 && SymbolAt(lens, x, n) != More
    ensures var y := SymbolAt(lens, x, n);
      && (y.Found? ==> y.sym < |lens| <= Alphabet(kind) && lens[y.sym] == here.bits
                       && here == EntryOf(kind, y.sym, here.bits))
      && (y.Gap? ==> here == INVALID)
  {
    var y := SymbolAt(lens, x, n);
    if y.Found? {
      EntryBits(kind, y.sym, lens[y.sym]);
    }
    hide EntryOf;
  }

  lemma CodeThrifty(h0: int, b0: nat, hold: int, bits: nat, c: Config, k: nat)
    requires Thrifty(h0, b0, c) && hold >= 0 && StepAt(hold, bits, c).Move? && k >= 1
    requires if bits == b0 then hold == h0 else bits < k + 8
    ensures bits < k + 8
  {
    hide StepAt;
  }

  lemma LenValue(here: Entry, d: Pair)
    requires here.val >= 0
    ensures here.op != 0 ==> here.op % 16 >= 0
  {
  }

  lemma ShowsAfterLen(mode: Mode, bits: nat, r: Regs, st: State, d: Pair, here: Entry)
    requires Good(r.lencode, Lens, d.lit) && Good(r.distcode, Dists, d.dist) && st == LenTarget(d, here)
             && here.val >= 0
    requires r.length == here.val
    requires if here.op == 0 then mode == LIT && here.val < 256
             else if here.op / 32 % 2 == 1 then mode == TYPE
             else if here.op / 64 % 2 == 1 then mode == BAD
             else mode == LENEXT && r.extra == here.op % 16
    ensures Shows(mode, bits, r, st)
  {
    hide Good;
  }

  lemma LenExtShown(mode: Mode, bits: int, r: Regs, c: Config)
    requires Shows(mode, bits, r, c.st) && mode == LENEXT
    ensures c.st == LenExt(c.st.c, r.length, r.extra) && Good(r.lencode, Lens, c.st.c.lit)
            && Good(r.distcode, Dists, c.st.c.dist)
  {
    hide Good;
  }

  lemma AtLenExt(x: int, n: nat, c: Config)
    requires x >= 0 && c.st.LenExt?
    ensures n < c.st.extra ==> StepAt(x, n, c) == Stuck
    ensures n >= c.st.extra ==> StepAt(x, n, c)
                                == Move(c.st.extra, c.(st := Dist(c.st.c, c.st.length + Low(x, c.st.extra))))
  {
    hide Low;
  }

  lemma ShowsDist(mode: Mode, bits: int, r: Regs, st: State, d: Pair)
    requires mode == DIST && st == Dist(d, r.length) && Good(r.lencode, Lens, d.lit) && Good(r.distcode, Dists, d.dist)
    ensures Shows(mode, bits, r, st)
  {
    hide Good;
  }

  lemma DistShown(mode: Mode, bits: int, r: Regs, c: Config)
    requires Shows(mode, bits, r, c.st) && mode == DIST
    ensures c.st == Dist(c.st.c, r.length) && Good(r.lencode, Lens, c.st.c.lit) && Good(r.distcode, Dists, c.st.c.dist)
  {
    hide Good;
  }

  lemma AtDistMore(x: int, n: nat, c: Config)
    requires x >= 0 && c.st.Dist? && SymbolAt0(c.st.c.dist, x, n) == More
    ensures StepAt(x, n, c) == Stuck
  {
    hide SymbolAt;
  }

  /** Where the entry of a distance code leads. */
  function DistTarget(d: Pair, length: nat, e: Entry): State {
    if e.op / 64 % 2 == 1 || e.val < 0 then Bad else DistExt(d, length, e.val, e.op % 16)
  }

  lemma DistEntry(d: Pair, length: nat, s: nat, b: int)
    requires s < 32
    ensures DistTarget(d, length, EntryOf(Dists, s, b)) == AfterDist(d, length, s)
    ensures EntryOf(Dists, s, b).val >= 0
  {
    if s < 30 {
      assert 16 <= DEXT[s] <= 29;
    }
  }

  lemma AtDist(x: int, n: nat, c: Config, here: Entry)
    requires x >= 0 && c.st.Dist? && Answer(Dists, c.st.c.dist, x, n, here) && 0 <= here.bits <= n
    ensures StepAt(x, n, c) == Move(here.bits, c.(st := DistTarget(c.st.c, c.st.length, here))) && here.val >= 0
            && here.bits >= 1
  {
    AnswerPositive(Dists, c.st.c.dist, x, n, here);
    var d := c.st.c;
    AnswerEntry(Dists, d.dist, x, n, here);
    hide AfterDist, EntryOf, SymbolAt, Answer, DistTarget;
    if SymbolAt(d.dist, x, n).Found? {
      DistEntry(d, c.st.length, SymbolAt(d.dist, x, n).sym, here.bits);
    } else {
      GapTarget(d, c.st.length);
    }
  }

  lemma DistValue(here: Entry, d: Pair, length: nat)
    requires here.val >= 0
    ensures here.op % 16 >= 0
  {
  }

  lemma ShowsAfterDist(mode: Mode, bits: nat, r: Regs, st: State, d: Pair, here: Entry)
    requires Good(r.lencode, Lens, d.lit) && Good(r.distcode, Dists, d.dist) && st == DistTarget(d, r.length, here)
             && here.val >= 0
    requires if here.op / 64 % 2 == 1 then mode == BAD
             else mode == DISTEXT && r.offset == here.val && r.extra == here.op % 16
    ensures Shows(mode, bits, r, st)
  {
    hide Good;
  }

  lemma DistExtShown(mode: Mode, bits: int, r: Regs, c: Config)
    requires Shows(mode, bits, r, c.st) && mode == DISTEXT && Sane(c)
    ensures c.st == DistExt(c.st.c, r.length, r.offset, r.extra)
    ensures Good(r.lencode, Lens, c.st.c.lit) && Good(r.distcode, Dists, c.st.c.dist)
    ensures r.offset + Pow2(r.extra) - 1 <= 32768
  {
    hide Good, UsablePair, Pow2;
  }

  lemma AtDistExt(x: int, n: nat, c: Config)
    requires x >= 0 && c.st.DistExt?
    ensures n < c.st.extra ==> StepAt(x, n, c) == Stuck
    ensures n >= c.st.extra ==> var d := c.st.dist + Low(x, c.st.extra);
      StepAt(x, n, c) == Move(c.st.extra, c.(st := if d > |c.out| then Bad else Match(c.st.c, c.st.length, d)))
  {
    hide Low;
  }

  /** A distance of at most 32K reaches back too far exactly when the window and this call's output do not hold it. */
  lemma FarBack(hist: seq<Byte>, output: seq<Byte>, whave: int, d: int)
    requires whave == Min(|hist|, 32768) && d <= 32768
    ensures d > whave + |output| <==> d > |hist + output|
  {
  }

  lemma ShowsMatch(mode: Mode, bits: int, r: Regs, st: State, d: Pair)
    requires mode == MATCH && st == Match(d, r.length, r.offset) && Good(r.lencode, Lens, d.lit)
             && Good(r.distcode, Dists, d.dist)
    ensures Shows(mode, bits, r, st)
  {
    hide Good;
  }

  lemma LitShown(mode: Mode, bits: int, r: Regs, c: Config)
    requires Shows(mode, bits, r, c.st) && mode == LIT
    ensures c.st.Lit? && c.st.byte == r.length && Good(r.lencode, Lens, c.st.c.lit)
            && Good(r.distcode, Dists, c.st.c.dist)
  {
    hide Good;
  }

  lemma AtLit(x: int, n: nat, c: Config)
    requires x >= 0 && c.st.Lit?
    ensures StepAt(x, n, c) == Move(0, Config(Len(c.st.c), c.last, c.out + [c.st.byte]))
  {
  }

  lemma ShowsLen(mode: Mode, bits: int, r: Regs, st: State, d: Pair)
    requires mode == LEN && st == Len(d) && Good(r.lencode, Lens, d.lit) && Good(r.distcode, Dists, d.dist)
    ensures Shows(mode, bits, r, st)
  {
    hide Good;
  }

  lemma AtCheck(mode: Mode, x: int, n: nat, r: Regs, c: Config)
    requires x >= 0 && Shows(mode, n, r, c.st) && mode == CHECK
    ensures StepAt(x, n, c) == Move(0, c.(st := Done))
  {
  }

  lemma AtMatch(x: int, n: nat, c: Config)
    requires x >= 0 && c.st.Match? && c.st.length >= 1 && 1 <= c.st.dist <= |c.out|
    ensures StepAt(x, n, c) == Move(0,
                                    Config(if c.st.length == 1 then Len(c.st.c)
                                           else Match(c.st.c, c.st.length - 1, c.st.dist),
                                              c.last, c.out + [c.out[|c.out| - c.st.dist]]))
  {
  }

  lemma StepZero(hold: int, bits: nat, consumed: seq<Byte>, m: Machine, c: Config)
    requires Reservoir(hold, bits, consumed, m) && hold >= 0 && StepAt(hold, bits, m.c) == Move(0, c)
    ensures Reservoir(hold, bits, consumed, Machine(c, m.pos))
  {
    hide StepAt, Reservoir;
    TakeStep(hold, bits, consumed, m, 0, c);
  }

  lemma MatchShown(mode: Mode, bits: int, r: Regs, c: Config)
    requires Shows(mode, bits, r, c.st) && mode == MATCH && Sane(c)
    ensures c.st == Match(c.st.c, r.length, r.offset) && 1 <= r.length && 1 <= r.offset <= 32768 && r.offset <= |c.out|
    ensures Good(r.lencode, Lens, c.st.c.lit) && Good(r.distcode, Dists, c.st.c.dist)
  {
    hide Good, UsablePair;
  }

  /** The copy bytes of w from cell `from` on are those that lie dist back in out, as it is extended. */
  ghost predicate Sourced(w: seq<Byte>, from: int, copy: nat, out: seq<Byte>, dist: nat) {
    && 0 <= from && from + copy <= |w| && copy <= dist <= |out|
    && forall j :: from <= j < from + copy ==> w[j] == out[|out| - dist + (j - from)]
  }

  lemma SourcedLess(w: seq<Byte>, from: int, copy: nat, less: nat, out: seq<Byte>, dist: nat)
    requires Sourced(w, from, copy, out, dist) && less <= copy
    ensures Sourced(w, from, less, out, dist)
  {
  }

  /** Reading forward in the window from where the match starts. */
  lemma WindowSource(w: seq<Byte>, write: int, whave: int, hist: seq<Byte>, output: seq<Byte>, offset: nat)
    requires Mirrors(w, write, whave, hist) && |output| < offset <= |hist| + |output| && |w| == 32768 && offset <= 32768
    ensures 0 <= write < |w|
    ensures var d := offset - |output|;
      if d > write then 0 <= |w| - (d - write) && Sourced(w, |w| - (d - write), d - write, hist + output, offset)
      else Sourced(w, write - d, d, hist + output, offset)
  {
    var d := offset - |output|;
    var n := if d > write then d - write else d;
    var from := if d > write then |w| - (d - write) else write - d;
    forall j | from <= j < from + n ensures 0 <= j < |w|
    && w[j] == (hist + output)[|hist + output| - offset + (j - from)] {
      WindowBytes(w, write, whave, hist, d, j - from);
    }
  }

  lemma SourcedAt(w: seq<Byte>, from: int, copy: nat, hist: seq<Byte>, o: seq<Byte>, output: seq<Byte>, dist: nat,
                  k: nat)
    requires Sourced(w, from, copy, hist + o, dist) && o <= output && |output| == |o| + k && k < copy
    ensures 0 <= from + k < |w| && 0 <= |hist + output| - dist < |hist + output|
    ensures w[from + k] == (hist + output)[|hist + output| - dist]
  {
    var i := |hist + output| - dist;
    assert i == |hist + o| - dist + k;
    assert (hist + output)[i] == (hist + o)[i];
  }

  lemma OverlapAt(hist: seq<Byte>, o: seq<Byte>, output: seq<Byte>, dist: nat, k: nat)
    requires o <= output && |output| == |o| + k && 1 <= dist <= |o|
    ensures |o| - dist + k < |output|
    ensures (hist + output)[|hist + output| - dist] == output[|o| - dist + k]
  {
  }

  lemma FifteenBits()
    ensures MAXBITS == 15
  {
  }

  lemma AgreeSelf(x: int, n: nat)
    requires x >= 0
    ensures Agree(x, x, n)
  {
  }

  lemma AgreeVia(x: int, y: int, z: int, n: nat)
    requires Agree(x, y, n) && Agree(y, z, n)
    ensures Agree(x, z, n)
  {
    hide Rev;
  }

  lemma MatchExact(c: Config)
    requires c.st.Match? || c.st.Lit? || c.st.Len? || c.st.LenExt? || c.st.Dist? || c.st.DistExt?
    ensures Exact(c)
  {
  }

  /** After the first n bytes, the rest of the source still gives the bytes that far back. */
  lemma SourcedRest(w: seq<Byte>, from: int, copy: nat, n: nat, hist: seq<Byte>, o: seq<Byte>, output: seq<Byte>,
                    dist: nat)
    requires Sourced(w, from, copy, hist + o, dist) && n <= copy && o <= output && |output| == |o| + n
    ensures Sourced(w, from + n, copy - n, hist + output, dist)
  {
    forall j | from + n <= j < from + copy ensures w[j] == (hist + output)[|hist + output| - dist + (j - (from + n))] {
      assert w[j] == (hist + o)[|hist + o| - dist + (j - from)];
    }
  }

  /** The operations that lookups of complete codes come to. */
  ghost predicate FastOp(e: Entry) {
    e.op == 0 || 16 <= e.op <= 29 || e.op == 96 || e.op == 64 || e.op == 201 || e.op == 196
  }

  lemma FastOps(kind: CodeType, lens: seq<int>, x: int, n: nat, here: Entry)
    requires Answer(kind, lens, x, n, here) && 0 <= here.bits <= n
    ensures FastOp(here)
  {
    AnswerEntry(kind, lens, x, n, here);
    hide SymbolAt, Answer;
    if SymbolAt(lens, x, n).Found? {
      EntryOps(kind, SymbolAt(lens, x, n).sym, here.bits);
    }
  }

  lemma DistOps(lens: seq<int>, x: int, n: nat, here: Entry)
    requires Answer(Dists, lens, x, n, here) && 0 <= here.bits <= n
    ensures here.op != 0 && here.op != 96
  {
    AnswerEntry(Dists, lens, x, n, here);
    hide SymbolAt, Answer;
    if SymbolAt(lens, x, n).Found? {
      DistEntryOps(SymbolAt(lens, x, n).sym, here.bits);
    }
  }

  lemma DistEntryOps(s: nat, b: int)
    requires s < 32
    ensures EntryOf(Dists, s, b).op != 0 && EntryOf(Dists, s, b).op != 96
  {
  }

  lemma EntryOps(kind: CodeType, s: nat, b: int)
    requires s < Alphabet(kind)
    ensures FastOp(EntryOf(kind, s, b))
  {
  }

  lemma LenTargets(d: Pair, e: Entry)
    requires FastOp(e) && e.val >= 0 && (e.op == 0 ==> e.val < 256)
    ensures e.op == 0 ==> LenTarget(d, e) == Lit(d, e.val)
    ensures e.op / 16 % 2 == 1 ==> LenTarget(d, e) == LenExt(d, e.val, e.op % 16)
    ensures e.op != 0 && e.op / 16 % 2 != 1 && e.op / 32 % 2 == 1 ==> LenTarget(d, e) == Type
    ensures e.op != 0 && e.op / 16 % 2 != 1 && e.op / 32 % 2 != 1 ==> LenTarget(d, e) == Bad
  {
  }

  lemma DistTargets(d: Pair, len: nat, e: Entry)
    requires FastOp(e) && e.val >= 0 && e.op != 0 && e.op != 96
    ensures e.op / 16 % 2 == 1 ==> DistTarget(d, len, e) == DistExt(d, len, e.val, e.op % 16)
    ensures e.op / 16 % 2 != 1 ==> DistTarget(d, len, e) == Bad
  {
  }

  lemma LenExtSane(c: Config)
    requires Sane(c) && c.st.LenExt?
    ensures c.st.extra <= 5 && c.st.length >= 3 && c.st.length + Pow2(c.st.extra) - 1 <= 258
  {
    hide UsablePair, Pow2;
  }

  lemma DistExtSane(c: Config)
    requires Sane(c) && c.st.DistExt?
    ensures c.st.extra <= 13 && c.st.dist >= 1 && c.st.dist + Pow2(c.st.extra) - 1 <= 32768
  {
    hide UsablePair, Pow2;
  }

  lemma LowNone(x: int)
    requires x >= 0
    ensures Low(x, 0) == 0
  {
  }

  /** The first code reaches beyond the bits that did not suffice. */
  lemma FastEnough(lens: seq<int>, h0: int, hold: int, b0: nat, bits: nat, here: Entry)
    requires Usable(Lens, lens) && SymbolAt0(lens, h0, b0) == More && h0 >= 0 && Agree(h0, hold, b0)
    requires Answer(Lens, lens, hold, bits, here) && here.bits <= bits
    ensures here.bits > b0
  {
    JustEnough(Lens, lens, h0, hold, b0, bits, here);
  }

  lemma ShowsFast(mode: Mode, bits: int, r: Regs, st: State, d: Pair)
    requires Good(r.lencode, Lens, d.lit) && Good(r.distcode, Dists, d.dist)
    requires if mode == LEN then st == Len(d) else if mode == TYPE then st == Type else mode == BAD && st == Bad
    ensures Shows(mode, bits, r, st)
  {
    hide Good;
  }

  lemma LenStuck(hold: int, bits: int, c: Config)
    requires Thrifty(hold, bits, c) && bits >= 8 && c.st.Len?
    ensures SymbolAt0(c.st.c.lit, hold, bits) == More
  {
    hide SymbolAt, AfterLen;
  }

  lemma ConsumedIs(base: seq<Byte>, input: seq<Byte>, n: nat)
    requires n <= |input|
    ensures Consumed(base, input, n) == base + input[..n]
  {
  }

  lemma ShowsTypeDo(mode: Mode, bits: int, r: Regs, st: State)
    requires mode == TYPEDO && st == Type
    ensures Shows(mode, bits, r, st)
  {
  }

  lemma StartReservoir()
    requires Reaches([], START)
    ensures Reservoir(0, 0, [], START) && Thrifty(0, 0, START.c) && START.c.out == [] && !START.c.last
  {
    hide Reaches;
  }

  lemma StartShows(bits: int, r: Regs)
    ensures Shows(HEAD, bits, r, START.c.st)
  {
  }

  // ----- chunking

  /** Modes that differ only in whether the state has been entered before count as one. */
  function Observed(mode: Mode): Mode {
    if mode == HEAD || mode == TYPEDO then TYPE else mode
  }

  /** The machine has been given the data and can go no further: it waits for more, or has finished. */
  ghost predicate Ended(s: InflateState, data: seq<Byte>)
    reads s
  {
    s.base <= data && (s.mode == DONE || s.mode == BAD || (s.base == data && Next(data, s.m) == None))
  }

  lemma IdleReached(s: InflateState)
    requires s.Idle()
    ensures Reaches(s.base, s.m) && s.m.c.out == s.hist && Shows(s.mode, s.bits, s.r, s.m.c.st)
  {
    IdleParts(s);
    hide *;
    s.CoreParts();
    s.FlowParts();
    ConsumedIs(s.base, s.input, s.next);
    assert s.base + s.input[..s.next] == s.base;
  }

  lemma IdleParts(s: InflateState)
    requires s.Idle()
    ensures s.Core() && s.Flow() && s.next == 0
  {
    hide Reaches, Shows, Good;
  }

  lemma EndedStuck(s: InflateState, data: seq<Byte>)
    requires s.Idle() && Ended(s, data)
    ensures Reaches(data, s.m) && Next(data, s.m) == None
  {
    hide *;
    IdleReached(s);
    FinishedStuck(s, data);
    EndedPrefix(s, data);
    ReachesMore(s.base, data[|s.base|..], s.m);
    assert s.base + data[|s.base|..] == data;
  }

  lemma EndedPrefix(s: InflateState, data: seq<Byte>)
    requires Ended(s, data)
    ensures s.base <= data
  {
  }

  lemma FinishedStuck(s: InflateState, data: seq<Byte>)
    requires Ended(s, data) && Shows(s.mode, s.bits, s.r, s.m.c.st)
    ensures Next(data, s.m) == None
  {
    hide Good;
  }

  lemma SameMode(a: Mode, b: Mode, i: int, j: int, q: Regs, r: Regs, st: State)
    requires Shows(a, i, q, st) && Shows(b, j, r, st)
    ensures Observed(a) == Observed(b)
  {
    hide Good, NoLonger;
  }

  /**
   However the data has been cut into calls, with whatever room for output: two machines that have
   come to the end of the same data have put out the same bytes and stand in the same mode.
   */
  lemma ChunkIndependence(s: InflateState, t: InflateState, data: seq<Byte>)
    requires s.Idle() && t.Idle() && Ended(s, data) && Ended(t, data)
    ensures s.hist == t.hist && Observed(s.mode) == Observed(t.mode)
  {
    hide *;
    EndedStuck(s, data);
    EndedStuck(t, data);
    IdleReached(s);
    IdleReached(t);
    SameEnd(data, s.m, t.m);
    SameMode(s.mode, t.mode, s.bits, t.bits, s.r, t.r, s.m.c.st);
  }

  /** A machine that has been given less of the data, or less room, has put out a part of the same bytes. */
  lemma PartialOutput(s: InflateState, t: InflateState, data: seq<Byte>)
    requires s.Idle() && t.Idle() && s.base <= data && Ended(t, data)
    ensures s.hist <= t.hist
  {
    hide *;
    EndedStuck(t, data);
    IdleReached(s);
    IdleReached(t);
    ReachesMore(s.base, data[|s.base|..], s.m);
    assert s.base + data[|s.base|..] == data;
    OutputPrefix(data, s.m, t.m);
  }
}
