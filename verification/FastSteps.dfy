/**
 What makes the fast path safe.  While decoding symbols a step needs exactly the
 bits it drops, so bytes that were pulled in too early can be given back: the run
 does not depend on them.
 */
module FastSteps {
  import opened Canonical
  import opened BitOrder
  import opened DecodeTable
  import opened InflateSpec
  import opened InflateRuns
  import opened InflateSound
  import opened BitReservoir

  /** States whose steps look at no more bits than they drop. */
  ghost predicate Exact(c: Config) {
    c.st.Len? || c.st.LenExt? || c.st.Dist? || c.st.DistExt? || c.st.Match? || c.st.Lit?
  }

  lemma ExactSymbol(kind: CodeType, lens: seq<int>, x: int, y: int, n: nat, n2: nat)
    requires Usable(kind, lens) && Agree(x, y, n2) && n2 <= n
    requires match SymbolAt(lens, x, n)
             case Found(s) => lens[s] <= n2
             case Gap => 1 <= n2
             case More => false
    ensures SymbolAt(lens, y, n2) == SymbolAt(lens, x, n)
  {
    match SymbolAt(lens, x, n)
    case Found(s) =>
      ExactComplete(lens, x, y, n2, s);
      SymbolFound(kind, lens, y, n2, s);
    case Gap =>
      AgreeLess(x, y, n2, 1);
      DeadAgree(lens, x, y);
      DeadNone2(lens, y, n2);
  }

  lemma ExactComplete(lens: seq<int>, x: int, y: int, n2: nat, s: nat)
    requires Starts(lens, Cnt(lens), x, s) && lens[s] <= n2 && Agree(x, y, n2)
    ensures Complete(lens, y, n2, s)
  {
    AgreeLess(x, y, n2, lens[s]);
  }

  lemma DeadNone2(lens: seq<int>, x: int, n: nat)
    requires Dead(lens, x) && n >= 1
    ensures SymbolAt(lens, x, n) == Gap
  {
    hide Dead;
    DeadNone(lens, x, n);
  }

  lemma ExactCodes(x: int, y: int, n: nat, n2: nat, c: Config, k: nat, c': Config)
    requires (c.st.Len? || c.st.Dist?) && Sane(c) && x >= 0 && StepAt(x, n, c) == Move(k, c') && Agree(x, y, n2)
             && k <= n2 <= n
    ensures StepAt(y, n2, c) == Move(k, c')
  {
    hide AfterLen, AfterDist, Usable;
    if c.st.Len? {
      ExactSymbol(Lens, c.st.c.lit, x, y, n, n2);
    } else {
      ExactSymbol(Dists, c.st.c.dist, x, y, n, n2);
    }
    hide SymbolAt, Agree;
  }

  lemma ExactExtra(x: int, y: int, n: nat, n2: nat, c: Config, k: nat, c': Config)
    requires (c.st.LenExt? || c.st.DistExt?) && x >= 0 && StepAt(x, n, c) == Move(k, c') && Agree(x, y, n2)
             && k <= n2 <= n
    ensures StepAt(y, n2, c) == Move(k, c')
  {
    hide Low;
    assert k == c.st.extra;
    AgreeLess(x, y, n2, k);
    hide Agree;
  }

  lemma ExactOutput(x: int, y: int, n: nat, n2: nat, c: Config)
    requires (c.st.Match? || c.st.Lit?) && x >= 0 && y >= 0
    ensures StepAt(y, n2, c) == StepAt(x, n, c)
  {
  }

  /** A step of an exact state can be told from the bits it drops. */
  lemma ExactStep(x: int, y: int, n: nat, n2: nat, c: Config, k: nat, c': Config)
    requires Exact(c) && Sane(c) && x >= 0 && StepAt(x, n, c) == Move(k, c') && Agree(x, y, n2) && k <= n2 <= n
    ensures StepAt(y, n2, c) == Move(k, c')
  {
    hide StepAt, Sane;
    if c.st.Len? || c.st.Dist? {
      ExactCodes(x, y, n, n2, c, k, c');
    } else if c.st.LenExt? || c.st.DistExt? {
      ExactExtra(x, y, n, n2, c, k, c');
    } else {
      ExactOutput(x, y, n, n2, c);
    }
  }

  /** The bytes that the first pos bits lie in, and no fewer than lo. */
  function Tight(lo: nat, pos: nat): nat {
    if 8 * lo >= pos then lo else (pos + 7) / 8
  }

  /** The decoder's state is reached on the bytes it has used bits of. */
  ghost predicate TightReach(all: seq<Byte>, lo: nat, m: Machine) {
    Tight(lo, m.pos) <= |all| && Reaches(all[..Tight(lo, m.pos)], m)
  }

  lemma {:induction false} AgreeMore(all: seq<Byte>, i: nat, j: nat, pos: nat)
    requires pos <= 8 * i && i <= j <= |all|
    ensures Agree(Shr(Value(all[..i]), pos), Shr(Value(all[..j]), pos), 8 * i - pos)
    decreases j
  {
    hide Value, Shr;
    if i < j {
      AgreeMore(all, i, j - 1, pos);
      assert all[..j] == all[..j - 1] + [all[j - 1]];
      ByteMore(all[..j - 1], all[j - 1], pos);
      AgreeLess(Shr(Value(all[..j - 1]), pos), Shr(Value(all[..j]), pos), 8 * (j - 1) - pos, 8 * i - pos);
    }
  }

  lemma TightMono(all: seq<Byte>, lo: nat, m: Machine, i: nat)
    requires TightReach(all, lo, m) && Tight(lo, m.pos) <= i <= |all|
    ensures Reaches(all[..i], m)
  {
    hide Reaches;
    ReachesMore(all[..Tight(lo, m.pos)], all[Tight(lo, m.pos)..i], m);
    assert all[..Tight(lo, m.pos)] + all[Tight(lo, m.pos)..i] == all[..i];
  }

  /** One exact step: still reached on no more bytes than it has used bits of. */
  lemma TightNext(all: seq<Byte>, lo: nat, n: nat, hold: int, bits: nat, m: Machine, k: nat, c: Config)
    requires TightReach(all, lo, m) && lo <= n <= |all| && Reservoir(hold, bits, all[..n], m) && hold >= 0
    requires Exact(m.c) && StepAt(hold, bits, m.c) == Move(k, c)
    ensures TightReach(all, lo, Machine(c, m.pos + k))
  {
    hide StepAt, Exact, Sane;
    ReachedSane(all[..n], m);
    StepSane(hold, bits, m.c);
    var m' := Machine(c, m.pos + k);
    var j := Tight(lo, m'.pos);
    assert m.pos + k <= 8 * n;
    TightMono(all, lo, m, j);
    AgreeMore(all, j, n, m.pos);
    var y := Shr(Value(all[..j]), m.pos);
    AgreeBack(hold, y, 8 * j - m.pos);
    ExactStep(hold, y, bits, 8 * j - m.pos, m.c, k, c);
    assert Next(all[..j], m) == Some(m');
    hide Next, Reaches, Shr, Value;
    NextReached(all[..j], m, m');
  }

  lemma AgreeBack(x: int, y: int, n: nat)
    requires Agree(y, x, n)
    ensures Agree(x, y, n)
  {
  }

  lemma TightStart(all: seq<Byte>, lo: nat, m: Machine)
    requires lo <= |all| && Reaches(all[..lo], m) && m.pos <= 8 * lo
    ensures TightReach(all, lo, m)
  {
    hide Reaches;
  }

  /** Whole bytes left over are given back. */
  lemma GiveBack(all: seq<Byte>, lo: nat, n: nat, hold: int, bits: nat, m: Machine)
    requires TightReach(all, lo, m) && lo <= n <= |all| && Reservoir(hold, bits, all[..n], m) && hold >= 0
    requires 8 * lo <= m.pos + 7
    ensures bits / 8 <= n && lo <= n - bits / 8
    ensures Reservoir(Low(hold, bits % 8), bits % 8, all[..n - bits / 8], m)
  {
    hide Reaches, Value, Shr, Low, Rev;
    var i := n - bits / 8;
    assert m.pos + bits == 8 * n;
    assert 8 * i == m.pos + bits % 8;
    assert Tight(lo, m.pos) <= i;
    TightMono(all, lo, m, i);
    AgreeMore(all, i, n, m.pos);
    ValueLow(all[..i], hold, m.pos, bits % 8);
  }

  lemma ValueLow(s: seq<Byte>, x: int, pos: nat, b: nat)
    requires pos + b == 8 * |s| && x >= 0 && Agree(Shr(Value(s), pos), x, b)
    ensures Low(x, b) == Shr(Value(s), pos)
  {
    hide Shr, Value;
    ValueBound(s);
    ShrBound(Value(s), pos, 8 * |s|);
    LowAll(Shr(Value(s), pos), b);
    AgreeLess(Shr(Value(s), pos), x, b, b);
  }
}
