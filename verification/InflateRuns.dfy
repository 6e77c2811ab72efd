/**
 Runs of the decoder.  A run depends on the input alone: more input never changes
 what has been decoded, and two runs that are both stuck have ended in the same place.
 */
module InflateRuns {
  import opened Arith
  import opened Canonical
  import opened BitOrder
  import opened DecodeTable
  import opened SymbolSort
  import opened InflateSpec

  /** The bytes as one number, first byte least significant. */
  function Value(s: seq<Byte>): (v: int)
    ensures v >= 0
  {
    if s == [] then 0 else UpNonNegative(s[|s| - 1], 8 * (|s| - 1)) + Value(s[..|s| - 1])
  }

  function UpNonNegative(b: int, k: nat): (v: int)
    requires b >= 0
    ensures v == Up(b, k) >= 0
  {
    ShrUp(b, k);
    Up(b, k)
  }

  lemma ByteValue(out: seq<Byte>, b: Byte)
    ensures Value(out + [b]) == Value(out) + Up(b, 8 * |out|)
  {
    assert (out + [b])[..|out|] == out;
  }

  lemma {:induction false} ValueCons(b: Byte, s: seq<Byte>)
    ensures Value([b] + s) == b + Up(Value(s), 8)
  {
    if s == [] {
      ByteValue([], b);
      ZeroUp(8);
      assert [b] + [] == [] + [b];
    } else {
      var t, c := s[..|s| - 1], s[|s| - 1];
      assert s == t + [c] && [b] + s == ([b] + t) + [c];
      ValueCons(b, t);
      hide Value;
      ByteValue([b] + t, c);
      ByteValue(t, c);
      UpSum(Value(t), Up(c, 8 * |t|), 8);
      UpUp(c, 8 * |t|, 8);
    }
  }

  /** The decoder and its position in the input, in bits. */
  datatype Machine = Machine(c: Config, pos: nat)

  const START := Machine(Config(Type, false, []), 0)

  datatype Option<T> = None | Some(value: T)

  /** The next step on the given input, if there is one. */
  ghost function Next(inp: seq<Byte>, m: Machine): Option<Machine> {
    if m.pos > 8 * |inp| then None
    else
      match StepAt(Shr(Value(inp), m.pos), 8 * |inp| - m.pos, m.c)
      case Stuck => None
      case Move(k, c) => Some(Machine(c, m.pos + k))
  }

  /** The decoder after n steps. */
  ghost function After(inp: seq<Byte>, n: nat): Option<Machine> {
    if n == 0 then Some(START)
    else match After(inp, n - 1)
      case None => None
      case Some(m) => Next(inp, m)
  }

  ghost predicate Reaches(inp: seq<Byte>, m: Machine) {
    exists n: nat :: After(inp, n) == Some(m)
  }

  lemma StartReached(inp: seq<Byte>)
    ensures Reaches(inp, START)
  {
    assert After(inp, 0) == Some(START);
  }

  lemma NextReached(inp: seq<Byte>, m: Machine, m': Machine)
    requires Reaches(inp, m) && Next(inp, m) == Some(m')
    ensures Reaches(inp, m')
  {
    hide Next;
    var n: nat :| After(inp, n) == Some(m);
    assert After(inp, n + 1) == Some(m');
  }

  // ----- determinism

  lemma {:induction false} StuckStays(inp: seq<Byte>, n: nat, m: Machine, k: nat)
    requires After(inp, n) == Some(m) && Next(inp, m) == None && k > n
    ensures After(inp, k) == None
  {
    hide Next;
    if k > n + 1 {
      StuckStays(inp, n, m, k - 1);
    }
  }

  /** Two runs on the same input that can go no further have ended in the same place. */
  lemma SameEnd(inp: seq<Byte>, a: Machine, b: Machine)
    requires Reaches(inp, a) && Reaches(inp, b) && Next(inp, a) == None && Next(inp, b) == None
    ensures a == b
  {
    hide Next, After;
    var n: nat :| After(inp, n) == Some(a);
    var k: nat :| After(inp, k) == Some(b);
    if k > n {
      StuckStays(inp, n, a, k);
    } else if n > k {
      StuckStays(inp, k, b, n);
    }
  }

  // ----- more input

  lemma {:induction false} ShrHigh(v: int, b: int, m: nat, k: nat)
    requires v >= 0 && b >= 0 && k <= m
    ensures Up(b, m) >= 0 && Up(b, m - k) >= 0 && Shr(v + Up(b, m), k) == Shr(v, k) + Up(b, m - k)
    decreases k
  {
    ShrUp(b, m);
    ShrUp(b, m - k);
    if k > 0 {
      ShrHigh(v / 2, b, m - 1, k - 1);
      assert (v + Up(b, m)) / 2 == v / 2 + Up(b, m - 1);
    }
  }

  /** The first n bits of x and y agree. */
  ghost predicate Agree(x: int, y: int, n: nat) {
    x >= 0 && y >= 0 && Rev(x, n) == Rev(y, n)
  }

  lemma AgreeLess(x: int, y: int, n: nat, k: nat)
    requires Agree(x, y, n) && k <= n
    ensures Agree(x, y, k) && Low(x, k) == Low(y, k)
  {
    RevPrefix(x, n, k);
    RevPrefix(y, n, k);
  }

  lemma AgreeRest(x: int, y: int, k: nat, m: nat)
    requires x >= 0 && y >= 0 && Rev(x, k + m) == Rev(y, k + m) && Rev(x, k) == Rev(y, k)
    ensures Rev(Shr(x, k), m) == Rev(Shr(y, k), m)
  {
    hide *;
    RevSplit(x, k, m);
    RevSplit(y, k, m);
  }

  lemma AgreeShift(x: int, y: int, n: nat, k: nat)
    requires Agree(x, y, n) && k <= n
    ensures Agree(Shr(x, k), Shr(y, k), n - k)
  {
    hide Rev, Shr, Low;
    AgreeLess(x, y, n, k);
    AgreeRest(x, y, k, n - k);
  }

  /** A byte more leaves the bits before it as they were. */
  lemma ByteMore(inp: seq<Byte>, b: Byte, pos: nat)
    requires pos <= 8 * |inp|
    ensures Up(b, 8 * |inp| - pos) >= 0
    ensures Shr(Value(inp + [b]), pos) == Shr(Value(inp), pos) + Up(b, 8 * |inp| - pos)
    ensures Agree(Shr(Value(inp), pos), Shr(Value(inp + [b]), pos), 8 * |inp| - pos)
  {
    assert (inp + [b])[..|inp|] == inp;
    ShrHigh(Value(inp), b, 8 * |inp|, pos);
    RevHigh(Shr(Value(inp), pos), b, 8 * |inp| - pos, 8 * |inp| - pos);
  }

  /** A codes pair whose tables can be built. */
  ghost predicate Usable(kind: CodeType, lens: seq<int>) {
    Acceptable(kind, Cnt(lens)) && |lens| <= Alphabet(kind) && forall i :: 0 <= i < |lens| ==> 0 <= lens[i] <= MAXBITS
  }

  ghost predicate UsablePair(c: Pair) {
    Usable(Lens, c.lit) && Usable(Dists, c.dist)
  }

  /** What holds of every state a run comes to. */
  ghost predicate Sane(c: Config) {
    match c.st
    case LenLens(nlen, ndist, ncode, read) =>
      && 257 <= nlen <= 286 && 1 <= ndist <= 30 && |read| <= ncode <= 19
      && forall i :: 0 <= i < |read| ==> 0 <= read[i] <= 7
    case CodeLens(nlen, ndist, code, lens) =>
      && 257 <= nlen <= 286 && 1 <= ndist <= 30 && |lens| <= nlen + ndist
      && |code| == 19 && Usable(Codes, code) && (forall i :: 0 <= i < |code| ==> code[i] <= 7)
      && forall i :: 0 <= i < |lens| ==> 0 <= lens[i] <= MAXBITS
    case Copy(length) => length <= 0xFFFF
    case Len(d) => UsablePair(d)
    case Lit(d, _) => UsablePair(d)
    case LenExt(d, length, extra) => UsablePair(d) && 3 <= length && extra <= 5 && length + Pow2(extra) - 1 <= 258
    case Dist(d, length) => UsablePair(d) && 3 <= length <= 258
    case DistExt(d, length, dist, extra) =>
      UsablePair(d) && 3 <= length <= 258 && 1 <= dist && extra <= 13 && dist + Pow2(extra) - 1 <= 32768
    case Match(d, length, dist) => UsablePair(d) && 1 <= length <= 258 && 1 <= dist <= 32768 && dist <= |c.out|
    case _ => true
  }

  // ----- a step does not see beyond its bits

  lemma UsableFits(kind: CodeType, lens: seq<int>)
    requires Usable(kind, lens)
    ensures Counts(lens, Cnt(lens)) && Fits(Cnt(lens))
  {
    CountedCounts(lens, Cnt(lens));
  }

  lemma CompleteAgree(lens: seq<int>, x: int, y: int, n: nat, n': nat, s: nat)
    requires Complete(lens, x, n, s) && Agree(x, y, n) && n <= n'
    ensures Complete(lens, y, n', s)
  {
    AgreeLess(x, y, n, lens[s]);
  }

  lemma CompleteUnique(kind: CodeType, lens: seq<int>, x: int, n: nat, n': nat, s: nat, t: nat)
    requires Usable(kind, lens) && Complete(lens, x, n, s) && Complete(lens, x, n', t)
    ensures s == t
  {
    UsableFits(kind, lens);
    StartsUnique(lens, Cnt(lens), x, s, t);
  }

  lemma SymbolFound(kind: CodeType, lens: seq<int>, x: int, n: nat, s: nat)
    requires Usable(kind, lens) && Complete(lens, x, n, s)
    ensures SymbolAt(lens, x, n) == Found(s)
  {
    var r := SymbolAt(lens, x, n);
    CompleteUnique(kind, lens, x, n, n, s, r.sym);
  }

  /** What the first bits decide stays decided. */
  lemma SymbolAgree(kind: CodeType, lens: seq<int>, x: int, y: int, n: nat, n': nat)
    requires Usable(kind, lens) && Agree(x, y, n) && n <= n' && SymbolAt(lens, x, n) != More
    ensures SymbolAt(lens, y, n') == SymbolAt(lens, x, n)
  {
    match SymbolAt(lens, x, n)
    case Found(s) =>
      CompleteAgree(lens, x, y, n, n', s);
      SymbolFound(kind, lens, y, n', s);
    case Gap =>
      AgreeLess(x, y, n, 1);
      DeadAgree(lens, x, y);
      DeadNone(lens, y, n');
  }

  lemma DeadAgree(lens: seq<int>, x: int, y: int)
    requires Dead(lens, x) && y >= 0 && Rev(x, 1) == Rev(y, 1)
    ensures Dead(lens, y)
  {
  }

  lemma DeadNone(lens: seq<int>, x: int, n: nat)
    requires Dead(lens, x) && n >= 1
    ensures SymbolAt(lens, x, n) == Gap
  {
    assert NoCode(lens, Cnt(lens), x);
    forall s: nat ensures !Complete(lens, x, n, s) {
    }
  }

  lemma LowShrAgree(x: int, y: int, n: nat, k: nat, l: nat)
    requires Agree(x, y, n) && k + l <= n
    ensures Low(Shr(x, k), l) == Low(Shr(y, k), l)
  {
    AgreeShift(x, y, n, k);
    AgreeLess(Shr(x, k), Shr(y, k), n - k, l);
  }

  lemma StepAgreeHeader(x: int, y: int, n: nat, n': nat, c: Config)
    requires Agree(x, y, n) && n <= n' && n' % 8 == n % 8 && StepType(x, n, c).Move?
    ensures StepType(y, n', c) == StepType(x, n, c)
  {
    if n >= 3 {
      AgreeLess(x, y, n, 1);
      LowShrAgree(x, y, n, 1, 2);
    }
    hide Low, Shr;
  }

  lemma StepAgreeStored(x: int, y: int, n: nat, n': nat, c: Config)
    requires Agree(x, y, n) && n <= n'
    ensures StepStoredLen(x, n, c).Move? ==> StepStoredLen(y, n', c) == StepStoredLen(x, n, c)
    ensures c.st.Copy? && StepCopy(x, n, c).Move? ==> StepCopy(y, n', c) == StepCopy(x, n, c)
  {
    if n >= 32 {
      AgreeLess(x, y, n, 16);
      LowShrAgree(x, y, n, 16, 16);
    }
    if n >= 8 {
      AgreeLess(x, y, n, 8);
    }
    hide Low, Shr;
  }

  lemma StepAgreeTable(x: int, y: int, n: nat, n': nat, c: Config)
    requires Agree(x, y, n) && n <= n' && StepTable(x, n, c).Move?
    ensures StepTable(y, n', c) == StepTable(x, n, c)
  {
    hide Low, Shr;
    AgreeLess(x, y, n, 5);
    LowShrAgree(x, y, n, 5, 5);
    LowShrAgree(x, y, n, 10, 4);
  }

  lemma StepAgreeExtra(x: int, y: int, n: nat, n': nat, c: Config)
    requires Agree(x, y, n) && n <= n'
    ensures c.st.LenExt? && StepLenExt(x, n, c).Move? ==> StepLenExt(y, n', c) == StepLenExt(x, n, c)
    ensures c.st.DistExt? && StepDistExt(x, n, c).Move? ==> StepDistExt(y, n', c) == StepDistExt(x, n, c)
  {
    hide Low;
    if c.st.LenExt? && c.st.extra <= n {
      AgreeLess(x, y, n, c.st.extra);
    }
    if c.st.DistExt? && c.st.extra <= n {
      AgreeLess(x, y, n, c.st.extra);
    }
  }

  lemma StepAgreeRun(x: int, y: int, n: nat, n': nat, c: Config, s: nat, k: nat)
    requires Agree(x, y, n) && n <= n' && c.st.CodeLens? && k <= n && StepRun(x, n, c, s, k).Move?
    ensures StepRun(y, n', c, s, k) == StepRun(x, n, c, s, k)
  {
    if n >= k + RunBits(s) {
      LowShrAgree(x, y, n, k, RunBits(s));
    }
    hide Low, Shr;
  }

  lemma StepAgreeLens(x: int, y: int, n: nat, n': nat, c: Config)
    requires Agree(x, y, n) && n <= n' && Sane(c)
    ensures c.st.LenLens? && StepLenLens(x, n, c).Move? ==> StepLenLens(y, n', c) == StepLenLens(x, n, c)
    ensures c.st.CodeLens? && StepCodeLens(x, n, c).Move? ==> StepCodeLens(y, n', c) == StepCodeLens(x, n, c)
  {
    if n >= 3 {
      AgreeLess(x, y, n, 3);
    }
    hide Low;
    if c.st.CodeLens? && SymbolAt(c.st.code, x, n) != More {
      SymbolAgree(Codes, c.st.code, x, y, n, n');
      match SymbolAt(c.st.code, x, n)
      case Found(s) => if StepRun(x, n, c, s, c.st.code[s]).Move? { StepAgreeRun(x, y, n, n', c, s, c.st.code[s]); }
      case Gap => StepAgreeRun(x, y, n, n', c, 0, 1);
    }
    hide StepRun, Usable, Unordered;
  }

  lemma StepAgreeLen(x: int, y: int, n: nat, n': nat, c: Config)
    requires Agree(x, y, n) && n <= n' && c.st.Len? && Usable(Lens, c.st.c.lit) && StepLen(x, n, c).Move?
    ensures StepLen(y, n', c) == StepLen(x, n, c)
  {
    SymbolAgree(Lens, c.st.c.lit, x, y, n, n');
    hide Usable, Agree, Complete, AfterLen, AfterDist;
  }

  lemma StepAgreeDist(x: int, y: int, n: nat, n': nat, c: Config)
    requires Agree(x, y, n) && n <= n' && c.st.Dist? && Usable(Dists, c.st.c.dist) && StepDist(x, n, c).Move?
    ensures StepDist(y, n', c) == StepDist(x, n, c)
  {
    SymbolAgree(Dists, c.st.c.dist, x, y, n, n');
    hide Usable, Agree, Complete, AfterLen, AfterDist;
  }

  /** More bits, whole bytes of them, do not change a step that could be taken without them. */
  lemma StepAgree(x: int, y: int, n: nat, n': nat, c: Config)
    requires Agree(x, y, n) && n <= n' && n' % 8 == n % 8 && Sane(c) && StepAt(x, n, c).Move?
    ensures StepAt(y, n', c) == StepAt(x, n, c)
  {
    match c.st
    case Type => StepAgreeHeader(x, y, n, n', c);
    case Table => StepAgreeTable(x, y, n, n', c);
    case LenLens(_, _, _, _) => StepAgreeLens(x, y, n, n', c);
    case CodeLens(_, _, _, _) => StepAgreeLens(x, y, n, n', c);
    case Len(_) => StepAgreeLen(x, y, n, n', c);
    case Dist(_, _) => StepAgreeDist(x, y, n, n', c);
    case LenExt(_, _, _) => StepAgreeExtra(x, y, n, n', c);
    case DistExt(_, _, _, _) => StepAgreeExtra(x, y, n, n', c);
    case _ => StepAgreeStored(x, y, n, n', c);
    hide StepType, StepStoredLen, StepCopy, StepTable, StepLenLens, StepCodeLens, StepLen, StepLenExt, StepDist,
         StepDistExt, StepMatch;
  }
}
