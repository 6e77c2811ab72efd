/**
 Inflating reads back block headers: the block type, and for a dynamic block the
 sizes, the code length code and the run-length coded lengths of both codes.
 */
module HeaderBack {
  import opened Arith
  import opened Canonical
  import opened DecodeTable
  import opened SymbolSort
  import opened InflateSpec
  import opened InflateRuns
  import opened BitWriter
  import opened RunLengths
  import opened BlockPieces
  import opened ReadBack

  /** A value read in two parts. */
  lemma LowTwo(x: int, a: nat, b: nat)
    requires x >= 0
    ensures Low(x, a) == Low(Low(x, a + b), a) && Low(Shr(x, a), b) == Shr(Low(x, a + b), a)
  {
    hide *;
    LowLow(x, a, a + b);
    LowHigh(x, a + b);
    var y, z := Low(x, a + b), Shr(x, a + b);
    ShrBound(y, a, a + b);
    LowHigh(y, a);
    ShrUp(z, b);
    UpUp(z, b, a);
    UpSum(Shr(y, a), Up(z, b), a);
    LowJoin(Low(y, a), Shr(y, a) + Up(z, b), a);
    LowJoin(Shr(y, a), z, b);
  }

  /** Three bits: whether the block is the last, and its type. */
  lemma ReadType(inp: seq<Byte>, m: Machine, kind: nat, last: bool, rest: seq<Piece>)
    requires m.c.st == Type && !m.c.last && kind <= 2
    requires At(inp, m, [Piece(2 * kind + (if last then 1 else 0), 3)] + rest)
    ensures var st := if kind == 0 then Stored else if kind == 1 then Len(FIXED) else Table;
            At(inp, Machine(Config(st, last, m.c.out), m.pos + 3), rest)
  {
    hide *;
    var v := 2 * kind + (if last then 1 else 0);
    var x, n := Rest(inp, m), Left(inp, m);
    ThreeBits(v);
    AtParts(inp, m, [Piece(v, 3)] + rest);
    HeadPiece(x, n, Piece(v, 3), rest);
    LowTwo(x, 1, 2);
    var st := if kind == 0 then Stored else if kind == 1 then Len(FIXED) else Table;
    TypeStep(x, n, m.c, kind, last);
    Advance(inp, m, [Piece(v, 3)], rest, Config(st, last, m.c.out));
  }

  lemma TypeStep(x: int, n: nat, c: Config, kind: nat, last: bool)
    requires x >= 0 && n >= 3 && c.st == Type && !c.last && kind <= 2
    requires Low(x, 1) == (if last then 1 else 0) && Low(Shr(x, 1), 2) == kind
    ensures StepAt(x, n, c) == Move(3,
                                    Config(if kind == 0 then Stored else if kind == 1 then Len(FIXED)
                                           else Table, last, c.out))
  {
    hide Low, Shr, FIXED;
  }

  lemma SizesStep(x: int, n: nat, c: Config, lcodes: int, dcodes: int, blcodes: int)
    requires x >= 0 && n >= 14 && c.st == Table && 257 <= lcodes <= 286 && 1 <= dcodes <= 30 && 4 <= blcodes
    requires Low(x, 5) == lcodes - 257 && Low(Shr(x, 5), 5) == dcodes - 1 && Low(Shr(x, 10), 4) == blcodes - 4
    ensures StepAt(x, n, c) == Move(14, c.(st := LenLens(lcodes, dcodes, blcodes, [])))
  {
    hide Low, Shr;
  }

  lemma ThreeBits(v: int)
    requires 0 <= v < 8
    ensures Low(v, 1) == v % 2 && Shr(v, 1) == v / 2
  {
    assert Pow2(1) == 2;
    LowIsMod(v, 1);
    assert Shr(v / 2, 0) == v / 2;
  }

  lemma SizeRest(lcodes: int, dcodes: int, blcodes: int, rest: seq<Piece>)
    ensures SizePieces(lcodes, dcodes, blcodes) + rest
         == [Piece(lcodes - 257, 5)] + ([Piece(dcodes - 1, 5)] + ([Piece(blcodes - 4, 4)] + rest))
  {
  }

  /** The sizes of the three codes. */
  lemma ReadSizes(inp: seq<Byte>, m: Machine, lcodes: int, dcodes: int, blcodes: int, rest: seq<Piece>)
    requires m.c.st == Table && 257 <= lcodes <= 286 && 1 <= dcodes <= 30 && 4 <= blcodes <= 19
    requires At(inp, m, SizePieces(lcodes, dcodes, blcodes) + rest)
    ensures At(inp, Machine(m.c.(st := LenLens(lcodes, dcodes, blcodes, [])), m.pos + 14), rest)
  {
    hide *;
    var x, n := Rest(inp, m), Left(inp, m);
    var p, q, r := Piece(lcodes - 257, 5), Piece(dcodes - 1, 5), Piece(blcodes - 4, 4);
    SizeWidth(lcodes, dcodes, blcodes);
    SizeRest(lcodes, dcodes, blcodes, rest);
    AtParts(inp, m, SizePieces(lcodes, dcodes, blcodes) + rest);
    HeadPiece(x, n, p, [q] + ([r] + rest));
    HeadPiece(Shr(x, 5), n - 5, q, [r] + rest);
    ShrAdd(x, 5, 5);
    HeadPiece(Shr(x, 10), n - 10, r, rest);
    SizesStep(x, n, m.c, lcodes, dcodes, blcodes);
    Advance(inp, m, SizePieces(lcodes, dcodes, blcodes), rest, m.c.(st := LenLens(lcodes, dcodes, blcodes, [])));
  }

  // ----- the code length code

  /** Where each symbol stands in ORDER. */
  const PLACE: seq<nat> := [3, 17, 15, 13, 11, 9, 7, 5, 4, 6, 8, 10, 12, 14, 16, 18, 0, 1, 2]

  lemma OrderPlace(i: nat)
    requires i < 19
    ensures ORDER[i] < 19 && PLACE[i] < 19 && PLACE[ORDER[i]] == i && ORDER[PLACE[i]] == i
  {
  }

  function InOrder(len: seq<int>, n: nat): (read: seq<int>)
    requires n <= 19 <= |len|
    ensures |read| == n && forall i :: 0 <= i < n ==> ORDER[i] < 19 && read[i] == len[ORDER[i]]
  {
    if n == 0 then [] else OrderPlace(n - 1); InOrder(len, n - 1) + [len[ORDER[n - 1]]]
  }

  /** Lengths sent in order are put back at their places. */
  lemma {:induction false} UnorderedAt(read: seq<int>, n: nat, s: nat)
    requires n <= |read| && n <= 19 && s < 19
    ensures PLACE[s] < 19 && Unordered(read, n)[s] == if PLACE[s] < n then read[PLACE[s]] else 0
  {
    OrderPlace(s);
    if n > 0 {
      UnorderedAt(read, n - 1, s);
      OrderPlace(n - 1);
    }
  }

  /** The code lengths of the code length code, of which the last ones in order may be left out when zero. */
  lemma UnorderedBack(len: seq<int>, n: nat)
    requires n <= 19 <= |len| && forall i :: n <= i < 19 ==> ORDER[i] < 19 && len[ORDER[i]] == 0
    ensures Unordered(InOrder(len, n), n) == len[..19]
  {
    forall s | 0 <= s < 19 ensures Unordered(InOrder(len, n), n)[s] == len[..19][s] {
      UnorderedAt(InOrder(len, n), n, s);
      OrderPlace(s);
      hide Unordered;
    }
  }

  /** The lengths that are still to be sent. */
  function BlFrom(len: seq<int>, k: nat, n: nat): (ps: seq<Piece>)
    requires k <= n <= 19 <= |len|
    decreases n - k
  {
    if k == n then [] else OrderPlace(k); [Piece(len[ORDER[k]], 3)] + BlFrom(len, k + 1, n)
  }

  lemma {:induction false} BlFromIs(len: seq<int>, k: nat, n: nat)
    requires k <= n <= 19 <= |len|
    ensures BlPieces(len, n) == BlPieces(len, k) + BlFrom(len, k, n)
    decreases n - k
  {
    hide *;
    BlSteps(len, k, n);
    if k < n {
      BlFromIs(len, k + 1, n);
    }
  }

  lemma BlSteps(len: seq<int>, k: nat, n: nat)
    requires k <= n <= 19 <= |len|
    ensures k == n ==> BlPieces(len, k) + BlFrom(len, k, n) == BlPieces(len, n)
    ensures k < n ==> BlPieces(len, k) + BlFrom(len, k, n) == BlPieces(len, k + 1) + BlFrom(len, k + 1, n)
    ensures k < n ==> ORDER[k] < 19 && |ORDER| == 19
                      && BlFrom(len, k, n) == [Piece(len[ORDER[k]], 3)] + BlFrom(len, k + 1, n)
    ensures k < n ==> InOrder(len, k + 1) == InOrder(len, k) + [len[ORDER[k]]]
  {
    hide *;
    if k == n {
      BlNone(len, n);
      assert BlPieces(len, k) + [] == BlPieces(len, k);
    } else {
      BlFromStep(len, k, n);
      BlPiecesStep(len, k);
      var a, p, b := BlPieces(len, k), Piece(len[ORDER[k]], 3), BlFrom(len, k + 1, n);
      assert a + ([p] + b) == a + [p] + b;
    }
  }

  lemma BlFromStep(len: seq<int>, k: nat, n: nat)
    requires k < n <= 19 <= |len|
    ensures |ORDER| == 19 && ORDER[k] < 19 && BlFrom(len, k, n) == [Piece(len[ORDER[k]], 3)] + BlFrom(len, k + 1, n)
  {
    OrderPlace(k);
    hide ORDER;
  }

  lemma BlPiecesStep(len: seq<int>, k: nat)
    requires k < 19 <= |len|
    ensures |ORDER| == 19 && ORDER[k] < 19 && BlPieces(len, k + 1) == BlPieces(len, k) + [Piece(len[ORDER[k]], 3)]
    ensures InOrder(len, k + 1) == InOrder(len, k) + [len[ORDER[k]]]
  {
    OrderPlace(k);
    hide ORDER;
  }

  lemma BlNone(len: seq<int>, n: nat)
    requires n <= 19 <= |len|
    ensures BlFrom(len, n, n) == []
  {
  }

  lemma BlStep(x: int, n: int, c: Config, lcodes: nat, dcodes: nat, ncode: nat, read: seq<int>, v: int)
    requires x >= 0 && n >= 3 && c.st == LenLens(lcodes, dcodes, ncode, read) && |read| < ncode && Low(x, 3) == v
    ensures StepAt(x, n, c) == Move(3, c.(st := LenLens(lcodes, dcodes, ncode, read + [v])))
  {
    hide Low;
  }

  lemma {:induction false} ReadBl(inp: seq<Byte>, m: Machine, lcodes: nat, dcodes: nat, n: nat, k: nat, len: seq<int>,
                                  rest: seq<Piece>)
    returns (m': Machine)
    requires k <= n <= 19 <= |len| && m.c.st == LenLens(lcodes, dcodes, n, InOrder(len, k))
    requires At(inp, m, BlFrom(len, k, n) + rest)
    ensures At(inp, m', rest) && m'.c == m.c.(st := LenLens(lcodes, dcodes, n, InOrder(len, n)))
    decreases n - k
  {
    hide *;
    BlSteps(len, k, n);
    if k == n {
      BlNone(len, n);
      assert [] + rest == rest;
      m' := m;
      return;
    }
    var p, more := Piece(len[ORDER[k]], 3), BlFrom(len, k + 1, n) + rest;
    assert BlFrom(len, k, n) + rest == [p] + more;
    AtParts(inp, m, [p] + more);
    HeadPiece(Rest(inp, m), Left(inp, m), p, more);
    var c := m.c.(st := LenLens(lcodes, dcodes, n, InOrder(len, k + 1)));
    BlStep(Rest(inp, m), Left(inp, m), m.c, lcodes, dcodes, n, InOrder(len, k), p.value);
    Advance(inp, m, [p], more, c);
    m' := ReadBl(inp, Machine(c, m.pos + 3), lcodes, dcodes, n, k + 1, len, rest);
  }

  /** The code length code has been read. */
  lemma ReadBlAll(inp: seq<Byte>, m: Machine, lcodes: nat, dcodes: nat, n: nat, len: seq<int>, rest: seq<Piece>)
    returns (m': Machine)
    requires n <= 19 <= |len| && m.c.st == LenLens(lcodes, dcodes, n, [])
    requires forall i :: n <= i < 19 ==> ORDER[i] < 19 && len[ORDER[i]] == 0
    requires Acceptable(Codes, Cnt(len[..19]))
    requires At(inp, m, BlPieces(len, n) + rest)
    ensures At(inp, m', rest) && m'.c == m.c.(st := CodeLens(lcodes, dcodes, len[..19], []))
  {
    hide *;
    BlFromIs(len, 0, n);
    BlStart(len, n);
    var m1 := ReadBl(inp, m, lcodes, dcodes, n, 0, len, rest);
    UnorderedBack(len, n);
    var c := m.c.(st := CodeLens(lcodes, dcodes, len[..19], []));
    AtParts(inp, m1, rest);
    BlDone(Rest(inp, m1), Left(inp, m1), m1.c, lcodes, dcodes, InOrder(len, n), len[..19]);
    Advance0(inp, m1, rest, c);
    m' := Machine(c, m1.pos);
  }

  lemma BlStart(len: seq<int>, n: nat)
    requires n <= 19 <= |len|
    ensures BlPieces(len, 0) + BlFrom(len, 0, n) == BlFrom(len, 0, n) && InOrder(len, 0) == [] && |InOrder(len, n)| == n
  {
    hide ORDER;
  }

  lemma BlDone(x: int, n: int, c: Config, lcodes: nat, dcodes: nat, read: seq<int>, code: seq<int>)
    requires x >= 0 && n >= 0 && |read| <= 19 && c.st == LenLens(lcodes, dcodes, |read|, read)
    requires Unordered(read, |read|) == code && Acceptable(Codes, Cnt(code))
    ensures StepAt(x, n, c) == Move(0, c.(st := CodeLens(lcodes, dcodes, code, [])))
  {
    hide Acceptable, Cnt, Unordered, Low, Shr, StepType, StepStoredLen, StepCopy, StepTable, StepCodeLens, StepLen;
    hide StepLenExt, StepDist, StepDistExt, StepMatch;
  }

  // ----- run-length coded lengths

  lemma RepeatIs(value: int, n: nat)
    ensures Repeat(value, n) == seq(n, i => value)
  {
  }

  /** What the decoder does on a code length symbol. */
  lemma RunStep(x: int, n: nat, c: Config, r: Run, k: nat, e: int)
    requires x >= 0 && c.st.CodeLens? && |c.st.lens| < c.st.nlen + c.st.ndist
    requires SymbolAt(c.st.code, x, n) == Found(r.sym) && r.sym < |c.st.code| && c.st.code[r.sym] == k <= n
    requires r.sym < 16 || (n >= k + RunBits(r.sym) && Low(Shr(x, k), RunBits(r.sym)) == r.extra == e)
    requires r.sym == 16 ==> c.st.lens != []
    requires |Apply(c.st.lens, r)| <= c.st.nlen + c.st.ndist
    ensures StepAt(x, n, c) == Move(k + (if r.sym < 16 then 0 else RunBits(r.sym)),
                                    c.(st := c.st.(lens := Apply(c.st.lens, r))))
  {
    hide Low, Shr, SymbolAt, RunBits;
    if r.sym >= 16 {
      var lens := c.st.lens;
      var value := if r.sym == 16 then lens[|lens| - 1] else 0;
      RepeatIs(value, RunBase(r.sym) + r.extra);
      assert Apply(lens, r) == lens + seq(RunBase(r.sym) + r.extra, i => value);
      hide Apply, Repeat, RunBase;
    }
  }

  /** The first piece of a run, and the second when it has extra bits. */
  lemma RunAhead(t: CodeTree, r: Run, rest: seq<Piece>)
    requires SendsRun(t, r)
    ensures Sends(t, r.sym) && CodePiece(t, r.sym).len == t.len[r.sym]
    ensures r.sym < 16 ==> RunPieces(t, r) + rest == [CodePiece(t, r.sym)] + rest
                           && Width(RunPieces(t, r)) == t.len[r.sym]
    ensures r.sym >= 16 ==> RunPieces(t, r) + rest == [CodePiece(t, r.sym)] + ([Piece(r.extra, RunBits(r.sym))] + rest)
    ensures r.sym >= 16 ==> Width(RunPieces(t, r)) == t.len[r.sym] + RunBits(r.sym)
  {
    var p, q := CodePiece(t, r.sym), Piece(r.extra, RunBits(r.sym));
    WidthOne(p);
    WidthOne(q);
    WidthAppend([p], [q]);
    assert [p] + [] == [p];
    hide Width, RunBits, Pow2;
  }

  /** One code length symbol. */
  lemma ReadRun(inp: seq<Byte>, m: Machine, code: seq<int>, r: Run, t: CodeTree, rest: seq<Piece>) returns (m': Machine)
    requires m.c.st.CodeLens? && m.c.st.code == code
    requires Usable(Codes, code) && Encodes(t, code) && Listed(code, r.sym) && SendsRun(t, r)
    requires |m.c.st.lens| < m.c.st.nlen + m.c.st.ndist && (r.sym == 16 ==> m.c.st.lens != [])
    requires |Apply(m.c.st.lens, r)| <= m.c.st.nlen + m.c.st.ndist && At(inp, m, RunPieces(t, r) + rest)
    ensures At(inp, m', rest) && m'.c == m.c.(st := m.c.st.(lens := Apply(m.c.st.lens, r)))
  {
    hide *;
    var x, n := Rest(inp, m), Left(inp, m);
    AtParts(inp, m, RunPieces(t, r) + rest);
    RunAhead(t, r, rest);
    ListedLength(code, t, r.sym);
    var p := CodePiece(t, r.sym);
    var c := m.c.(st := m.c.st.(lens := Apply(m.c.st.lens, r)));
    if r.sym < 16 {
      SymbolRead(Codes, code, t, r.sym, x, n, rest);
      RunStep(x, n, m.c, r, code[r.sym], 0);
    } else {
      var q := Piece(r.extra, RunBits(r.sym));
      SymbolRead(Codes, code, t, r.sym, x, n, [q] + rest);
      HeadPiece(x, n, p, [q] + rest);
      HeadPiece(Shr(x, p.len), n - p.len, q, rest);
      RunStep(x, n, m.c, r, code[r.sym], r.extra);
    }
    Advance(inp, m, RunPieces(t, r), rest, c);
    m' := Machine(c, m.pos + Width(RunPieces(t, r)));
  }

  lemma ListedLength(lens: seq<int>, t: CodeTree, s: nat)
    requires Listed(lens, s) && Encodes(t, lens) && Sends(t, s)
    ensures s < |lens| && lens[s] != 0 && s < |t.len| && t.len[s] == lens[s] >= 1
  {
    assert HasCode(t, lens, s);
  }

  // ----- all the lengths

  /** Applying a symbol adds lengths; many add at least as many as there are symbols. */
  lemma ApplyGrows(lens: seq<int>, r: Run)
    requires FitsField(r)
    ensures |Apply(lens, r)| > |lens|
  {
  }

  lemma {:induction false} ExpandGrows(lens: seq<int>, rs: seq<Run>)
    requires AllFit(rs)
    ensures |Expand(lens, rs)| >= |lens| + |rs|
    decreases |rs|
  {
    if rs != [] {
      ApplyGrows(lens, rs[0]);
      assert forall i :: 0 <= i < |rs[1..]| ==> rs[1..][i] == rs[i + 1];
      hide FitsField, Apply;
      ExpandGrows(Apply(lens, rs[0]), rs[1..]);
    }
  }

  ghost predicate AllListed(code: seq<int>, rs: seq<Run>) {
    forall i :: 0 <= i < |rs| ==> Listed(code, rs[i].sym)
  }

  /** A list of code length symbols. */
  lemma {:induction false} ReadRuns(inp: seq<Byte>, m: Machine, code: seq<int>, rs: seq<Run>, t: CodeTree,
                                    rest: seq<Piece>)
    returns (m': Machine)
    requires m.c.st.CodeLens? && m.c.st.code == code && Usable(Codes, code) && Encodes(t, code)
    requires AllListed(code, rs) && SendsRuns(t, rs) && AllFit(rs)
    requires rs != [] && rs[0].sym == 16 ==> m.c.st.lens != []
    requires |Expand(m.c.st.lens, rs)| <= m.c.st.nlen + m.c.st.ndist && At(inp, m, RunsPieces(t, rs) + rest)
    ensures At(inp, m', rest) && m'.c == m.c.(st := m.c.st.(lens := Expand(m.c.st.lens, rs)))
    decreases |rs|
  {
    hide *;
    RunsAhead(m.c.st.lens, code, rs, t, rest);
    if rs == [] {
      m' := m;
      return;
    }
    var m1 := ReadRun(inp, m, code, rs[0], t, RunsPieces(t, rs[1..]) + rest);
    m' := ReadRuns(inp, m1, code, rs[1..], t, rest);
  }

  lemma RunsAhead(lens: seq<int>, code: seq<int>, rs: seq<Run>, t: CodeTree, rest: seq<Piece>)
    requires AllListed(code, rs) && SendsRuns(t, rs) && AllFit(rs)
    ensures rs == [] ==> RunsPieces(t, rs) + rest == rest && Expand(lens, rs) == lens
    ensures rs != [] ==> AllListed(code, rs[1..]) && SendsRuns(t, rs[1..]) && AllFit(rs[1..])
    ensures rs != [] ==> Listed(code, rs[0].sym) && SendsRun(t, rs[0]) && FitsField(rs[0]) && Apply(lens, rs[0]) != []
    ensures rs != [] ==> RunsPieces(t, rs) + rest == RunPieces(t, rs[0]) + (RunsPieces(t, rs[1..]) + rest)
    ensures rs != [] ==> Expand(lens, rs) == Expand(Apply(lens, rs[0]), rs[1..])
    ensures rs != [] ==> |lens| < |Apply(lens, rs[0])| <= |Expand(lens, rs)|
  {
    if rs == [] {
      assert [] + rest == rest;
    } else {
      assert forall i :: 0 <= i < |rs[1..]| ==> rs[1..][i] == rs[i + 1];
      assert FitsField(rs[0]) && SendsRun(t, rs[0]);
      ApplyGrows(lens, rs[0]);
      assert RunPieces(t, rs[0]) + RunsPieces(t, rs[1..]) + rest
             == RunPieces(t, rs[0]) + (RunsPieces(t, rs[1..]) + rest);
      hide FitsField, SendsRun, Listed, Apply, RunPieces;
      ExpandGrows(Apply(lens, rs[0]), rs[1..]);
    }
  }

  /** No length comes before the first. */
  lemma FirstIsNoRepeat(lens: seq<nat>)
    requires lens != [] && lens[0] < 16
    ensures Runs(lens) != [] && Runs(lens)[0].sym != 16
  {
    var n := Stretch(lens, 0, MaxCount(lens[0], -1));
    assert Runs(lens) == GroupOf(lens[0], -1, n) + RunsFrom(lens, n, lens[0]);
    if n < MinCount(lens[0], -1) {
      assert Plain(lens[0], n)[0] == Run(lens[0], 0);
    }
    hide RunsFrom, Stretch;
  }

  /** The trees that `send_all_trees` sends: literal lengths ll, distance lengths dl, n of the code length code's. */
  ghost predicate Describes(bl: CodeTree, n: nat, ll: seq<nat>, dl: seq<nat>) {
    && 257 <= |ll| <= 286 && 1 <= |dl| <= 30 && 4 <= n <= 19 <= |bl.len|
    && (forall k :: 0 <= k < |ll| ==> ll[k] < 16) && (forall k :: 0 <= k < |dl| ==> dl[k] < 16)
    && (forall i :: n <= i < 19 ==> ORDER[i] < 19 && bl.len[ORDER[i]] == 0)
    && Usable(Codes, bl.len[..19]) && Encodes(bl, bl.len[..19])
    && SendsRuns(bl, Runs(ll)) && SendsRuns(bl, Runs(dl))
    && AllListed(bl.len[..19], Runs(ll)) && AllListed(bl.len[..19], Runs(dl))
  }

  function TreesPieces(bl: CodeTree, n: nat, ll: seq<nat>, dl: seq<nat>): seq<Piece>
    requires Describes(bl, n, ll, dl)
  {
    SizePieces(|ll|, |dl|, n) + (BlPieces(bl.len, n) + (RunsPieces(bl, Runs(ll)) + RunsPieces(bl, Runs(dl))))
  }

  lemma DescribesParts(bl: CodeTree, n: nat, ll: seq<nat>, dl: seq<nat>, rest: seq<Piece>)
    requires Describes(bl, n, ll, dl)
    ensures 257 <= |ll| <= 286 && 1 <= |dl| <= 30 && 4 <= n <= 19 <= |bl.len|
    ensures (forall k :: 0 <= k < |ll| ==> ll[k] < 16) && (forall k :: 0 <= k < |dl| ==> dl[k] < 16) && ll[0] < 16
    ensures forall i :: n <= i < 19 ==> |ORDER| == 19 && ORDER[i] < 19 && bl.len[ORDER[i]] == 0
    ensures Usable(Codes, bl.len[..19]) && Encodes(bl, bl.len[..19]) && Acceptable(Codes, Cnt(bl.len[..19]))
    ensures SendsRuns(bl, Runs(ll)) && SendsRuns(bl, Runs(dl))
    ensures AllListed(bl.len[..19], Runs(ll)) && AllListed(bl.len[..19], Runs(dl))
    ensures TreesPieces(bl, n, ll, dl) + rest
         == SizePieces(|ll|, |dl|, n) + (BlPieces(bl.len, n)
                                         + (RunsPieces(bl, Runs(ll)) + (RunsPieces(bl, Runs(dl)) + rest)))
  {
    hide Encodes, SendsRuns, AllListed, Acceptable, Cnt, RunsPieces, BlPieces, SizePieces, Runs;
    var a, b, c, d := SizePieces(|ll|, |dl|, n), BlPieces(bl.len, n), RunsPieces(bl, Runs(ll)),
                      RunsPieces(bl, Runs(dl));
    assert a + (b + (c + d)) + rest == a + (b + (c + (d + rest)));
  }

  lemma LensStep(x: int, n: int, c: Config, ll: seq<nat>, dl: seq<nat>, code: seq<int>)
    requires x >= 0 && n >= 0 && c.st == CodeLens(|ll|, |dl|, code, ll + dl)
    requires Acceptable(Lens, Cnt(ll)) && Acceptable(Dists, Cnt(dl))
    ensures StepAt(x, n, c) == Move(0, c.(st := Len(Pair(ll, dl))))
  {
    assert (ll + dl)[..|ll|] == ll && (ll + dl)[|ll|..] == dl;
    hide Acceptable, Cnt;
  }

  /** The trees of a dynamic block are read back: the decoder works with the lengths that were sent. */
  lemma ReadTrees(inp: seq<Byte>, m: Machine, bl: CodeTree, n: nat, ll: seq<nat>, dl: seq<nat>, rest: seq<Piece>)
      returns (m': Machine)
    requires m.c.st == Table && Describes(bl, n, ll, dl) && Acceptable(Lens, Cnt(ll)) && Acceptable(Dists, Cnt(dl))
    requires At(inp, m, TreesPieces(bl, n, ll, dl) + rest)
    ensures At(inp, m', rest) && m'.c == m.c.(st := Len(Pair(ll, dl)))
  {
    hide *;
    DescribesParts(bl, n, ll, dl, rest);
    var code := bl.len[..19];
    var a, b, c, d := SizePieces(|ll|, |dl|, n), BlPieces(bl.len, n), RunsPieces(bl, Runs(ll)),
                      RunsPieces(bl, Runs(dl));
    ReadSizes(inp, m, |ll|, |dl|, n, b + (c + (d + rest)));
    var m1 := Machine(m.c.(st := LenLens(|ll|, |dl|, n, [])), m.pos + 14);
    var m2 := ReadBlAll(inp, m1, |ll|, |dl|, n, bl.len, c + (d + rest));
    RunsRoundTrip([], ll);
    FirstIsNoRepeat(ll);
    var m3 := ReadRuns(inp, m2, code, Runs(ll), bl, d + rest);
    RunsRoundTrip(ll, dl);
    assert [] + ll == ll;
    var m4 := ReadRuns(inp, m3, code, Runs(dl), bl, rest);
    var c' := m.c.(st := Len(Pair(ll, dl)));
    AtParts(inp, m4, rest);
    LensStep(Rest(inp, m4), Left(inp, m4), m4.c, ll, dl, code);
    Advance0(inp, m4, rest, c');
    m' := Machine(c', m4.pos);
  }
}
