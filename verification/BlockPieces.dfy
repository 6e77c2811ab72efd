/**
 What `compress_block` and `send_tree` send, piece by piece, and that it takes exactly
 the bits that the frequencies tallied and the code lengths come to.
 */
module BlockPieces {
  import opened Arith
  import opened InflateSpec
  import opened Lz77
  import opened HuffmanLengths
  import opened BuildTree
  import opened BitWriter
  import opened RunLengths
  import opened TokenCodes

  /** A tree as the sending functions see it: codes, first bit lowest, and their lengths. */
  datatype CodeTree = CodeTree(code: seq<int>, len: seq<int>)

  /** _length_code[] and _dist_code[] */
  datatype Maps = Maps(length: seq<int>, dist: seq<int>)

  ghost predicate GoodMaps(m: Maps) {
    LengthsUpTo(m.length, 256) && m.length[255] == 28 && DistsUpTo(m.dist, 0, 256) && DistsUpTo(m.dist, 258, 512)
  }

  /** Symbol s has a code. */
  ghost predicate Sends(t: CodeTree, s: int) {
    0 <= s < |t.code| && s < |t.len| && 1 <= t.len[s] <= 15 && 0 <= t.code[s] < Pow2(t.len[s])
  }

  function CodePiece(t: CodeTree, s: int): Piece
    requires Sends(t, s)
  {
    Piece(t.code[s], t.len[s])
  }

  /** Extra bits, if there are any. */
  function Extra(value: int, k: nat): seq<Piece> {
    if k == 0 then [] else [Piece(value, k)]
  }

  // ----- tokens

  ghost predicate Proper(t: Token) {
    t.Literal? || (3 <= t.len <= 258 && 1 <= t.dist <= 32768)
  }

  ghost predicate AllProper(ts: seq<Token>) {
    forall t :: t in ts ==> Proper(t)
  }

  function LengthCode(m: Maps, len: int): (c: int)
    requires GoodMaps(m) && 3 <= len <= 258
    ensures ExpressesLength(c, len - 3)
  {
    m.length[len - 3]
  }

  function DistCode(m: Maps, dist: int): (c: int)
    requires GoodMaps(m) && 1 <= dist <= 32768
    ensures ExpressesDist(c, dist - 1)
  {
    DistEntryUse(m.dist[DistIndex(dist - 1)], dist - 1);
    m.dist[DistIndex(dist - 1)]
  }

  /** The literal or length symbol of a token. */
  function LitSym(m: Maps, t: Token): (s: int)
    requires GoodMaps(m) && Proper(t)
    ensures 0 <= s < 286 && s != 256
  {
    if t.Literal? then t.byte else 257 + LengthCode(m, t.len)
  }

  /** The trees have codes for what the token needs. */
  ghost predicate Sendable(m: Maps, t: Token, lit: CodeTree, dist: CodeTree) {
    GoodMaps(m) && Proper(t) && Sends(lit, LitSym(m, t)) && (t.Pair2? ==> Sends(dist, DistCode(m, t.dist)))
  }

  function TokenPieces(m: Maps, t: Token, lit: CodeTree, dist: CodeTree): seq<Piece>
    requires Sendable(m, t, lit, dist)
  {
    if t.Literal? then [CodePiece(lit, t.byte)]
    else
      var c, d := LengthCode(m, t.len), DistCode(m, t.dist);
      [CodePiece(lit, 257 + c)] + Extra(t.len - LengthBase(c), LengthExtra(c))
      + ([CodePiece(dist, d)] + Extra(t.dist - DistanceBase(d), DistanceExtra(d)))
  }

  ghost predicate AllSendable(m: Maps, ts: seq<Token>, lit: CodeTree, dist: CodeTree) {
    forall i :: 0 <= i < |ts| ==> Sendable(m, ts[i], lit, dist)
  }

  function TokensPieces(m: Maps, ts: seq<Token>, lit: CodeTree, dist: CodeTree): seq<Piece>
    requires AllSendable(m, ts, lit, dist)
  {
    if ts == [] then [] else TokenPieces(m, ts[0], lit, dist) + TokensPieces(m, ts[1..], lit, dist)
  }

  lemma {:induction false} TokensSnoc(m: Maps, ts: seq<Token>, t: Token, lit: CodeTree, dist: CodeTree)
    requires AllSendable(m, ts, lit, dist) && Sendable(m, t, lit, dist)
    ensures AllSendable(m, ts + [t], lit, dist)
    ensures TokensPieces(m, ts + [t], lit, dist) == TokensPieces(m, ts, lit, dist) + TokenPieces(m, t, lit, dist)
  {
    hide TokenPieces, Sendable;
    if ts == [] {
      assert [t][1..] == [] && ts + [t] == [t];
    } else {
      TokensSnoc(m, ts[1..], t, lit, dist);
      assert (ts + [t])[1..] == ts[1..] + [t];
    }
  }

  // ----- frequencies

  /** Occurrences of a literal or length symbol, the end of block counted in. */
  function LitCount(m: Maps, ts: seq<Token>, s: int): int
    requires GoodMaps(m) && AllProper(ts)
  {
    if ts == [] then if s == 256 then 1 else 0
    else LitCount(m, ts[..|ts| - 1], s) + (if LitSym(m, ts[|ts| - 1]) == s then 1 else 0)
  }

  function DistCount(m: Maps, ts: seq<Token>, s: int): int
    requires GoodMaps(m) && AllProper(ts)
  {
    if ts == [] then 0
    else
      var t := ts[|ts| - 1];
      assert Proper(t);
      DistCount(m, ts[..|ts| - 1], s) + (if t.Pair2? && DistCode(m, t.dist) == s then 1 else 0)
  }

  /** The frequencies are those of the tokens. */
  ghost predicate Frequencies(m: Maps, ts: seq<Token>, fl: seq<int>, fd: seq<int>) {
    && GoodMaps(m) && AllProper(ts) && |fl| >= 286 && |fd| >= 30
    && (forall s :: 0 <= s < 286 ==> fl[s] == LitCount(m, ts, s))
    && (forall s :: 0 <= s < 30 ==> fd[s] == DistCount(m, ts, s))
  }

  /** The bits of symbol s: its code and its extra bits. */
  function BitsOf(len: seq<int>, extra: seq<int>, base: int, s: int): int
    requires 0 <= s < |len|
  {
    len[s] + XBits(extra, base, s)
  }

  /** One more occurrence of a symbol takes its bits more. */
  lemma {:induction false} TreeBitsBump(f: seq<int>, g: seq<int>, len: seq<int>, extra: seq<int>, base: int, n: nat,
                                        s: int)
    requires n <= |f| && n <= |g| && n <= |len| && 0 <= s < |len|
    requires forall i :: 0 <= i < n ==> g[i] == f[i] + (if i == s then 1 else 0)
    ensures TreeBits(g, len, extra, base, n)
            == TreeBits(f, len, extra, base, n) + (if s < n then BitsOf(len, extra, base, s) else 0)
  {
    if n > 0 {
      TreeBitsBump(f, g, len, extra, base, n - 1, s);
      BumpBits(f[n - 1], len[n - 1], XBits(extra, base, n - 1));
    }
  }

  lemma BumpBits(f: int, l: int, x: int)
    ensures SymbolBits(f + 1, l, x) == SymbolBits(f, l, x) + l + x
  {
  }

  lemma {:induction false} TreeBitsSame(f: seq<int>, g: seq<int>, len: seq<int>, len': seq<int>, extra: seq<int>,
                                        base: int, n: nat)
    requires n <= |f| && n <= |g| && n <= |len| && n <= |len'|
    requires forall i :: 0 <= i < n ==> g[i] == f[i] && (f[i] != 0 ==> len'[i] == len[i])
    ensures TreeBits(g, len', extra, base, n) == TreeBits(f, len, extra, base, n)
  {
    if n > 0 {
      TreeBitsSame(f, g, len, len', extra, base, n - 1);
      if f[n - 1] == 0 {
        ZeroBits(len[n - 1], XBits(extra, base, n - 1));
        ZeroBits(len'[n - 1], XBits(extra, base, n - 1));
      }
    }
  }

  /** Frequencies as a function of the symbol. */
  ghost function LitFreq(m: Maps, ts: seq<Token>): (f: seq<int>)
    requires GoodMaps(m) && AllProper(ts)
    ensures |f| == 286 && forall s :: 0 <= s < 286 ==> f[s] == LitCount(m, ts, s)
  {
    seq(286, s requires 0 <= s < 286 => LitCount(m, ts, s))
  }

  ghost function DistFreq(m: Maps, ts: seq<Token>): (f: seq<int>)
    requires GoodMaps(m) && AllProper(ts)
    ensures |f| == 30 && forall s :: 0 <= s < 30 ==> f[s] == DistCount(m, ts, s)
  {
    seq(30, s requires 0 <= s < 30 => DistCount(m, ts, s))
  }

  /** extra_lbits[] and extra_dbits[] */
  function LitExtra(): (x: seq<int>)
    ensures |x| == 29 && forall i :: 0 <= i < 29 ==> x[i] == LengthExtra(i)
  {
    seq(29, i requires 0 <= i < 29 => LengthExtra(i))
  }

  function DistExtra(): (x: seq<int>)
    ensures |x| == 30 && forall i :: 0 <= i < 30 ==> x[i] == DistanceExtra(i)
  {
    seq(30, i requires 0 <= i < 30 => DistanceExtra(i))
  }

  lemma ExtraWidth(v: int, k: nat)
    ensures Width(Extra(v, k)) == k
  {
    if k > 0 {
      WidthOne(Piece(v, k));
    }
  }

  lemma WidthOne(p: Piece)
    ensures Width([p]) == p.len
  {
    assert [p][1..] == [];
  }

  lemma LitBits(len: seq<int>, s: int)
    requires 0 <= s < 286 <= |len|
    ensures BitsOf(len, LitExtra(), 257, s) == len[s] + (if s < 257 then 0 else LengthExtra(s - 257))
  {
    hide LengthExtra;
  }

  lemma DistBits(len: seq<int>, s: int)
    requires 0 <= s < 30 <= |len|
    ensures BitsOf(len, DistExtra(), 0, s) == len[s] + DistanceExtra(s)
  {
    hide DistanceExtra;
  }

  /** The width of one token. */
  lemma TokenWidth(m: Maps, t: Token, lit: CodeTree, dist: CodeTree)
    requires Sendable(m, t, lit, dist) && |lit.len| >= 286 && |dist.len| >= 30
    ensures Width(TokenPieces(m, t, lit, dist)) == BitsOf(lit.len, LitExtra(), 257, LitSym(m, t))
              + (if t.Pair2? then BitsOf(dist.len, DistExtra(), 0, DistCode(m, t.dist)) else 0)
  {
    hide *;
    LitSymIs(m, t, lit, dist);
    LitBits(lit.len, LitSym(m, t));
    if t.Literal? {
      WidthOne(CodePiece(lit, t.byte));
    } else {
      var c, d := LengthCode(m, t.len), DistCode(m, t.dist);
      var p, q := CodePiece(lit, 257 + c), CodePiece(dist, d);
      var x, y := Extra(t.len - LengthBase(c), LengthExtra(c)), Extra(t.dist - DistanceBase(d), DistanceExtra(d));
      DistBits(dist.len, d);
      WidthAppend([p] + x, [q] + y);
      WidthAppend([p], x);
      WidthAppend([q], y);
      WidthOne(p);
      WidthOne(q);
      ExtraWidth(t.len - LengthBase(c), LengthExtra(c));
      ExtraWidth(t.dist - DistanceBase(d), DistanceExtra(d));
    }
  }

  /** The pieces of a token, spelled out. */
  lemma LitSymIs(m: Maps, t: Token, lit: CodeTree, dist: CodeTree)
    requires Sendable(m, t, lit, dist)
    ensures GoodMaps(m) && Proper(t) && 0 <= LitSym(m, t) < 286
    ensures t.Literal? ==> LitSym(m, t) == t.byte && Sends(lit, t.byte) && CodePiece(lit, t.byte).len == lit.len[t.byte]
    ensures t.Literal? ==> TokenPieces(m, t, lit, dist) == [CodePiece(lit, t.byte)]
    ensures t.Pair2? ==> 3 <= t.len <= 258 && 1 <= t.dist <= 32768
    ensures t.Pair2? ==>
              (var c, d := LengthCode(m, t.len), DistCode(m, t.dist);
               && LitSym(m, t) == 257 + c && 0 <= c < 29 && 0 <= d < 30 && Sends(lit, 257 + c) && Sends(dist, d)
               && CodePiece(lit, 257 + c).len == lit.len[257 + c] && CodePiece(dist, d).len == dist.len[d]
               && TokenPieces(m, t, lit, dist)
               == [CodePiece(lit, 257 + c)] + Extra(t.len - LengthBase(c), LengthExtra(c))
                                                  + ([CodePiece(dist, d)] + Extra(t.dist - DistanceBase(d),
                                                                                  DistanceExtra(d))))
  {
    hide LengthBase, LengthExtra, DistanceBase, DistanceExtra, Pow2, LengthsUpTo, DistsUpTo;
  }

  /** What the tokens take is what their frequencies and the code lengths come to. */
  lemma {:induction false} TokensWidth(m: Maps, ts: seq<Token>, lit: CodeTree, dist: CodeTree)
    requires GoodMaps(m) && AllProper(ts) && AllSendable(m, ts, lit, dist) && |lit.len| >= 286 && |dist.len| >= 30
    ensures Width(TokensPieces(m, ts, lit, dist)) + lit.len[256]
         == TreeBits(LitFreq(m, ts), lit.len, LitExtra(), 257, 286)
         + TreeBits(DistFreq(m, ts), dist.len, DistExtra(), 0, 30)
    decreases |ts|
  {
    if ts == [] {
      EmptyBlock(m, lit, dist);
      return;
    }
    hide *;
    var us, t := ts[..|ts| - 1], ts[|ts| - 1];
    assert ts == us + [t];
    LastOf(m, us, t, lit, dist);
    TokensWidth(m, us, lit, dist);
    TokensSnoc(m, us, t, lit, dist);
    WidthAppend(TokensPieces(m, us, lit, dist), TokenPieces(m, t, lit, dist));
    TokenWidth(m, t, lit, dist);
    LitBitsMore(m, us, t, lit.len);
    DistBitsMore(m, us, t, dist.len);
  }

  lemma LastOf(m: Maps, us: seq<Token>, t: Token, lit: CodeTree, dist: CodeTree)
    requires AllProper(us + [t]) && AllSendable(m, us + [t], lit, dist)
    ensures AllProper(us) && Proper(t) && AllSendable(m, us, lit, dist) && Sendable(m, t, lit, dist)
  {
    hide Proper, Sendable;
    var ts := us + [t];
    assert ts[|us|] == t;
    forall i | 0 <= i < |us| ensures us[i] == ts[i] {
    }
  }

  lemma LitBitsMore(m: Maps, us: seq<Token>, t: Token, len: seq<int>)
    requires GoodMaps(m) && AllProper(us) && AllProper(us + [t]) && Proper(t) && |len| >= 286
    ensures TreeBits(LitFreq(m, us + [t]), len, LitExtra(), 257, 286)
         == TreeBits(LitFreq(m, us), len, LitExtra(), 257, 286) + BitsOf(len, LitExtra(), 257, LitSym(m, t))
  {
    hide GoodMaps, AllProper, TreeBits, BitsOf, LitSym, LitFreq, LitExtra;
    assert (us + [t])[..|us|] == us;
    TreeBitsBump(LitFreq(m, us), LitFreq(m, us + [t]), len, LitExtra(), 257, 286, LitSym(m, t));
  }

  lemma DistBitsMore(m: Maps, us: seq<Token>, t: Token, len: seq<int>)
    requires GoodMaps(m) && AllProper(us) && AllProper(us + [t]) && Proper(t) && |len| >= 30
    ensures TreeBits(DistFreq(m, us + [t]), len, DistExtra(), 0, 30)
         == TreeBits(DistFreq(m, us), len, DistExtra(), 0, 30)
            + (if t.Pair2? then BitsOf(len, DistExtra(), 0, DistCode(m, t.dist)) else 0)
  {
    hide GoodMaps, AllProper, TreeBits, BitsOf, DistCode, DistFreq, DistExtra;
    assert (us + [t])[..|us|] == us;
    if t.Pair2? {
      TreeBitsBump(DistFreq(m, us), DistFreq(m, us + [t]), len, DistExtra(), 0, 30, DistCode(m, t.dist));
    } else {
      TreeBitsSame(DistFreq(m, us), DistFreq(m, us + [t]), len, len, DistExtra(), 0, 30);
    }
  }

  lemma {:induction false} NoBits(f: seq<int>, len: seq<int>, extra: seq<int>, base: int, n: nat)
    requires n <= |f| && n <= |len| && forall i :: 0 <= i < n ==> f[i] == 0
    ensures TreeBits(f, len, extra, base, n) == 0
  {
    if n > 0 {
      NoBits(f, len, extra, base, n - 1);
      ZeroBits(len[n - 1], XBits(extra, base, n - 1));
    }
  }

  lemma EmptyBlock(m: Maps, lit: CodeTree, dist: CodeTree)
    requires GoodMaps(m) && |lit.len| >= 286 && |dist.len| >= 30
    ensures TreeBits(LitFreq(m, []), lit.len, LitExtra(), 257, 286) == lit.len[256]
    ensures TreeBits(DistFreq(m, []), dist.len, DistExtra(), 0, 30) == 0
  {
    var f := seq(286, i => 0);
    NoBits(f, lit.len, LitExtra(), 257, 286);
    NoBits(DistFreq(m, []), dist.len, DistExtra(), 0, 30);
    TreeBitsBump(f, LitFreq(m, []), lit.len, LitExtra(), 257, 286, 256);
    LitBits(lit.len, 256);
    hide TreeBits, XBits, BitsOf, LengthExtra, DistanceExtra;
  }

  // ----- the header of a dynamic block

  /** The extra bits of the code length symbols, extra_blbits[]. */
  function RunExtra(): (x: seq<int>)
    ensures |x| == 19 && forall s :: 0 <= s < 19 ==> x[s] == if s < 16 then 0 else RunBits(s)
  {
    seq(19, s requires 0 <= s < 19 => if s < 16 then 0 else RunBits(s))
  }

  ghost predicate SendsRun(t: CodeTree, r: Run) {
    Sends(t, r.sym) && FitsField(r)
  }

  function RunPieces(t: CodeTree, r: Run): seq<Piece>
    requires SendsRun(t, r)
  {
    [CodePiece(t, r.sym)] + (if r.sym < 16 then [] else [Piece(r.extra, RunBits(r.sym))])
  }

  ghost predicate SendsRuns(t: CodeTree, rs: seq<Run>) {
    forall i :: 0 <= i < |rs| ==> SendsRun(t, rs[i])
  }

  function RunsPieces(t: CodeTree, rs: seq<Run>): seq<Piece>
    requires SendsRuns(t, rs)
  {
    if rs == [] then [] else RunPieces(t, rs[0]) + RunsPieces(t, rs[1..])
  }

  lemma {:induction false} RunsPiecesAppend(t: CodeTree, rs: seq<Run>, ss: seq<Run>)
    requires SendsRuns(t, rs) && SendsRuns(t, ss)
    ensures SendsRuns(t, rs + ss) && RunsPieces(t, rs + ss) == RunsPieces(t, rs) + RunsPieces(t, ss)
    decreases |rs|
  {
    hide RunPieces, SendsRun;
    if rs == [] {
      assert rs + ss == ss;
    } else {
      assert (rs + ss)[1..] == rs[1..] + ss;
      RunsPiecesAppend(t, rs[1..], ss);
    }
  }

  /** The lengths of the code length codes, in the order of the format. */
  function BlPieces(len: seq<int>, n: nat): (ps: seq<Piece>)
    requires n <= 19 && |len| >= 19
    ensures |ps| == n
  {
    if n == 0 then [] else BlPieces(len, n - 1) + [Piece(len[ORDER[n - 1]], 3)]
  }

  function SizePieces(lcodes: int, dcodes: int, blcodes: int): seq<Piece> {
    [Piece(lcodes - 257, 5), Piece(dcodes - 1, 5), Piece(blcodes - 4, 4)]
  }

  lemma {:induction false} BlWidth(len: seq<int>, n: nat)
    requires n <= 19 && |len| >= 19
    ensures Width(BlPieces(len, n)) == 3 * n
  {
    if n > 0 {
      BlWidth(len, n - 1);
      WidthAppend(BlPieces(len, n - 1), [Piece(len[ORDER[n - 1]], 3)]);
      WidthOne(Piece(len[ORDER[n - 1]], 3));
    }
  }

  lemma SizeWidth(lcodes: int, dcodes: int, blcodes: int)
    ensures Width(SizePieces(lcodes, dcodes, blcodes)) == 5 + 5 + 4
  {
    var p, q, r := Piece(lcodes - 257, 5), Piece(dcodes - 1, 5), Piece(blcodes - 4, 4);
    assert SizePieces(lcodes, dcodes, blcodes) == [p] + ([q] + [r]);
    hide Width;
    WidthAppend([p], [q] + [r]);
    WidthAppend([q], [r]);
    WidthOne(p);
    WidthOne(q);
    WidthOne(r);
  }

  ghost function RunFreq(rs: seq<Run>): (f: seq<int>)
    ensures |f| == 19 && forall s :: 0 <= s < 19 ==> f[s] == SymCount(rs, s)
  {
    seq(19, s requires 0 <= s < 19 => SymCount(rs, s))
  }

  lemma RunWidth(t: CodeTree, r: Run)
    requires SendsRun(t, r) && |t.len| >= 19
    ensures 0 <= r.sym < 19 && Width(RunPieces(t, r)) == BitsOf(t.len, RunExtra(), 0, r.sym)
  {
    WidthOne(CodePiece(t, r.sym));
    if r.sym >= 16 {
      WidthOne(Piece(r.extra, RunBits(r.sym)));
      WidthAppend([CodePiece(t, r.sym)], [Piece(r.extra, RunBits(r.sym))]);
    } else {
      assert [CodePiece(t, r.sym)] + [] == [CodePiece(t, r.sym)];
    }
    hide Width, RunBits, Pow2;
  }

  /** What the code length symbols take is what their frequencies and code lengths come to. */
  lemma {:induction false} RunsWidth(t: CodeTree, rs: seq<Run>)
    requires SendsRuns(t, rs) && |t.len| >= 19
    ensures Width(RunsPieces(t, rs)) == TreeBits(RunFreq(rs), t.len, RunExtra(), 0, 19)
    decreases |rs|
  {
    if rs == [] {
      NoBits(RunFreq(rs), t.len, RunExtra(), 0, 19);
      return;
    }
    var us, r := rs[..|rs| - 1], rs[|rs| - 1];
    assert rs == us + [r] && SendsRun(t, rs[|rs| - 1]);
    RunsWidth(t, us);
    RunsPiecesAppend(t, us, [r]);
    RunsOne(t, r);
    RunWidth(t, r);
    hide RunsPieces, RunPieces, SendsRun, RunBits, XBits, TreeBits, BitsOf, Width, RunExtra;
    WidthAppend(RunsPieces(t, us), RunPieces(t, r));
    TreeBitsBump(RunFreq(us), RunFreq(rs), t.len, RunExtra(), 0, 19, r.sym);
  }

  lemma RunsOne(t: CodeTree, r: Run)
    requires SendsRun(t, r)
    ensures SendsRuns(t, [r]) && RunsPieces(t, [r]) == RunPieces(t, r)
  {
    assert [r][1..] == [] && RunPieces(t, r) + [] == RunPieces(t, r);
  }
}
