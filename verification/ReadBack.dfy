/**
 Inflating reads back what was sent: the symbols, the tokens of a block, and the
 code lengths of a dynamic block's header.
 */
module ReadBack {
  import opened Arith
  import opened Canonical
  import opened BitOrder
  import opened DecodeTable
  import opened SymbolSort
  import opened InflateSpec
  import opened InflateRuns
  import opened Lz77
  import opened BitWriter
  import opened BlockPieces

  /** The decoder has come to m, and what lies ahead is the pieces, to the end of the input. */
  ghost predicate At(inp: seq<Byte>, m: Machine, ps: seq<Piece>) {
    && Reaches(inp, m) && m.pos + Width(ps) == 8 * |inp|
    && Carries(Shr(Value(inp), m.pos), 8 * |inp| - m.pos, ps)
  }

  function Rest(inp: seq<Byte>, m: Machine): (x: int)
    ensures x >= 0
  {
    Shr(Value(inp), m.pos)
  }

  function Left(inp: seq<Byte>, m: Machine): int {
    8 * |inp| - m.pos
  }

  lemma AtParts(inp: seq<Byte>, m: Machine, ps: seq<Piece>)
    requires At(inp, m, ps)
    ensures Left(inp, m) == Width(ps) >= 0 && Carries(Rest(inp, m), Left(inp, m), ps) && Reaches(inp, m)
  {
    hide Reaches, Carries, Width;
  }

  /** A step that reads off some pieces. */
  lemma Advance(inp: seq<Byte>, m: Machine, ps: seq<Piece>, rest: seq<Piece>, c: Config)
    requires At(inp, m, ps + rest) && Left(inp, m) >= 0 && StepAt(Rest(inp, m), Left(inp, m), m.c) == Move(Width(ps), c)
    ensures At(inp, Machine(c, m.pos + Width(ps)), rest)
  {
    hide StepAt, Reaches, Value, Carries, Width;
    var m' := Machine(c, m.pos + Width(ps));
    assert Next(inp, m) == Some(m');
    NextReached(inp, m, m');
    ShrAdd(Value(inp), m.pos, Width(ps));
    CarriesMore(Rest(inp, m), Left(inp, m), ps, rest);
    CarriesWidth(Rest(inp, m), Left(inp, m), ps);
    WidthAppend(ps, rest);
  }

  lemma CarriesWidth(x: int, n: int, ps: seq<Piece>)
    requires Carries(x, n, ps)
    ensures Width(ps) <= n && x >= 0
  {
  }

  /** A step that reads nothing. */
  lemma Advance0(inp: seq<Byte>, m: Machine, rest: seq<Piece>, c: Config)
    requires At(inp, m, rest) && Left(inp, m) >= 0 && StepAt(Rest(inp, m), Left(inp, m), m.c) == Move(0, c)
    ensures At(inp, Machine(c, m.pos), rest)
  {
    hide StepAt, At;
    assert [] + rest == rest;
    Advance(inp, m, [], rest, c);
  }

  /** The value of one piece ahead. */
  lemma HeadPiece(x: int, n: int, p: Piece, rest: seq<Piece>)
    requires Carries(x, n, [p] + rest)
    ensures x >= 0 && 0 <= p.len <= n && Low(x, p.len) == p.value && Carries(Shr(x, p.len), n - p.len, rest)
    ensures Width([p]) == p.len
  {
    hide Low, Shr;
    CarriesHead(x, n, p, rest);
    WidthOne(p);
  }

  /** Extra bits ahead; none have the value zero. */
  lemma HeadExtra(x: int, n: int, v: int, k: nat, rest: seq<Piece>)
    requires Carries(x, n, Extra(v, k) + rest) && 0 <= v < Pow2(k)
    ensures x >= 0 && k <= n && Low(x, k) == v && Width(Extra(v, k)) == k
  {
    ExtraWidth(v, k);
    if k == 0 {
      LowZero(x);
      hide Low;
    } else {
      HeadPiece(x, n, Piece(v, k), rest);
    }
  }

  // ----- symbols

  /** The tree holds the canonical codes of the lengths. */
  ghost predicate Encodes(t: CodeTree, lens: seq<int>) {
    forall s: nat :: s < |lens| && s < |t.code| && s < |t.len| && lens[s] != 0 ==> HasCode(t, lens, s)
  }

  ghost predicate HasCode(t: CodeTree, lens: seq<int>, s: nat)
    requires s < |lens|
  {
    && s < |t.code| && s < |t.len| && t.len[s] == lens[s] && 1 <= lens[s] <= MAXBITS
    && Code(lens, Cnt(lens), s) >= 0 && t.code[s] == Rev(Code(lens, Cnt(lens), s), lens[s])
  }

  /** A symbol's code ahead is decoded as the symbol. */
  lemma SymbolRead(kind: CodeType, lens: seq<int>, t: CodeTree, s: nat, x: int, n: nat, rest: seq<Piece>)
    requires Usable(kind, lens) && Encodes(t, lens) && s < |lens| && lens[s] != 0 && Sends(t, s)
    requires Carries(x, n, [CodePiece(t, s)] + rest)
    ensures x >= 0 && SymbolAt(lens, x, n) == Found(s) && Width([CodePiece(t, s)]) == lens[s] && 1 <= lens[s] <= n
  {
    hide Carries, Usable, Rev, Low, SymbolAt, Pow2;
    var p := CodePiece(t, s);
    HeadPiece(x, n, p, rest);
    assert HasCode(t, lens, s);
    CodeFits(kind, lens, s);
    LowRev(x, lens[s], Code(lens, Cnt(lens), s));
    assert Complete(lens, x, n, s);
    SymbolFound(kind, lens, x, n, s);
  }

  lemma CodeFits(kind: CodeType, lens: seq<int>, s: nat)
    requires Usable(kind, lens) && s < |lens| && 1 <= lens[s] <= MAXBITS
    ensures |Cnt(lens)| == MAXBITS + 1 && 0 <= Code(lens, Cnt(lens), s) < Pow2(lens[s])
  {
    UsableFits(kind, lens);
    CodeBounds(lens, Cnt(lens), s);
  }

  // ----- the tokens of a block

  /** The trees are the codes of the pair, and can be decoded. */
  ghost predicate Paired(lit: CodeTree, dist: CodeTree, c: Pair) {
    UsablePair(c) && Encodes(lit, c.lit) && Encodes(dist, c.dist)
  }

  /** A symbol of the pair that can be sent has a length there. */
  ghost predicate Listed(lens: seq<int>, s: int) {
    0 <= s < |lens| && lens[s] != 0
  }

  lemma PairedParts(lit: CodeTree, dist: CodeTree, c: Pair)
    requires Paired(lit, dist, c)
    ensures Usable(Lens, c.lit) && Usable(Dists, c.dist) && Encodes(lit, c.lit) && Encodes(dist, c.dist)
  {
    hide Usable, Encodes;
  }

  lemma LenStep(x: int, n: int, c: Config, d: Pair, s: nat)
    requires x >= 0 && n >= 0 && c.st == Len(d) && s < |d.lit| && SymbolAt(d.lit, x, n) == Found(s) && d.lit[s] >= 0
    ensures StepAt(x, n, c) == Move(d.lit[s], c.(st := AfterLen(d, s)))
  {
    hide SymbolAt, AfterLen;
  }

  lemma DistStep(x: int, n: int, c: Config, d: Pair, length: nat, s: nat)
    requires x >= 0 && n >= 0 && c.st == Dist(d, length) && s < |d.dist| && SymbolAt(d.dist, x, n) == Found(s)
             && d.dist[s] >= 0
    ensures StepAt(x, n, c) == Move(d.dist[s], c.(st := AfterDist(d, length, s)))
  {
    hide SymbolAt, AfterDist;
  }

  lemma LenExtStep(x: int, n: int, c: Config, d: Pair, base: nat, k: nat, v: int)
    requires x >= 0 && n >= k && c.st == LenExt(d, base, k) && Low(x, k) == v >= 0
    ensures StepAt(x, n, c) == Move(k, c.(st := Dist(d, base + v)))
  {
    hide Low;
  }

  lemma DistExtStep(x: int, n: int, c: Config, d: Pair, length: nat, base: nat, k: nat, v: int)
    requires x >= 0 && n >= k && c.st == DistExt(d, length, base, k) && Low(x, k) == v >= 0 && base + v <= |c.out|
    ensures StepAt(x, n, c) == Move(k, c.(st := Match(d, length, base + v)))
  {
    hide Low;
  }

  lemma MatchStep(x: int, n: int, c: Config, d: Pair, left: nat, dist: nat, out0: seq<Byte>, done: nat)
    requires x >= 0 && n >= 0 && left > 0 && 1 <= dist <= |out0| && c.st == Match(d, left, dist)
             && c.out == CopyBack(out0, done, dist)
    ensures StepAt(x, n, c) == Move(0,
                                    c.(st := if left == 1 then Len(d)
                                       else Match(d, left - 1, dist), out := CopyBack(out0, done + 1, dist)))
  {
    var s := CopyBack(out0, done, dist);
    assert CopyBack(out0, done + 1, dist) == s + [s[|s| - dist]];
    hide CopyBack;
  }

  lemma ReadLit(inp: seq<Byte>, m: Machine, c: Pair, s: nat, lit: CodeTree, dist: CodeTree, rest: seq<Piece>)
    requires m.c.st == Len(c) && Paired(lit, dist, c) && Listed(c.lit, s) && Sends(lit, s)
    requires At(inp, m, [CodePiece(lit, s)] + rest)
    ensures c.lit[s] >= 1 && At(inp, Machine(m.c.(st := AfterLen(c, s)), m.pos + c.lit[s]), rest)
  {
    hide *;
    PairedParts(lit, dist, c);
    ListedAt(c.lit, s);
    AtParts(inp, m, [CodePiece(lit, s)] + rest);
    SymbolRead(Lens, c.lit, lit, s, Rest(inp, m), Left(inp, m), rest);
    LenStep(Rest(inp, m), Left(inp, m), m.c, c, s);
    Advance(inp, m, [CodePiece(lit, s)], rest, m.c.(st := AfterLen(c, s)));
  }

  lemma ReadDist(inp: seq<Byte>, m: Machine, c: Pair, length: nat, s: nat, lit: CodeTree, dist: CodeTree,
                 rest: seq<Piece>)
    requires m.c.st == Dist(c, length) && Paired(lit, dist, c) && Listed(c.dist, s) && Sends(dist, s)
    requires At(inp, m, [CodePiece(dist, s)] + rest)
    ensures c.dist[s] >= 1 && At(inp, Machine(m.c.(st := AfterDist(c, length, s)), m.pos + c.dist[s]), rest)
  {
    hide *;
    PairedParts(lit, dist, c);
    ListedAt(c.dist, s);
    AtParts(inp, m, [CodePiece(dist, s)] + rest);
    SymbolRead(Dists, c.dist, dist, s, Rest(inp, m), Left(inp, m), rest);
    DistStep(Rest(inp, m), Left(inp, m), m.c, c, length, s);
    Advance(inp, m, [CodePiece(dist, s)], rest, m.c.(st := AfterDist(c, length, s)));
  }

  lemma ReadLenExt(inp: seq<Byte>, m: Machine, c: Pair, base: nat, k: nat, v: int, rest: seq<Piece>)
    requires m.c.st == LenExt(c, base, k) && 0 <= v < Pow2(k) && At(inp, m, Extra(v, k) + rest)
    ensures At(inp, Machine(m.c.(st := Dist(c, base + v)), m.pos + k), rest)
  {
    hide *;
    AtParts(inp, m, Extra(v, k) + rest);
    HeadExtra(Rest(inp, m), Left(inp, m), v, k, rest);
    LenExtStep(Rest(inp, m), Left(inp, m), m.c, c, base, k, v);
    Advance(inp, m, Extra(v, k), rest, m.c.(st := Dist(c, base + v)));
  }

  lemma ReadDistExt(inp: seq<Byte>, m: Machine, c: Pair, length: nat, base: nat, k: nat, v: int, rest: seq<Piece>)
    requires m.c.st == DistExt(c, length, base, k) && 0 <= v < Pow2(k) && At(inp, m, Extra(v, k) + rest)
    requires base + v <= |m.c.out|
    ensures At(inp, Machine(m.c.(st := Match(c, length, base + v)), m.pos + k), rest)
  {
    hide *;
    AtParts(inp, m, Extra(v, k) + rest);
    HeadExtra(Rest(inp, m), Left(inp, m), v, k, rest);
    DistExtStep(Rest(inp, m), Left(inp, m), m.c, c, length, base, k, v);
    Advance(inp, m, Extra(v, k), rest, m.c.(st := Match(c, length, base + v)));
  }

  /** The copying loop, byte by byte. */
  lemma {:induction false} ReadMatch(inp: seq<Byte>, m: Machine, c: Pair, length: nat, dist: nat, done: nat,
                                     out0: seq<Byte>, rest: seq<Piece>)
    requires done < length && 1 <= dist <= |out0| && m.c.st == Match(c, length - done, dist)
             && m.c.out == CopyBack(out0, done, dist)
    requires At(inp, m, rest)
    ensures At(inp, Machine(Config(Len(c), m.c.last, CopyBack(out0, length, dist)), m.pos), rest)
    decreases length - done
  {
    hide *;
    var c' := m.c.(st := if done + 1 == length then Len(c) else Match(c, length - done - 1, dist),
                   out := CopyBack(out0, done + 1, dist));
    AtParts(inp, m, rest);
    MatchStep(Rest(inp, m), Left(inp, m), m.c, c, length - done, dist, out0, done);
    Advance0(inp, m, rest, c');
    if done + 1 < length {
      ReadMatch(inp, Machine(c', m.pos), c, length, dist, done + 1, out0, rest);
    }
  }

  /** Everything that the token needs has a length in the pair. */
  ghost predicate Spelled(mp: Maps, t: Token, c: Pair)
    requires GoodMaps(mp) && Proper(t)
  {
    Listed(c.lit, LitSym(mp, t)) && (t.Pair2? ==> Listed(c.dist, DistCode(mp, t.dist)))
  }

  lemma ReadLiteral(inp: seq<Byte>, m: Machine, mp: Maps, c: Pair, t: Token, lit: CodeTree, dist: CodeTree,
                    rest: seq<Piece>)
    returns (m': Machine)
    requires m.c.st == Len(c) && Paired(lit, dist, c) && t.Literal? && Sendable(mp, t, lit, dist) && Spelled(mp, t, c)
    requires At(inp, m, TokenPieces(mp, t, lit, dist) + rest)
    ensures At(inp, m', rest) && m'.c == Config(Len(c), m.c.last, Put(m.c.out, t))
  {
    hide At, Paired, GoodMaps, Sends;
    LitSymIs(mp, t, lit, dist);
    ReadLit(inp, m, c, t.byte, lit, dist, rest);
    var m1 := Machine(m.c.(st := Lit(c, t.byte)), m.pos + c.lit[t.byte]);
    AtParts(inp, m1, rest);
    m' := Machine(Config(Len(c), m.c.last, m.c.out + [t.byte]), m1.pos);
    Advance0(inp, m1, rest, m'.c);
  }

  /** A pair's codes and extra bits, and the states between them. */
  lemma PairFacts(mp: Maps, c: Pair, t: Token, lit: CodeTree, dist: CodeTree, out: seq<Byte>)
    requires t.Pair2? && Sendable(mp, t, lit, dist) && Spelled(mp, t, c) && t.dist <= |out|
    ensures 3 <= t.len <= 258 && 1 <= t.dist <= 32768 && GoodMaps(mp)
    ensures Put(out, t) == CopyBack(out, t.len, t.dist) && CopyBack(out, 0, t.dist) == out
    ensures var k, d := LengthCode(mp, t.len), DistCode(mp, t.dist);
            && 0 <= k < 29 && 0 <= d < 30 && Sends(lit, 257 + k) && Sends(dist, d) && Listed(c.lit, 257 + k)
            && Listed(c.dist, d)
            && 0 <= t.len - LengthBase(k) < Pow2(LengthExtra(k))
            && 0 <= t.dist - DistanceBase(d) < Pow2(DistanceExtra(d))
            && AfterLen(c, 257 + k) == LenExt(c, LengthBase(k), LengthExtra(k))
            && AfterDist(c, t.len, d) == DistExt(c, t.len, DistanceBase(d), DistanceExtra(d))
            && TokenPieces(mp, t, lit, dist) == [CodePiece(lit, 257 + k)] + Extra(t.len - LengthBase(k), LengthExtra(k))
                                                + ([CodePiece(dist, d)] + Extra(t.dist - DistanceBase(d),
                                                                                DistanceExtra(d)))
  {
    LitSymIs(mp, t, lit, dist);
    hide LengthBase, LengthExtra, DistanceBase, DistanceExtra, Pow2, GoodMaps, LengthCode, DistCode, Extra, CodePiece,
         TokenPieces, Sends;
  }

  lemma ReadPair(inp: seq<Byte>, m: Machine, mp: Maps, c: Pair, t: Token, lit: CodeTree, dist: CodeTree,
                 rest: seq<Piece>)
    returns (m': Machine)
    requires m.c.st == Len(c) && Paired(lit, dist, c) && t.Pair2? && Sendable(mp, t, lit, dist) && Spelled(mp, t, c)
    requires t.dist <= |m.c.out| && At(inp, m, TokenPieces(mp, t, lit, dist) + rest)
    ensures At(inp, m', rest) && m'.c == Config(Len(c), m.c.last, Put(m.c.out, t))
  {
    hide *;
    PairFacts(mp, c, t, lit, dist, m.c.out);
    var k, d := LengthCode(mp, t.len), DistCode(mp, t.dist);
    var p, q := CodePiece(lit, 257 + k), CodePiece(dist, d);
    var v, w := t.len - LengthBase(k), t.dist - DistanceBase(d);
    var x, y := Extra(v, LengthExtra(k)), Extra(w, DistanceExtra(d));
    assert [p] + x + ([q] + y) + rest == [p] + (x + ([q] + (y + rest)));
    var m2 := ReadLength(inp, m, c, t.len, k, v, lit, dist, [q] + (y + rest));
    var m4 := ReadDistance(inp, m2, c, t.len, d, w, lit, dist, rest);
    ReadMatch(inp, m4, c, t.len, t.dist, 0, m.c.out, rest);
    m' := Machine(Config(Len(c), m.c.last, CopyBack(m.c.out, t.len, t.dist)), m4.pos);
  }

  lemma ReadLength(inp: seq<Byte>, m: Machine, c: Pair, length: nat, k: nat, v: int, lit: CodeTree, dist: CodeTree,
                   rest: seq<Piece>)
    returns (m': Machine)
    requires m.c.st == Len(c) && Paired(lit, dist, c) && k < 29 && Listed(c.lit, 257 + k) && Sends(lit, 257 + k)
    requires 0 <= v < Pow2(LengthExtra(k)) && length == LengthBase(k) + v
    requires AfterLen(c, 257 + k) == LenExt(c, LengthBase(k), LengthExtra(k))
    requires At(inp, m, [CodePiece(lit, 257 + k)] + (Extra(v, LengthExtra(k)) + rest))
    ensures At(inp, m', rest) && m'.c == m.c.(st := Dist(c, length))
  {
    hide *;
    ReadLit(inp, m, c, 257 + k, lit, dist, Extra(v, LengthExtra(k)) + rest);
    ListedAt(c.lit, 257 + k);
    var m1 := Machine(m.c.(st := LenExt(c, LengthBase(k), LengthExtra(k))), m.pos + c.lit[257 + k]);
    ReadLenExt(inp, m1, c, LengthBase(k), LengthExtra(k), v, rest);
    m' := Machine(m.c.(st := Dist(c, length)), m1.pos + LengthExtra(k));
  }

  lemma ReadDistance(inp: seq<Byte>, m: Machine, c: Pair, length: nat, d: nat, w: int, lit: CodeTree, dist: CodeTree,
                     rest: seq<Piece>)
    returns (m': Machine)
    requires m.c.st == Dist(c, length) && Paired(lit, dist, c) && d < 30 && Listed(c.dist, d) && Sends(dist, d)
    requires 0 <= w < Pow2(DistanceExtra(d)) && DistanceBase(d) + w <= |m.c.out|
    requires AfterDist(c, length, d) == DistExt(c, length, DistanceBase(d), DistanceExtra(d))
    requires At(inp, m, [CodePiece(dist, d)] + (Extra(w, DistanceExtra(d)) + rest))
    ensures At(inp, m', rest) && m'.c == m.c.(st := Match(c, length, DistanceBase(d) + w))
  {
    hide *;
    ReadDist(inp, m, c, length, d, lit, dist, Extra(w, DistanceExtra(d)) + rest);
    ListedAt(c.dist, d);
    var m3 := Machine(m.c.(st := DistExt(c, length, DistanceBase(d), DistanceExtra(d))), m.pos + c.dist[d]);
    ReadDistExt(inp, m3, c, length, DistanceBase(d), DistanceExtra(d), w, rest);
    m' := Machine(m.c.(st := Match(c, length, DistanceBase(d) + w)), m3.pos + DistanceExtra(d));
  }

  lemma ListedAt(lens: seq<int>, s: int)
    requires Listed(lens, s)
    ensures 0 <= s < |lens| && lens[s] != 0
  {
  }

  // ----- whole blocks

  ghost predicate AllSpelled(mp: Maps, ts: seq<Token>, c: Pair)
    requires GoodMaps(mp) && AllProper(ts)
  {
    forall i :: 0 <= i < |ts| ==> Proper(ts[i]) && Spelled(mp, ts[i], c)
  }

  lemma {:induction false} ReadTokens(inp: seq<Byte>, m: Machine, mp: Maps, c: Pair, ts: seq<Token>, lit: CodeTree,
                                      dist: CodeTree,
                                      rest: seq<Piece>) returns (m': Machine)
    requires m.c.st == Len(c) && Paired(lit, dist, c) && GoodMaps(mp) && AllProper(ts)
    requires AllSendable(mp, ts, lit, dist) && AllSpelled(mp, ts, c) && Grounded(m.c.out, ts)
    requires At(inp, m, TokensPieces(mp, ts, lit, dist) + rest)
    ensures At(inp, m', rest) && m'.c == Config(Len(c), m.c.last, PutAll(m.c.out, ts))
    decreases |ts|
  {
    hide At, Paired, GoodMaps, TokenPieces, Sendable, Spelled, Put;
    if ts == [] {
      assert [] + rest == rest;
      m' := m;
      return;
    }
    var t, us := ts[0], ts[1..];
    var first, others := TokenPieces(mp, t, lit, dist), TokensPieces(mp, us, lit, dist);
    assert first + others + rest == first + (others + rest);
    assert Sendable(mp, ts[0], lit, dist) && Spelled(mp, ts[0], c);
    var m1;
    if t.Literal? {
      m1 := ReadLiteral(inp, m, mp, c, t, lit, dist, others + rest);
    } else {
      m1 := ReadPair(inp, m, mp, c, t, lit, dist, others + rest);
    }
    m' := ReadTokens(inp, m1, mp, c, us, lit, dist, rest);
  }

  /** A whole block after its header: the tokens and the end of block symbol. */
  lemma ReadBlock(inp: seq<Byte>, m: Machine, mp: Maps, c: Pair, ts: seq<Token>, lit: CodeTree, dist: CodeTree,
                  rest: seq<Piece>)
    returns (m': Machine)
    requires m.c.st == Len(c) && Paired(lit, dist, c) && GoodMaps(mp) && AllProper(ts)
    requires AllSendable(mp, ts, lit, dist) && AllSpelled(mp, ts, c) && Grounded(m.c.out, ts)
    requires Sends(lit, 256) && Listed(c.lit, 256)
    requires At(inp, m, TokensPieces(mp, ts, lit, dist) + [CodePiece(lit, 256)] + rest)
    ensures At(inp, m', rest) && m'.c == Config(Type, m.c.last, PutAll(m.c.out, ts))
  {
    hide *;
    var all, eob := TokensPieces(mp, ts, lit, dist), CodePiece(lit, 256);
    assert all + [eob] + rest == all + ([eob] + rest);
    var m1 := ReadTokens(inp, m, mp, c, ts, lit, dist, [eob] + rest);
    ReadLit(inp, m1, c, 256, lit, dist, rest);
    EndOfBlock(c);
    ListedAt(c.lit, 256);
    m' := Machine(m1.c.(st := Type), m1.pos + c.lit[256]);
  }

  lemma EndOfBlock(c: Pair)
    ensures AfterLen(c, 256) == Type
  {
  }
}
