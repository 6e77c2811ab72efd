/**
 The blocks that `_tr_flush_block` writes, and that a decoder reads back the whole
 stream: stored, static and dynamic blocks one after the other.
 */
module Blocks {
  import opened Arith
  import opened Canonical
  import opened DecodeTable
  import opened SymbolSort
  import opened InflateSpec
  import opened InflateRuns
  import opened Lz77
  import opened BitWriter
  import opened BlockPieces
  import opened ReadBack
  import opened HeaderBack
  import BitReservoir

  datatype Block =
    | StoredBlock(bytes: seq<Byte>)
    | StaticBlock(tokens: seq<Token>)
    | DynamicBlock(tokens: seq<Token>, lit: CodeTree, dist: CodeTree, bl: CodeTree, n: nat, ll: seq<nat>, dl: seq<nat>)

  /** The constant tables: codes of lengths and distances, and the static trees. */
  datatype Tables = Tables(maps: Maps, lit: CodeTree, dist: CodeTree)

  ghost predicate GoodTables(z: Tables) {
    && GoodMaps(z.maps)
    && z.lit.len == FixedLit() && |z.lit.code| == 288 && Encodes(z.lit, FixedLit())
    && |z.dist.code| == 30 && z.dist.len == FixedDist()[..30] && Encodes(z.dist, FixedDist())
  }

  ghost predicate Sound(z: Tables, ts: seq<Token>, lit: CodeTree, dist: CodeTree, c: Pair) {
    && GoodMaps(z.maps) && AllProper(ts) && AllSendable(z.maps, ts, lit, dist) && AllSpelled(z.maps, ts, c)
    && Sends(lit, 256) && Listed(c.lit, 256) && Paired(lit, dist, c)
  }

  ghost predicate ValidBlock(z: Tables, b: Block) {
    match b
    case StoredBlock(bytes) => |bytes| <= 0xFFFF
    case StaticBlock(ts) => Sound(z, ts, z.lit, z.dist, FIXED)
    case DynamicBlock(ts, lit, dist, bl, n, ll, dl) =>
      Sound(z, ts, lit, dist, Pair(ll, dl)) && Describes(bl, n, ll, dl) && Acceptable(Lens, Cnt(ll))
      && Acceptable(Dists, Cnt(dl))
  }

  function Bit1(last: bool): int {
    if last then 1 else 0
  }

  /** A stored block that starts at bit pos: the length and its complement, from the next byte on, and the bytes. */
  function StoredPieces(bytes: seq<Byte>, last: bool, pos: nat): seq<Piece>
    requires |bytes| <= 0xFFFF
  {
    [Piece(Bit1(last), 3)] + (Padding(pos + 3)
                              + ([Piece(|bytes|, 16), Piece(0xFFFF - |bytes|, 16)] + BytePieces(bytes)))
  }

  /** The pieces of a block that starts at bit pos. */
  function BlockBits(z: Tables, b: Block, last: bool, pos: nat): seq<Piece>
    requires ValidBlock(z, b)
  {
    match b
    case StoredBlock(bytes) =>
      StoredPieces(bytes, last, pos)
    case StaticBlock(ts) =>
      [Piece(2 + Bit1(last), 3)] + (TokensPieces(z.maps, ts, z.lit, z.dist) + [CodePiece(z.lit, 256)])
    case DynamicBlock(ts, lit, dist, bl, n, ll, dl) =>
      [Piece(4 + Bit1(last), 3)] + (TreesPieces(bl, n, ll, dl)
                                    + (TokensPieces(z.maps, ts, lit, dist) + [CodePiece(lit, 256)]))
  }

  /** What a block adds to the output. */
  function Adds(b: Block, out: seq<Byte>): seq<Byte> {
    match b
    case StoredBlock(bytes) => out + bytes
    case StaticBlock(ts) => PutAll(out, ts)
    case DynamicBlock(ts, _, _, _, _, _, _) => PutAll(out, ts)
  }

  /** Its distances stay within the output. */
  ghost predicate Rooted(b: Block, out: seq<Byte>) {
    match b
    case StoredBlock(bytes) => true
    case StaticBlock(ts) => Grounded(out, ts)
    case DynamicBlock(ts, _, _, _, _, _, _) => Grounded(out, ts)
  }

  // ----- stored blocks

  lemma StoredStep(x: int, n: nat, c: Config)
    requires x >= 0 && c.st == Stored
    ensures StepAt(x, n, c) == Move(n % 8, c.(st := StoredLen))
  {
  }

  lemma StoredLenStep(x: int, n: nat, c: Config, len: nat)
    requires x >= 0 && n >= 32 && c.st == StoredLen && Low(x, 16) == len && Low(Shr(x, 16), 16) == 0xFFFF - len
    ensures StepAt(x, n, c) == Move(32, c.(st := Copy(len)))
  {
    hide Low, Shr;
  }

  lemma CopyStep(x: int, n: nat, c: Config, len: nat, b: Byte)
    requires x >= 0 && c.st == Copy(len)
    ensures len == 0 ==> StepAt(x, n, c) == Move(0, c.(st := Type))
    ensures len > 0 && n >= 8 && Low(x, 8) == b ==>
            StepAt(x, n, c) == Move(8, c.(st := Copy(len - 1), out := c.out + [b]))
  {
    hide Low;
  }

  lemma {:induction false} ReadBytes(inp: seq<Byte>, m: Machine, bs: seq<Byte>, rest: seq<Piece>) returns (m': Machine)
    requires m.c.st == Copy(|bs|) && At(inp, m, BytePieces(bs) + rest)
    ensures At(inp, m', rest) && m'.c == m.c.(st := Type, out := m.c.out + bs)
    decreases |bs|
  {
    hide *;
    BytesAhead(bs, rest);
    AtParts(inp, m, BytePieces(bs) + rest);
    if bs == [] {
      CopyStep(Rest(inp, m), Left(inp, m), m.c, 0, 0);
      Advance0(inp, m, rest, m.c.(st := Type));
      m' := Machine(m.c.(st := Type), m.pos);
      assert m.c.out + bs == m.c.out;
      return;
    }
    var p, more := Piece(bs[0], 8), BytePieces(bs[1..]) + rest;
    HeadPiece(Rest(inp, m), Left(inp, m), p, more);
    CopyStep(Rest(inp, m), Left(inp, m), m.c, |bs|, bs[0]);
    var c := m.c.(st := Copy(|bs| - 1), out := m.c.out + [bs[0]]);
    Advance(inp, m, [p], more, c);
    m' := ReadBytes(inp, Machine(c, m.pos + Width([p])), bs[1..], rest);
    assert m.c.out + [bs[0]] + bs[1..] == m.c.out + bs;
  }

  lemma BytesAhead(bs: seq<Byte>, rest: seq<Piece>)
    ensures bs == [] ==> BytePieces(bs) + rest == rest
    ensures bs != [] ==> BytePieces(bs) + rest == [Piece(bs[0], 8)] + (BytePieces(bs[1..]) + rest)
  {
    if bs == [] {
      assert [] + rest == rest;
    } else {
      assert [Piece(bs[0], 8)] + BytePieces(bs[1..]) + rest == [Piece(bs[0], 8)] + (BytePieces(bs[1..]) + rest);
    }
  }

  /** Bits left to the byte boundary, from either end. */
  lemma PaddingLeft(pos: nat, n: nat, total: nat)
    requires pos + n == 8 * total
    ensures Width(Padding(pos)) == n % 8
  {
    PaddingIs(pos);
  }

  lemma ReadStored(inp: seq<Byte>, m: Machine, bs: seq<Byte>, rest: seq<Piece>) returns (m': Machine)
    requires m.c.st == Stored && |bs| <= 0xFFFF
    requires At(inp, m, Padding(m.pos) + ([Piece(|bs|, 16), Piece(0xFFFF - |bs|, 16)] + BytePieces(bs)) + rest)
    ensures At(inp, m', rest) && m'.c == m.c.(st := Type, out := m.c.out + bs)
  {
    hide *;
    var p, q, pad := Piece(|bs|, 16), Piece(0xFFFF - |bs|, 16), Padding(m.pos);
    var more := BytePieces(bs) + rest;
    assert pad + ([p, q] + BytePieces(bs)) + rest == pad + ([p, q] + more);
    AtParts(inp, m, pad + ([p, q] + more));
    PaddingLeft(m.pos, Left(inp, m), |inp|) by {
      LeftIs(inp, m);
    }
    StoredStep(Rest(inp, m), Left(inp, m), m.c);
    var c1 := m.c.(st := StoredLen);
    Advance(inp, m, pad, [p, q] + more, c1);
    var m1 := Machine(c1, m.pos + Width(pad));
    AtParts(inp, m1, [p, q] + more);
    assert [p, q] + more == [p] + ([q] + more);
    var x, n := Rest(inp, m1), Left(inp, m1);
    HeadPiece(x, n, p, [q] + more);
    HeadPiece(Shr(x, 16), n - 16, q, more);
    StoredLenStep(x, n, c1, |bs|);
    TwoShorts(p, q);
    var c2 := m.c.(st := Copy(|bs|));
    Advance(inp, m1, [p, q], more, c2);
    m' := ReadBytes(inp, Machine(c2, m1.pos + 32), bs, rest);
  }

  lemma LeftIs(inp: seq<Byte>, m: Machine)
    ensures Left(inp, m) == 8 * |inp| - m.pos
  {
  }

  lemma TwoShorts(p: Piece, q: Piece)
    requires p.len == 16 && q.len == 16
    ensures Width([p, q]) == 32
  {
    assert [p, q] == [p] + [q];
    WidthAppend([p], [q]);
    WidthOne(p);
    WidthOne(q);
  }

  // ----- any block

  lemma BlockParts(z: Tables, b: Block, last: bool, pos: nat, out: seq<Byte>, rest: seq<Piece>)
    requires ValidBlock(z, b) && Rooted(b, out)
    ensures b.StoredBlock? ==> |b.bytes| <= 0xFFFF && Adds(b, out) == out + b.bytes
    ensures b.StoredBlock?
            ==> BlockBits(z, b, last, pos) + rest == [Piece(2 * 0 + (if last then 1 else 0), 3)]
                 + (Padding(pos + 3) + ([Piece(|b.bytes|, 16), Piece(0xFFFF - |b.bytes|, 16)] + BytePieces(b.bytes))
                    + rest)
    ensures b.StaticBlock? ==> Sound(z, b.tokens, z.lit, z.dist, FIXED) && Grounded(out, b.tokens)
                               && Adds(b, out) == PutAll(out, b.tokens)
    ensures b.StaticBlock? ==> AllSendable(z.maps, b.tokens, z.lit, z.dist) && Sends(z.lit, 256)
    ensures b.StaticBlock?
            ==> BlockBits(z, b, last, pos) + rest == [Piece(2 * 1 + (if last then 1 else 0), 3)]
                 + (TokensPieces(z.maps, b.tokens, z.lit, z.dist) + [CodePiece(z.lit, 256)] + rest)
    ensures b.DynamicBlock? ==> Sound(z, b.tokens, b.lit, b.dist, Pair(b.ll, b.dl)) && Describes(b.bl, b.n, b.ll, b.dl)
    ensures b.DynamicBlock? ==> Acceptable(Lens, Cnt(b.ll)) && Acceptable(Dists, Cnt(b.dl)) && Grounded(out, b.tokens)
    ensures b.DynamicBlock? ==> AllSendable(z.maps, b.tokens, b.lit, b.dist) && Sends(b.lit, 256)
                                && Adds(b, out) == PutAll(out, b.tokens)
    ensures b.DynamicBlock?
            ==> BlockBits(z, b, last, pos) + rest == [Piece(2 * 2 + (if last then 1 else 0), 3)]
                 + (TreesPieces(b.bl, b.n, b.ll, b.dl)
                    + (TokensPieces(z.maps, b.tokens, b.lit, b.dist) + [CodePiece(b.lit, 256)] + rest))
  {
    hide TokensPieces, TreesPieces, Padding, BytePieces, Describes, Acceptable, Grounded, PutAll, AllSendable, Sends,
         CodePiece, AllSpelled, GoodMaps;
    match b
    case StoredBlock(bs) =>
      var q := Padding(pos + 3) + ([Piece(|bs|, 16), Piece(0xFFFF - |bs|, 16)] + BytePieces(bs));
      assert [Piece(Bit1(last), 3)] + q + rest == [Piece(Bit1(last), 3)] + (q + rest);
    case StaticBlock(ts) =>
      var q := TokensPieces(z.maps, ts, z.lit, z.dist) + [CodePiece(z.lit, 256)];
      assert [Piece(2 + Bit1(last), 3)] + q + rest == [Piece(2 + Bit1(last), 3)] + (q + rest);
    case DynamicBlock(ts, lit, dist, bl, n, ll, dl) =>
      var a, q := TreesPieces(bl, n, ll, dl), TokensPieces(z.maps, ts, lit, dist) + [CodePiece(lit, 256)];
      assert [Piece(4 + Bit1(last), 3)] + (a + q) + rest == [Piece(4 + Bit1(last), 3)] + (a + (q + rest));
  }

  lemma SoundParts(z: Tables, ts: seq<Token>, lit: CodeTree, dist: CodeTree, c: Pair)
    requires Sound(z, ts, lit, dist, c)
    ensures GoodMaps(z.maps) && AllProper(ts) && AllSendable(z.maps, ts, lit, dist) && AllSpelled(z.maps, ts, c)
    ensures Sends(lit, 256) && Listed(c.lit, 256) && Paired(lit, dist, c)
  {
    hide GoodMaps, AllProper, AllSendable, AllSpelled, Sends, Listed, Paired;
  }

  /** A block is read back: the decoder has its output added, and is ready for the next block. */
  lemma ReadWhole(inp: seq<Byte>, m: Machine, z: Tables, b: Block, last: bool, rest: seq<Piece>) returns (m': Machine)
    requires m.c.st == Type && !m.c.last && ValidBlock(z, b) && Rooted(b, m.c.out)
    requires At(inp, m, BlockBits(z, b, last, m.pos) + rest)
    ensures At(inp, m', rest) && m'.c == Config(Type, last, Adds(b, m.c.out))
  {
    hide *;
    BlockParts(z, b, last, m.pos, m.c.out, rest);
    match b
    case StoredBlock(bs) =>
      ReadType(inp, m, 0, last, Padding(m.pos + 3) + ([Piece(|bs|, 16), Piece(0xFFFF - |bs|, 16)] + BytePieces(bs))
               + rest);
      m' := ReadStored(inp, Machine(Config(Stored, last, m.c.out), m.pos + 3), bs, rest);
    case StaticBlock(ts) =>
      SoundParts(z, ts, z.lit, z.dist, FIXED);
      ReadType(inp, m, 1, last, TokensPieces(z.maps, ts, z.lit, z.dist) + [CodePiece(z.lit, 256)] + rest);
      var m1 := Machine(Config(Len(FIXED), last, m.c.out), m.pos + 3);
      m' := ReadBlock(inp, m1, z.maps, FIXED, ts, z.lit, z.dist, rest);
    case DynamicBlock(ts, lit, dist, bl, n, ll, dl) =>
      SoundParts(z, ts, lit, dist, Pair(ll, dl));
      var q := TokensPieces(z.maps, ts, lit, dist) + [CodePiece(lit, 256)] + rest;
      ReadType(inp, m, 2, last, TreesPieces(bl, n, ll, dl) + q);
      var m1 := Machine(Config(Table, last, m.c.out), m.pos + 3);
      var m2 := ReadTrees(inp, m1, bl, n, ll, dl, q);
      m' := ReadBlock(inp, m2, z.maps, Pair(ll, dl), ts, lit, dist, rest);
  }

  // ----- the stream

  /** What a list of blocks stands for. */
  function Output(log: seq<Block>): seq<Byte> {
    if log == [] then [] else Adds(log[|log| - 1], Output(log[..|log| - 1]))
  }

  /** Every block is valid, its distances within the output before it. */
  ghost predicate ValidLog(z: Tables, log: seq<Block>) {
    log == [] || (var n := |log| - 1;
                  ValidLog(z, log[..n]) && ValidBlock(z, log[n]) && Rooted(log[n], Output(log[..n])))
  }

  /** The pieces of a list of blocks, none of them marked as the last. */
  function OpenBits(z: Tables, log: seq<Block>): (ps: seq<Piece>)
    requires ValidLog(z, log)
  {
    if log == [] then []
    else
      var n := |log| - 1;
      var ps := OpenBits(z, log[..n]);
      ps + BlockBits(z, log[n], false, Width(ps))
  }

  lemma {:induction false} ReadOpen(inp: seq<Byte>, z: Tables, log: seq<Block>, rest: seq<Piece>) returns (m: Machine)
    requires ValidLog(z, log) && At(inp, START, OpenBits(z, log) + rest)
    ensures At(inp, m, rest) && m.c == Config(Type, false, Output(log))
    decreases |log|
  {
    hide *;
    LogParts(z, log);
    StartIs();
    if log == [] {
      assert [] + rest == rest;
      m := START;
      return;
    }
    var n := |log| - 1;
    var ps := OpenBits(z, log[..n]);
    var b := BlockBits(z, log[n], false, Width(ps));
    assert ps + b + rest == ps + (b + rest);
    var m1 := ReadOpen(inp, z, log[..n], b + rest);
    PosIs(inp, ps, b + rest, m1);
    m := ReadWhole(inp, m1, z, log[n], false, rest);
  }

  lemma StartIs()
    ensures START == Machine(Config(Type, false, []), 0)
  {
  }

  /** The position is the width of what has been read. */
  lemma PosIs(inp: seq<Byte>, ps: seq<Piece>, qs: seq<Piece>, m: Machine)
    requires At(inp, START, ps + qs) && At(inp, m, qs)
    ensures m.pos == Width(ps)
  {
    hide Reaches, Carries, Width;
    WidthAppend(ps, qs);
  }

  lemma LogParts(z: Tables, log: seq<Block>)
    requires ValidLog(z, log)
    ensures log == [] ==> OpenBits(z, log) == [] && Output(log) == []
    ensures log != [] ==>
              (var n := |log| - 1;
               && ValidLog(z, log[..n]) && ValidBlock(z, log[n]) && Rooted(log[n], Output(log[..n]))
               && OpenBits(z, log) == OpenBits(z, log[..n]) + BlockBits(z, log[n], false, Width(OpenBits(z, log[..n])))
               && Output(log) == Adds(log[n], Output(log[..n])))
  {
    hide ValidBlock, Rooted, BlockBits, Adds;
  }

  /** The pieces of a whole stream: the last block marked, and the last byte filled up. */
  function ClosedBits(z: Tables, log: seq<Block>): (ps: seq<Piece>)
    requires log != [] && ValidLog(z, log)
  {
    var n := |log| - 1;
    var ps := OpenBits(z, log[..n]);
    var qs := ps + BlockBits(z, log[n], true, Width(ps));
    qs + Padding(Width(qs))
  }

  /** One more block. */
  lemma LogMore(z: Tables, log: seq<Block>, b: Block)
    requires ValidLog(z, log) && ValidBlock(z, b) && Rooted(b, Output(log))
    ensures ValidLog(z, log + [b]) && Output(log + [b]) == Adds(b, Output(log))
    ensures OpenBits(z, log + [b]) == OpenBits(z, log) + BlockBits(z, b, false, Width(OpenBits(z, log)))
    ensures var ps := OpenBits(z, log);
            var qs := ps + BlockBits(z, b, true, Width(ps));
            log + [b] != [] && ClosedBits(z, log + [b]) == qs + Padding(Width(qs))
  {
    var all := log + [b];
    assert all[..|all| - 1] == log && all[|all| - 1] == b;
    hide ValidBlock, Rooted, BlockBits, Adds, Width, Padding;
  }

  /** Bytes that hold the pieces are read from the start. */
  lemma StartAt(inp: seq<Byte>, ps: seq<Piece>)
    requires AllSmall(ps) && Width(ps) == 8 * |inp| && Num(ps) == Value(inp)
    ensures At(inp, START, ps)
  {
    StartReached(inp);
    ValueBound8(inp);
    LowAll(Value(inp), Width(ps));
    hide Reaches, Value, Num, Width, Low;
  }

  lemma ValueBound8(inp: seq<Byte>)
    ensures 0 <= Value(inp) < Pow2(8 * |inp|)
  {
    BitReservoir.ValueBound(inp);
  }

  lemma LastStep(x: int, n: nat, c: Config)
    requires x >= 0
    ensures c.st == Type && c.last ==> StepAt(x, n, c) == Move(n % 8, c.(st := Check))
    ensures c.st == Check ==> StepAt(x, n, c) == Move(0, c.(st := Done))
  {
  }

  /** A whole stream is read back to its end, and stands for the output of its blocks. */
  lemma ReadClosed(inp: seq<Byte>, z: Tables, log: seq<Block>) returns (m: Machine)
    requires log != [] && ValidLog(z, log)
    requires AllSmall(ClosedBits(z, log)) && Width(ClosedBits(z, log)) == 8 * |inp|
             && Num(ClosedBits(z, log)) == Value(inp)
    ensures Reaches(inp, m) && m.c == Config(Done, true, Output(log)) && m.pos == 8 * |inp|
  {
    hide *;
    LogParts(z, log);
    StartIs();
    StartAt(inp, ClosedBits(z, log));
    ClosedIs(z, log);
    var n := |log| - 1;
    var ps := OpenBits(z, log[..n]);
    var b := BlockBits(z, log[n], true, Width(ps));
    var pad := Padding(Width(ps + b));
    assert ps + b + pad == ps + (b + pad);
    var m1 := ReadOpen(inp, z, log[..n], b + pad);
    PosIs(inp, ps, b + pad, m1);
    var m2 := ReadWhole(inp, m1, z, log[n], true, pad);
    AtParts(inp, m2, pad);
    PosIs(inp, ps + b, pad, m2);
    LeftIs(inp, m2);
    PaddingIs(m2.pos);
    PaddingSmall(m2.pos);
    LastStep(Rest(inp, m2), Left(inp, m2), m2.c);
    assert pad + [] == pad;
    Advance(inp, m2, pad, [], m2.c.(st := Check));
    var m3 := Machine(m2.c.(st := Check), m2.pos + Width(pad));
    AtParts(inp, m3, []);
    LastStep(Rest(inp, m3), Left(inp, m3), m3.c);
    Advance0(inp, m3, [], m3.c.(st := Done));
    m := Machine(m3.c.(st := Done), m3.pos);
    AtParts(inp, m, []);
    LeftIs(inp, m);
    NoWidth();
  }

  lemma NoWidth()
    ensures Width([]) == 0
  {
  }

  lemma PaddingSmall(n: nat)
    ensures Width(Padding(n)) < 8
  {
  }

  lemma ClosedIs(z: Tables, log: seq<Block>)
    requires log != [] && ValidLog(z, log)
    ensures var n := |log| - 1;
            ValidLog(z, log[..n]) && ValidBlock(z, log[n])
            && var ps := OpenBits(z, log[..n]);
               var b := BlockBits(z, log[n], true, Width(ps));
               ClosedBits(z, log) == ps + b + Padding(Width(ps + b))
  {
    hide ValidBlock, Rooted, BlockBits, Adds;
  }
}
