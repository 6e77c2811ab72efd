/**
 `trees.c`, put together: the tallies of a block, its three trees, the choice between a
 stored, a static and a dynamic block, and the bits written, which take exactly the
 lengths that the choice was based on.
 */
module Trees {
  import opened Arith
  import opened Canonical
  import opened DecodeTable
  import opened SymbolSort
  import opened InflateSpec
  import opened InflateRuns
  import opened Lz77
  import opened HuffmanMerge
  import opened HuffmanLengths
  import opened BuildTree
  import opened BitWriter
  import opened RunLengths
  import opened TokenCodes
  import opened BlockPieces
  import opened ReadBack
  import opened HeaderBack
  import opened TreeCodes
  import opened StaticTrees
  import opened Senders
  import opened BlockTrees
  import opened Blocks
  import opened Overlay
  import opened Costs

  /** The three trees of a block, with the frequencies they were built for. */
  datatype Trio = Trio(fl: seq<int>, fd: seq<int>, fbl: seq<int>, lit: CodeTree, dist: CodeTree, bl: CodeTree, n: nat,
                       ll: seq<nat>, dl: seq<nat>)

  ghost predicate TrioOf(m: Maps, ts: seq<Token>, r: Trio) {
    && Frequencies(m, ts, r.fl, r.fd)
    && Offers(Lens, r.fl, 286, r.lit, |r.ll|, 15) && Guarded(r.lit.len, r.ll) && |r.lit.len| >= 286
    && Offers(Dists, r.fd, 30, r.dist, |r.dl|, 15) && Guarded(r.dist.len, r.dl) && |r.dist.len| >= 30
    && Offers(Codes, r.fbl, 19, r.bl, 19, 7) && HeaderSizes(r.bl, r.n, r.ll, r.dl)
    && (forall s :: 0 <= s < 19 ==> r.fbl[s] == SymCount(Runs(r.ll) + Runs(r.dl), s))
  }

  /** Bits of the tokens with the given code lengths. */
  ghost function TokenBits(r: Trio, lit: seq<int>, dist: seq<int>): int
    requires |r.fl| >= 286 && |r.fd| >= 30 && |lit| >= 286 && |dist| >= 30
  {
    TreeBits(r.fl, lit, LitExtra(), 257, 286) + TreeBits(r.fd, dist, DistExtra(), 0, 30)
  }

  /** opt_len and static_len as `_tr_flush_block` finds them. */
  ghost predicate Lengths(r: Trio, opt: int, fixed: int) {
    && |r.fl| >= 286 && |r.fd| >= 30 && |r.fbl| >= 19 && |r.lit.len| >= 286 && |r.dist.len| >= 30 && |r.bl.len| >= 19
    && opt == TokenBits(r, r.lit.len, r.dist.len) + TreeBits(r.fbl, r.bl.len, RunExtra(), 0, 19) + 3 * r.n + 5 + 5 + 4
    && fixed == TokenBits(r, FixedLit(), FixedDist())
  }

  function DynamicOf(ts: seq<Token>, r: Trio): Block {
    DynamicBlock(ts, r.lit, r.dist, r.bl, r.n, r.ll, r.dl)
  }

  /** The trees make a valid dynamic block, and its bits are opt_len and the three of the header. */
  lemma TrioValid(z: Tables, ts: seq<Token>, r: Trio, opt: int, fixed: int, last: bool, pos: nat)
    requires GoodTables(z) && TrioOf(z.maps, ts, r) && Lengths(r, opt, fixed)
    ensures ValidBlock(z, DynamicOf(ts, r)) && Width(BlockBits(z, DynamicOf(ts, r), last, pos)) == 3 + opt
    ensures forall i :: 0 <= i < 19 && i < |r.bl.len| ==> 0 <= r.bl.len[i] < 8
  {
    hide *;
    TrioParts(z.maps, ts, r);
    BlockSendable(z.maps, ts, r.fl, r.fd, r.lit, r.dist, |r.ll|, |r.dl|, 15);
    OffersParts(Lens, r.fl, 286, r.lit, |r.ll|, 15);
    OffersParts(Dists, r.fd, 30, r.dist, |r.dl|, 15);
    UsableAccepted(Lens, r.lit.len[..|r.ll|]);
    UsableAccepted(Dists, r.dist.len[..|r.dl|]);
    DescribesMake(r.fbl, r.bl, r.n, r.ll, r.dl);
    MakeDynamic(z, ts, r);
    TreesWidth(r.fbl, r.bl, r.n, r.ll, r.dl);
    BlockWidth(z.maps, ts, r.fl, r.fd, r.lit, r.dist);
    DynamicWidth(z, ts, r, last, pos);
    LengthsParts(r, opt, fixed);
  }

  lemma TrioParts(m: Maps, ts: seq<Token>, r: Trio)
    requires TrioOf(m, ts, r)
    ensures Frequencies(m, ts, r.fl, r.fd) && Offers(Lens, r.fl, 286, r.lit, |r.ll|, 15)
            && Offers(Dists, r.fd, 30, r.dist, |r.dl|, 15)
    ensures Offers(Codes, r.fbl, 19, r.bl, 19, 7) && HeaderSizes(r.bl, r.n, r.ll, r.dl)
    ensures |r.fbl| >= 19 && forall s :: 0 <= s < 19 ==> r.fbl[s] == SymCount(Runs(r.ll) + Runs(r.dl), s)
    ensures Guarded(r.lit.len, r.ll) && Guarded(r.dist.len, r.dl) && |r.lit.len| >= 286 && |r.dist.len| >= 30
    ensures |r.ll| < |r.lit.len| && r.lit.len[..|r.ll|] == r.ll && |r.dl| < |r.dist.len| && r.dist.len[..|r.dl|] == r.dl
  {
    hide Frequencies, HeaderSizes, SymCount, Runs, Usable, Encodes, OfferedAt;
  }

  lemma UsableAccepted(kind: CodeType, lens: seq<int>)
    requires Usable(kind, lens)
    ensures Acceptable(kind, Cnt(lens))
  {
    hide Acceptable, Cnt;
  }

  lemma MakeDynamic(z: Tables, ts: seq<Token>, r: Trio)
    requires GoodMaps(z.maps) && AllProper(ts) && AllSendable(z.maps, ts, r.lit, r.dist)
             && AllSpelled(z.maps, ts, Pair(r.ll, r.dl))
    requires Sends(r.lit, 256) && Listed(r.ll, 256) && Paired(r.lit, r.dist, Pair(r.ll, r.dl))
             && Describes(r.bl, r.n, r.ll, r.dl)
    requires Acceptable(Lens, Cnt(r.ll)) && Acceptable(Dists, Cnt(r.dl))
    ensures ValidBlock(z, DynamicOf(ts, r))
  {
    hide GoodMaps, AllProper, AllSendable, AllSpelled, Sends, Listed, Paired, Describes, Acceptable, Cnt;
  }

  lemma DynamicWidth(z: Tables, ts: seq<Token>, r: Trio, last: bool, pos: nat)
    requires ValidBlock(z, DynamicOf(ts, r))
    ensures Describes(r.bl, r.n, r.ll, r.dl) && AllSendable(z.maps, ts, r.lit, r.dist) && Sends(r.lit, 256)
    ensures Width(BlockBits(z, DynamicOf(ts, r), last, pos))
         == 3 + Width(TreesPieces(r.bl, r.n, r.ll, r.dl))
         + Width(TokensPieces(z.maps, ts, r.lit, r.dist) + [CodePiece(r.lit, 256)])
  {
    DynamicBits(z, ts, r, last, pos);
    hide *;
    var a, q, h := TreesPieces(r.bl, r.n, r.ll, r.dl),
                   TokensPieces(z.maps, ts, r.lit, r.dist) + [CodePiece(r.lit, 256)], Piece(4 + Bit1(last), 3);
    WidthAppend([h], a + q);
    WidthAppend(a, q);
    WidthOne(h);
  }

  lemma DynamicBits(z: Tables, ts: seq<Token>, r: Trio, last: bool, pos: nat)
    requires ValidBlock(z, DynamicOf(ts, r))
    ensures Describes(r.bl, r.n, r.ll, r.dl) && AllSendable(z.maps, ts, r.lit, r.dist) && Sends(r.lit, 256)
    ensures BlockBits(z, DynamicOf(ts, r), last, pos)
         == [Piece(4 + Bit1(last), 3)]
            + (TreesPieces(r.bl, r.n, r.ll, r.dl) + (TokensPieces(z.maps, ts, r.lit, r.dist) + [CodePiece(r.lit, 256)]))
  {
    hide Describes, AllSendable, Sends, TreesPieces, TokensPieces, CodePiece, AllSpelled, Acceptable, GoodMaps;
  }

  lemma DynamicOvertakes(z: Tables, ts: seq<Token>, r: Trio, left: nat, size: nat)
    requires ValidBlock(z, DynamicOf(ts, r)) && AllSendable(z.maps, ts, r.lit, r.dist)
             && Describes(r.bl, r.n, r.ll, r.dl)
    ensures Overtakes(z, DynamicOf(ts, r), left, size)
         == !Ahead(z.maps, ts, r.lit, r.dist, left + 3 + Width(TreesPieces(r.bl, r.n, r.ll, r.dl)), size)
  {
    hide ValidBlock, Ahead, TreesPieces, Width, AllSendable, Describes;
  }

  lemma LengthsParts(r: Trio, opt: int, fixed: int)
    requires Lengths(r, opt, fixed)
    ensures |r.fl| >= 286 && |r.fd| >= 30 && |r.fbl| >= 19 && |r.lit.len| >= 286 && |r.dist.len| >= 30
            && |r.bl.len| >= 19
    ensures opt == TreeBits(r.fl, r.lit.len, LitExtra(), 257, 286) + TreeBits(r.fd, r.dist.len, DistExtra(), 0, 30)
                 + TreeBits(r.fbl, r.bl.len, RunExtra(), 0, 19) + 3 * r.n + 5 + 5 + 4
    ensures |FixedLit()| == 288 && |FixedDist()| == 32
    ensures fixed == TreeBits(r.fl, FixedLit(), LitExtra(), 257, 286) + TreeBits(r.fd, FixedDist(), DistExtra(), 0, 30)
  {
    hide TreeBits, RunExtra, LitExtra, DistExtra;
  }

  // ----- static blocks

  /** Every token can be sent with the static trees. */
  lemma StaticSends(z: Tables, s: int)
    requires GoodTables(z)
    ensures 0 <= s < 288 ==> Sends(z.lit, s) && Listed(FIXED.lit, s)
    ensures 0 <= s < 30 ==> Sends(z.dist, s) && Listed(FIXED.dist, s)
  {
    hide FixedLit, FixedDist, Encodes, Sends, Listed, GoodMaps;
    FixedParts(s);
    FixedCodes.FixedUsable();
    if 0 <= s < 288 {
      FixedHasCode(Lens, z.lit, FixedLit(), s);
    }
    if 0 <= s < 30 {
      assert z.dist.len[s] == FixedDist()[..30][s];
      FixedHasCode(Dists, z.dist, FixedDist(), s);
    }
  }

  lemma FixedParts(s: int)
    ensures FIXED.lit == FixedLit() && FIXED.dist == FixedDist() && |FixedLit()| == 288 && |FixedDist()| == 32
    ensures 0 <= s < 288 ==> FixedLit()[s] != 0
    ensures 0 <= s < 32 ==> FixedDist()[s] != 0
  {
  }

  lemma FixedHasCode(kind: CodeType, t: CodeTree, lens: seq<int>, s: nat)
    requires Encodes(t, lens) && Usable(kind, lens) && s < |lens| && s < |t.code| && s < |t.len| && lens[s] != 0
             && t.len[s] == lens[s]
    ensures Sends(t, s) && Listed(lens, s)
  {
    assert HasCode(t, lens, s);
    CodeFits(kind, lens, s);
    hide Usable, Code, Cnt, Encodes;
  }

  lemma StaticValid(z: Tables, ts: seq<Token>)
    requires GoodTables(z) && AllProper(ts)
    ensures ValidBlock(z, StaticBlock(ts)) && AllSendable(z.maps, ts, z.lit, z.dist) && Sends(z.lit, 256)
  {
    hide *;
    TablesParts(z);
    StaticSends(z, 256);
    FixedCodes.FixedUsable();
    FixedParts(0);
    forall i | 0 <= i < |ts| ensures Sendable(z.maps, ts[i], z.lit, z.dist) && Proper(ts[i])
    && Spelled(z.maps, ts[i], FIXED) {
      ProperAt(z.maps, ts, i);
      StaticSends(z, LitSym(z.maps, ts[i]));
      if ts[i].Pair2? {
        StaticSends(z, DistCode(z.maps, ts[i].dist));
      }
      MakeSendable(z.maps, ts[i], z.lit, z.dist, FIXED);
    }
    PairUsable(FIXED);
    MakeBlock(z.maps, ts, z.lit, z.dist, FIXED);
    MakeStatic(z, ts);
  }

  lemma PairUsable(c: Pair)
    requires UsablePair(c)
    ensures Usable(Lens, c.lit) && Usable(Dists, c.dist)
  {
    hide Usable;
  }

  lemma ProperAt(m: Maps, ts: seq<Token>, i: nat)
    requires GoodMaps(m) && AllProper(ts) && i < |ts|
    ensures Proper(ts[i]) && 0 <= LitSym(m, ts[i]) < 286
    ensures ts[i].Pair2? ==> 1 <= ts[i].dist <= 32768 && 0 <= DistCode(m, ts[i].dist) < 30
  {
    hide GoodMaps;
  }

  lemma TablesParts(z: Tables)
    requires GoodTables(z)
    ensures GoodMaps(z.maps) && z.lit.len == FixedLit() && |z.lit.code| == 288 && Encodes(z.lit, FixedLit())
    ensures |z.dist.code| == 30 && |FixedDist()| == 32 && z.dist.len == FixedDist()[..30]
            && Encodes(z.dist, FixedDist())
  {
    hide GoodMaps, Encodes, FixedLit, FixedDist;
    FixedParts(0);
  }

  lemma MakeStatic(z: Tables, ts: seq<Token>)
    requires GoodMaps(z.maps) && AllProper(ts) && AllSendable(z.maps, ts, z.lit, z.dist)
             && AllSpelled(z.maps, ts, FIXED)
    requires Sends(z.lit, 256) && Listed(FIXED.lit, 256) && Paired(z.lit, z.dist, FIXED)
    ensures ValidBlock(z, StaticBlock(ts))
  {
    hide GoodMaps, AllProper, AllSendable, AllSpelled, Sends, Listed, Paired, FIXED;
  }

  /** The bits of a static block are static_len and the three of the header. */
  lemma StaticWidth(z: Tables, ts: seq<Token>, r: Trio, opt: int, fixed: int, last: bool, pos: nat)
    requires GoodTables(z) && ValidBlock(z, StaticBlock(ts)) && TrioOf(z.maps, ts, r) && Lengths(r, opt, fixed)
    ensures Width(BlockBits(z, StaticBlock(ts), last, pos)) == 3 + fixed
  {
    StaticBits(z, ts, last, pos);
    hide *;
    TrioParts(z.maps, ts, r);
    TablesParts(z);
    LengthsParts(r, opt, fixed);
    var q, h := TokensPieces(z.maps, ts, z.lit, z.dist) + [CodePiece(z.lit, 256)], Piece(2 + Bit1(last), 3);
    WidthAppend([h], q);
    WidthOne(h);
    BlockWidth(z.maps, ts, r.fl, r.fd, z.lit, z.dist);
    SameTreeBits(r.fd, FixedDist(), z.dist.len);
  }

  lemma StaticBits(z: Tables, ts: seq<Token>, last: bool, pos: nat)
    requires ValidBlock(z, StaticBlock(ts))
    ensures AllSendable(z.maps, ts, z.lit, z.dist) && Sends(z.lit, 256)
    ensures BlockBits(z, StaticBlock(ts), last, pos)
            == [Piece(2 + Bit1(last), 3)] + (TokensPieces(z.maps, ts, z.lit, z.dist) + [CodePiece(z.lit, 256)])
  {
  }

  // ----- how long a block can become

  /** static_len is at most 31 bits for each token, and nine for each byte that they stand for. */
  lemma FixedCost(z: Tables, ts: seq<Token>, r: Trio, opt: int, fixed: int)
    requires GoodTables(z) && TrioOf(z.maps, ts, r) && Lengths(r, opt, fixed)
    ensures fixed <= 31 * |ts| + 7 && fixed <= 9 * Covered(ts) + 7
  {
    hide *;
    TrioParts(z.maps, ts, r);
    FrequencyParts(z.maps, ts, r.fl, r.fd);
    StaticValid(z, ts);
    StaticBits(z, ts, false, 0);
    StaticWidth(z, ts, r, opt, fixed, false, 0);
    TablesParts(z);
    FixedLengths(0);
    CodeLength(z.lit, 256);
    var h, a, e := Piece(2 + Bit1(false), 3), TokensPieces(z.maps, ts, z.lit, z.dist), CodePiece(z.lit, 256);
    WidthAppend([h], a + [e]);
    WidthAppend(a, [e]);
    WidthOne(h);
    WidthOne(e);
    StaticCosts(z, ts);
  }

  /**
   What a block of the tokens is: valid, with the tokens or the bytes, of the form chosen by size, and of the
   size that was counted for it.
   */
  ghost predicate Formed(z: Tables, b: Block, ts: seq<Token>, buf: Option<seq<Byte>>, storedLen: nat, level: nat,
                         fixedOnly: bool, r: Trio, opt: int, fixed: int, eof: bool, pos: nat) {
    && ValidBlock(z, b) && Encoder.Says(b, ts, buf)
    && (level == 0 ==> b.StoredBlock?)
    && (level > 0 ==> && TrioOf(z.maps, ts, r) && Lengths(r, opt, fixed)
                      && Encoder.Chosen(b, buf, storedLen, fixedOnly, opt, fixed))
    && (b.StaticBlock? ==> Width(BlockBits(z, b, eof, pos)) == 3 + fixed)
    && (b.DynamicBlock? ==> b == DynamicOf(ts, r) && Width(BlockBits(z, b, eof, pos)) == 3 + opt)
  }

  lemma FormedParts(z: Tables, b: Block, ts: seq<Token>, buf: Option<seq<Byte>>, storedLen: nat, level: nat,
                    fixedOnly: bool, r: Trio, opt: int, fixed: int, eof: bool, pos: nat)
    requires Formed(z, b, ts, buf, storedLen, level, fixedOnly, r, opt, fixed, eof, pos)
    ensures ValidBlock(z, b) && Encoder.Says(b, ts, buf) && (level == 0 ==> b.StoredBlock?)
    ensures level > 0 ==> TrioOf(z.maps, ts, r) && Lengths(r, opt, fixed)
                          && Encoder.Chosen(b, buf, storedLen, fixedOnly, opt, fixed)
    ensures b.StaticBlock? ==> Width(BlockBits(z, b, eof, pos)) == 3 + fixed
    ensures b.DynamicBlock? ==> b == DynamicOf(ts, r) && Width(BlockBits(z, b, eof, pos)) == 3 + opt
  {
    hide ValidBlock, Encoder.Says, TrioOf, Lengths, Encoder.Chosen, Width, BlockBits, DynamicOf;
  }

  lemma MakeFormed(z: Tables, b: Block, ts: seq<Token>, buf: Option<seq<Byte>>, storedLen: nat, level: nat,
                   fixedOnly: bool, r: Trio, opt: int, fixed: int, eof: bool, pos: nat)
    requires ValidBlock(z, b) && Encoder.Says(b, ts, buf) && (level == 0 ==> b.StoredBlock?)
    requires level > 0 ==> TrioOf(z.maps, ts, r) && Lengths(r, opt, fixed)
                           && Encoder.Chosen(b, buf, storedLen, fixedOnly, opt, fixed)
    requires b.StaticBlock? ==> Width(BlockBits(z, b, eof, pos)) == 3 + fixed
    requires b.DynamicBlock? ==> b == DynamicOf(ts, r) && Width(BlockBits(z, b, eof, pos)) == 3 + opt
    ensures Formed(z, b, ts, buf, storedLen, level, fixedOnly, r, opt, fixed, eof, pos)
  {
    hide ValidBlock, Encoder.Says, TrioOf, Lengths, Encoder.Chosen, Width, BlockBits, DynamicOf;
  }

  /** Whichever form is chosen, a block takes little more than 31 bits for each of its tokens. */
  lemma BlockCost(z: Tables, b: Block, ts: seq<Token>, buf: Option<seq<Byte>>, storedLen: nat, level: nat,
                  fixedOnly: bool,
                  r: Trio, opt: int, fixed: int, eof: bool, pos: nat)
    requires GoodTables(z) && Formed(z, b, ts, buf, storedLen, level, fixedOnly, r, opt, fixed, eof, pos) && level > 0
    requires buf.Some? ==> |buf.value| == storedLen
    ensures ValidBlock(z, b) && Width(BlockBits(z, b, eof, pos)) <= 31 * |ts| + 27
  {
    hide *;
    FormedParts(z, b, ts, buf, storedLen, level, fixedOnly, r, opt, fixed, eof, pos);
    FixedCost(z, ts, r, opt, fixed);
    ChosenParts(b, ts, buf, storedLen, fixedOnly, opt, fixed);
    if b.StoredBlock? {
      StoredWidth(z, b.bytes, eof, pos);
    }
  }

  /** Nine bits for each byte and ten more, or a few bytes if it is stored and short. */
  lemma ByteCost(z: Tables, b: Block, ts: seq<Token>, buf: Option<seq<Byte>>, storedLen: nat, level: nat,
                 fixedOnly: bool,
                 r: Trio, opt: int, fixed: int, eof: bool, pos: nat, n: nat)
    requires GoodTables(z) && Formed(z, b, ts, buf, storedLen, level, fixedOnly, r, opt, fixed, eof, pos)
    requires (buf.Some? ==> |buf.value| == storedLen == n) && (level > 0 ==> n == Covered(ts))
    ensures ValidBlock(z, b)
    ensures Width(BlockBits(z, b, eof, pos)) <= 9 * n + (if b.StoredBlock? && n < 127 then 42 else 10)
  {
    hide *;
    FormedParts(z, b, ts, buf, storedLen, level, fixedOnly, r, opt, fixed, eof, pos);
    if b.StoredBlock? {
      Encoder.SaysBytes(b, ts, buf);
      StoredWidth(z, b.bytes, eof, pos);
    } else {
      FixedCost(z, ts, r, opt, fixed);
      ChosenParts(b, ts, buf, storedLen, fixedOnly, opt, fixed);
    }
  }

  lemma ChosenParts(b: Block, ts: seq<Token>, buf: Option<seq<Byte>>, storedLen: nat, fixedOnly: bool, opt: int,
                    fixed: int)
    requires Encoder.Says(b, ts, buf) && Encoder.Chosen(b, buf, storedLen, fixedOnly, opt, fixed)
    ensures b.StoredBlock? ==> buf == Some(b.bytes) && 8 * storedLen + 32 <= fixed + 10
    ensures b.DynamicBlock? ==> !fixedOnly && opt + 3 <= fixed + 2 && b.tokens == ts
    ensures b.StaticBlock? ==> b.tokens == ts
  {
  }

  lemma StoredWidth(z: Tables, buf: seq<Byte>, eof: bool, pos: nat)
    requires ValidBlock(z, StoredBlock(buf))
    ensures Width(BlockBits(z, StoredBlock(buf), eof, pos)) == 3 + Width(Padding(pos + 3)) + 32 + 8 * |buf|
    ensures Width(BlockBits(z, StoredBlock(buf), eof, pos)) <= 42 + 8 * |buf|
    ensures 0 <= pos % 8 <= 5 ==> Width(BlockBits(z, StoredBlock(buf), eof, pos)) + pos % 8 == 40 + 8 * |buf|
  {
    hide *;
    StoredIs(z, buf, eof, pos);
    StoredPiecesAre(buf, eof, pos);
    var h, pad, p, q, bs := [Piece(Bit1(eof), 3)], Padding(pos + 3), Piece(|buf|, 16), Piece(0xFFFF - |buf|, 16),
                            BytePieces(buf);
    WidthAppend(h, pad + ([p, q] + bs));
    WidthAppend(pad, [p, q] + bs);
    WidthAppend([p, q], bs);
    assert [p, q] == [p] + [q];
    WidthAppend([p], [q]);
    WidthOne(p);
    WidthOne(q);
    WidthOne(Piece(Bit1(eof), 3));
    BytesWidth(buf);
    PadWidth(pos + 3);
  }

  lemma PadWidth(n: nat)
    ensures Width(Padding(n)) == (if n % 8 == 0 then 0 else 8 - n % 8)
  {
    PaddingIs(n);
    hide Padding, Width;
    NoWidth();
  }

  lemma {:induction false} BytesWidth(bs: seq<Byte>)
    ensures Width(BytePieces(bs)) == 8 * |bs|
  {
    if bs != [] {
      BytesWidth(bs[1..]);
      WidthAppend([Piece(bs[0], 8)], BytePieces(bs[1..]));
      WidthOne(Piece(bs[0], 8));
    }
  }

  /** The output of such tokens grows no faster than room is freed, or is not long enough. */
  ghost predicate Slow(fixedOnly: bool, ts: seq<Token>, size: nat) {
    || (fixedOnly && AllNear(ts)) || (AllBytes(ts) && size >= 1024) || 9 * Covered(ts) + 17 <= 8 * size
  }

  lemma SlowCases(fixedOnly: bool, ts: seq<Token>, size: nat)
    requires Slow(fixedOnly, ts, size)
    ensures (fixedOnly && AllNear(ts)) || (AllBytes(ts) && size >= 1024) || 9 * Covered(ts) + 17 <= 8 * size
  {
    hide AllNear, AllBytes, Covered;
  }

  /** Blocks whose output never reaches their tokens: few bytes, or near distances and the static trees. */
  lemma NeverOvertakes(z: Tables, b: Block, ts: seq<Token>, buf: Option<seq<Byte>>, storedLen: nat, fixedOnly: bool,
                       r: Trio, opt: int,
                       fixed: int, left: nat, size: nat)
    requires GoodTables(z) && TrioOf(z.maps, ts, r) && Lengths(r, opt, fixed) && ValidBlock(z, b)
    requires Encoder.Says(b, ts, buf) && Encoder.Chosen(b, buf, storedLen, fixedOnly, opt, fixed)
    requires b.DynamicBlock? ==> b == DynamicOf(ts, r)
    requires left <= 16 && |ts| < size && Slow(fixedOnly, ts, size)
    ensures !Overtakes(z, b, left, size)
  {
    hide *;
    SlowCases(fixedOnly, ts, size);
    FixedCost(z, ts, r, opt, fixed);
    ChosenParts(b, ts, buf, storedLen, fixedOnly, opt, fixed);
    match b
    case StoredBlock(bytes) =>
      StoredNever(z, bytes, left, size);
    case StaticBlock(_) =>
      StaticBits(z, ts, false, 0);
      StaticOvertakes(z, ts, left, size);
      if (fixedOnly && AllNear(ts)) || AllBytes(ts) {
        BytesNear(ts);
        AheadWhenNear(z, ts, left + 3, size);
      } else {
        StaticCosts(z, ts);
        AheadWhenShort(z.maps, ts, z.lit, z.dist, left + 3, size);
      }
    case DynamicBlock(_, _, _, _, _, _, _) =>
      DynamicBits(z, ts, r, false, 0);
      DynamicOvertakes(z, ts, r, left, size);
      DynamicWidth(z, ts, r, false, 0);
      TrioValid(z, ts, r, opt, fixed, false, 0);
      WidthAppend(TokensPieces(z.maps, ts, r.lit, r.dist), [CodePiece(r.lit, 256)]);
      if AllBytes(ts) && size >= 1024 {
        TreesCost(r.bl, r.n, r.ll, r.dl);
        AheadWhenBytes(z.maps, ts, r.lit, r.dist, left + 3 + Width(TreesPieces(r.bl, r.n, r.ll, r.dl)), size);
      } else {
        AheadWhenShort(z.maps, ts, r.lit, r.dist, left + 3 + Width(TreesPieces(r.bl, r.n, r.ll, r.dl)), size);
      }
  }

  lemma StoredRooted(buf: seq<Byte>)
    ensures Rooted(StoredBlock(buf), [])
  {
  }

  lemma StoredValid(z: Tables, buf: seq<Byte>)
    requires |buf| <= 0xFFFF
    ensures ValidBlock(z, StoredBlock(buf))
  {
  }

  lemma StoredIs(z: Tables, buf: seq<Byte>, eof: bool, pos: nat)
    requires ValidBlock(z, StoredBlock(buf))
    ensures |buf| <= 0xFFFF && BlockBits(z, StoredBlock(buf), eof, pos) == StoredPieces(buf, eof, pos)
  {
    hide StoredPieces;
  }

  lemma StoredPiecesAre(buf: seq<Byte>, eof: bool, pos: nat)
    requires |buf| <= 0xFFFF
    ensures StoredPieces(buf, eof, pos)
         == [Piece(Bit1(eof), 3)] + (Padding(pos + 3)
                                     + ([Piece(|buf|, 16), Piece(0xFFFF - |buf|, 16)] + BytePieces(buf)))
  {
  }

  lemma SameTreeBits(f: seq<int>, len: seq<int>, len': seq<int>)
    requires |f| >= 30 && |len| >= 30 && len' == len[..30]
    ensures TreeBits(f, len', DistExtra(), 0, 30) == TreeBits(f, len, DistExtra(), 0, 30)
  {
    TreeBitsSame(f, f, len, len', DistExtra(), 0, 30);
  }

  // ----- the frequencies of a block

  lemma NoFrequencies(m: Maps, fl: seq<int>, fd: seq<int>)
    requires GoodMaps(m) && |fl| >= 286 && |fd| >= 30
    requires (forall s :: 0 <= s < 286 ==> fl[s] == if s == 256 then 1 else 0) && forall s :: 0 <= s < 30 ==> fd[s] == 0
    ensures Frequencies(m, [], fl, fd)
  {
    hide GoodMaps;
  }

  /** One more token. */
  lemma MoreFrequencies(m: Maps, ts: seq<Token>, fl: seq<int>, fd: seq<int>, t: Token, fl': seq<int>, fd': seq<int>)
    requires Frequencies(m, ts, fl, fd) && Proper(t) && |fl'| == |fl| && |fd'| == |fd|
    requires forall s :: 0 <= s < 286 ==> fl'[s] == fl[s] + (if s == LitSym(m, t) then 1 else 0)
    requires forall s :: 0 <= s < 30 ==> fd'[s] == fd[s] + (if t.Pair2? && s == DistCode(m, t.dist) then 1 else 0)
    ensures Frequencies(m, ts + [t], fl', fd')
  {
    var us := ts + [t];
    assert us[..|us| - 1] == ts && us[|us| - 1] == t;
    assert AllProper(us);
    hide GoodMaps, Proper, LitSym, DistCode;
    forall s | 0 <= s < 286 ensures fl'[s] == LitCount(m, us, s) {
    }
    forall s | 0 <= s < 30 ensures fd'[s] == DistCount(m, us, s) {
    }
    hide LitCount, DistCount;
  }

  lemma SymbolsOf(m: Maps, t: Token)
    requires GoodMaps(m) && Proper(t)
    ensures |m.length| == 256 && |m.dist| == 512 && 0 <= LitSym(m, t) < 286
    ensures t.Literal? ==> LitSym(m, t) == t.byte
    ensures t.Pair2? ==> 3 <= t.len <= 258 && 1 <= t.dist <= 32768 && 0 <= DistIndex(t.dist - 1) < 512
    ensures t.Pair2? ==> LitSym(m, t) == m.length[t.len - 3] + 257
                         && m.dist[DistIndex(t.dist - 1)] == DistCode(m, t.dist)
    ensures t.Pair2? ==> 0 <= DistCode(m, t.dist) < 30
  {
    hide LengthsUpTo, DistsUpTo, DistEntry;
    LengthBounds(m.length, 256);
    DistBounds(m.dist, 0, 256);
  }

  // ----- the code length tree

  lemma {:induction false} ZerosOnly(lens: seq<int>, rs: seq<Run>)
    requires forall i :: 0 <= i < |lens| ==> lens[i] == 0
    requires forall i :: 0 <= i < |rs| ==> rs[i].sym == 0 || rs[i].sym >= 16
    ensures forall i :: 0 <= i < |Expand(lens, rs)| ==> Expand(lens, rs)[i] == 0
    decreases |rs|
  {
    if rs != [] {
      assert forall i :: 0 <= i < |rs[1..]| ==> rs[1..][i] == rs[i + 1];
      ZerosOnly(Apply(lens, rs[0]), rs[1..]);
    }
  }

  /** Lengths that are not all zero take a symbol from 1 to 15. */
  lemma SomePlain(lens: seq<nat>, k: nat) returns (i: nat)
    requires k < |lens| && lens[k] != 0 && forall j :: 0 <= j < |lens| ==> lens[j] < 16
    ensures i < |Runs(lens)| && 1 <= Runs(lens)[i].sym <= 15
  {
    var rs := Runs(lens);
    RunsRoundTrip([], lens);
    assert [] + lens == lens;
    if forall j :: 0 <= j < |rs| ==> rs[j].sym == 0 || rs[j].sym >= 16 {
      ZerosOnly([], rs);
    }
    i :| 0 <= i < |rs| && !(rs[i].sym == 0 || rs[i].sym >= 16);
  }

  lemma BothCounts(f0: seq<int>, f1: seq<int>, f2: seq<int>, ll: seq<nat>, dl: seq<nat>)
    requires Tallies(f1, f0, Runs(ll)) && Tallies(f2, f1, Runs(dl))
             && forall s :: 0 <= s < 19 && s < |f0| ==> f0[s] == 0
    ensures |f2| >= 19 && forall s :: 0 <= s < 19 ==> f2[s] == SymCount(Runs(ll) + Runs(dl), s)
  {
    hide Runs, SymCount;
    forall s | 0 <= s < 19 ensures f2[s] == SymCount(Runs(ll) + Runs(dl), s) {
      SymCountAppend(Runs(ll), Runs(dl), s);
    }
  }

  /** There are no more code length symbols than code lengths. */
  lemma BlWeights(fbl: seq<int>, ll: seq<nat>, dl: seq<nat>)
    requires |fbl| >= 19 && |ll| <= 286 && |dl| <= 30
    requires forall s :: 0 <= s < 19 ==> fbl[s] == SymCount(Runs(ll) + Runs(dl), s)
    requires (forall k :: 0 <= k < |ll| ==> ll[k] < 16) && forall k :: 0 <= k < |dl| ==> dl[k] < 16
    ensures Weighted(fbl, 19)
  {
    hide Runs, SymCount;
    var rl, rd := Runs(ll), Runs(dl);
    RunsRoundTrip([], ll);
    RunsRoundTrip([], dl);
    ExpandGrows([], rl);
    ExpandGrows([], rd);
    AllFitAppend(rl, rd);
    RunSum(rl + rd);
    assert fbl[..19] == RunFreq(rl + rd);
    assert [] + ll == ll && [] + dl == dl;
  }

  /** The guard lies where no symbol in use is. */
  lemma GuardBits(kind: CodeType, f: seq<int>, elems: nat, c: seq<int>, d: seq<int>, d': seq<int>, n: nat, top: int,
                  extra: seq<int>, base: int)
    requires Offers(kind, f, elems, CodeTree(c, d), n, top) && elems <= |d| && n < |d| && d' == d[n := 0xffff]
    ensures Offers(kind, f, elems, CodeTree(c, d'), n, top) && elems <= |f|
    ensures TreeBits(f, d', extra, base, elems) == TreeBits(f, d, extra, base, elems)
  {
    hide *;
    OffersParts(kind, f, elems, CodeTree(c, d), n, top);
    assert d'[..n] == d[..n];
    OffersGuarded(kind, f, elems, CodeTree(c, d), CodeTree(c, d'), n, top);
    TreeBitsSame(f, f, d, d', extra, base, elems);
  }

  // ----- the constant parts of an encoder

  /** A descriptor as `_tr_init` sets it up. */
  ghost predicate Is(desc: TreeDesc, elems: int, extra: seq<int>, base: int, top: int, stree: seq<int>,
                     hasStatic: bool) {
    && desc.elems == elems && desc.extra == extra && desc.extraBase == base && desc.maxLength == top
    && desc.stree == stree && desc.hasStatic == hasStatic
  }

  lemma DescValid(desc: TreeDesc)
    requires desc.fc != desc.dl && desc.fc.Length == desc.dl.Length
    requires || (Is(desc, 286, LitExtra(), 257, 15, FixedLit(), true) && desc.fc.Length == 573)
             || (|FixedDist()| == 32 && Is(desc, 30, DistExtra(), 0, 15, FixedDist()[..30], true)
                 && desc.fc.Length == 61)
             || (Is(desc, 19, RunExtra(), 0, 7, seq(19, i => 0), false) && desc.fc.Length == 39)
    ensures desc.Valid()
  {
    InflateSound.SmallPowers();
    hide Pow2;
  }

  import InflateSound

  /** The trees of a block and the stream that blocks are written to. */
  class Encoder {
    const ts: TreeState
    const lDesc: TreeDesc
    const dDesc: TreeDesc
    const blDesc: TreeDesc
    const z: Tables
    const baseLength: seq<int>
    const baseDist: seq<int>
    const w: Writer
    const litBufsize: nat
    ghost const footprint: set<object>
    var lastLit: nat            // how many tokens of the current block are in the memory of the writer
    var lastEobLen: int         // length of the last end of block code sent
    ghost var log: seq<Block>   // the blocks written
    ghost var left: seq<nat>    // how many bits were in the bit buffer when each of them began
    ghost var spoiled: bool     // the output of some block has reached tokens that were not read yet
    ghost var short: nat        // how many of the blocks stand for fewer bytes than a full one, or are the last

    /** `_tr_init` */
    constructor (size: nat)
      requires size >= 128
      ensures Counting([]) && Tallied([]) && w.Valid() && w.sent == [] && w.out == [] && w.pending == w.biValid == 0
      ensures log == [] && left == [] && !spoiled && short == 0 && litBufsize == size && fresh(footprint)
    {
      hide *;
      var t, l, d := StaticInit();
      z, baseLength, baseDist := t, l, d;
      var s, a, b, c := NewTrees();
      ts, lDesc, dDesc, blDesc := s, a, b, c;
      w := new Writer(4 * size);
      litBufsize, lastLit := size, 0;
      lastEobLen, log, left, spoiled, short := 8, [], [], false, 0;
      footprint := {this, s, s.heap, s.depth, s.blCount, a, a.fc, a.dl, b, b.fc, b.dl, c, c.fc, c.dl, w};
      new;
      MakeShape();
      InitBlock();
      NoneTallied();
    }

    lemma NoneTallied()
      requires |w.mem| == 4 * litBufsize && lastLit == 0
      ensures Tallied([])
    {
    }

    /** `tr_static_init` */
    static method StaticInit() returns (t: Tables, baseLength: seq<int>, baseDist: seq<int>)
      ensures GoodTables(t) && GoodBases(baseLength, baseDist)
    {
      hide *;
      var lc, lb := LengthCodes();
      var dc, db := DistCodes();
      var sl := StaticLit();
      var sd := StaticDist();
      t := Tables(Maps(lc[..], dc[..]), sl, sd);
      baseLength, baseDist := lb[..], db[..];
      Sizes();
      MakeTables(t, baseLength, baseDist);
    }

    static lemma MakeTables(t: Tables, baseLength: seq<int>, baseDist: seq<int>)
      requires LengthsUpTo(t.maps.length, 256) && |t.maps.length| == 256 && t.maps.length[255] == 28
      requires DistsUpTo(t.maps.dist, 0, 256) && DistsUpTo(t.maps.dist, 258, 512)
      requires t.lit.len == FixedLit() && |t.lit.code| == 288 && Encodes(t.lit, FixedLit())
      requires |t.dist.code| == 30 && |FixedDist()| == 32 && t.dist.len == FixedDist()[..30]
               && Encodes(t.dist, FixedDist())
      requires |baseLength| == 29 && |baseDist| == 30
      requires forall c :: 0 <= c < 28 ==> baseLength[c] + 3 == LengthBase(c)
      requires forall c :: 0 <= c < 30 ==> baseDist[c] + 1 == DistanceBase(c)
      ensures GoodTables(t) && GoodBases(baseLength, baseDist)
    {
      hide LengthsUpTo, DistsUpTo, Encodes, LengthBase, DistanceBase, FixedLit, FixedDist;
    }

    static method NewTrees() returns (t: TreeState, a: TreeDesc, b: TreeDesc, c: TreeDesc)
      ensures Fitted(t, a, b, c) && Bytes(t.depth)
      ensures fresh({t, t.heap, t.depth, t.blCount, a, a.fc, a.dl, b, b.fc, b.dl, c, c.fc, c.dl})
    {
      hide *;
      Sizes();
      t := new TreeState();
      StateParts(t);
      a := NewDesc(573, 286, LitExtra(), 257, 15, FixedLit(), true);
      b := NewDesc(61, 30, DistExtra(), 0, 15, FixedDist()[..30], true);
      c := NewDesc(39, 19, RunExtra(), 0, 7, seq(19, i => 0), false);
      MakeFitted(t, a, b, c);
    }

    static lemma MakeFitted(t: TreeState, a: TreeDesc, b: TreeDesc, c: TreeDesc)
      requires Is(a, 286, LitExtra(), 257, 15, FixedLit(), true) && |FixedDist()| == 32
      requires Is(b, 30, DistExtra(), 0, 15, FixedDist()[..30], true)
               && Is(c, 19, RunExtra(), 0, 7, seq(19, i => 0), false)
      requires a.fc.Length == a.dl.Length == 573 && b.fc.Length == b.dl.Length == 61 && c.fc.Length == c.dl.Length == 39
      requires t.heap != t.depth && t.heap != t.blCount && t.depth != t.blCount
      requires t.heap.Length == HEAP_SIZE && t.depth.Length == HEAP_SIZE && t.blCount.Length == MAX_BITS + 1
      requires a != b && a != c && b != c && a.fc != a.dl && b.fc != b.dl && c.fc != c.dl
      requires a.fc != b.fc && a.fc != b.dl && a.dl != b.fc && a.dl != b.dl
      requires a.fc != c.fc && a.fc != c.dl && a.dl != c.fc && a.dl != c.dl
      requires b.fc != c.fc && b.fc != c.dl && b.dl != c.fc && b.dl != c.dl
      requires a.fc !in {t.heap, t.depth, t.blCount} && a.dl !in {t.heap, t.depth, t.blCount}
      requires b.fc !in {t.heap, t.depth, t.blCount} && b.dl !in {t.heap, t.depth, t.blCount}
      requires c.fc !in {t.heap, t.depth, t.blCount} && c.dl !in {t.heap, t.depth, t.blCount}
      ensures Fitted(t, a, b, c)
    {
      DescValid(a);
      DescValid(b);
      DescValid(c);
      hide FixedLit, FixedDist, LitExtra, DistExtra, RunExtra;
    }

    /** The three descriptors, no two arrays of which are the same. */
    static ghost predicate Fitted(t: TreeState, a: TreeDesc, b: TreeDesc, c: TreeDesc) {
      && t.Shape(a) && t.Shape(b) && t.Shape(c) && Separate(a, b, c) && |FixedDist()| == 32
      && Is(a, 286, LitExtra(), 257, 15, FixedLit(), true) && Is(b, 30, DistExtra(), 0, 15, FixedDist()[..30], true)
      && Is(c, 19, RunExtra(), 0, 7, seq(19, i => 0), false)
      && a.fc.Length == a.dl.Length == 573 && b.fc.Length == b.dl.Length == 61 && c.fc.Length == c.dl.Length == 39
    }

    static ghost predicate Separate(a: TreeDesc, b: TreeDesc, c: TreeDesc) {
      && a != b && a != c && b != c && a.fc != a.dl && b.fc != b.dl && c.fc != c.dl
      && a.fc != b.fc && a.fc != b.dl && a.dl != b.fc && a.dl != b.dl
      && a.fc != c.fc && a.fc != c.dl && a.dl != c.fc && a.dl != c.dl
      && b.fc != c.fc && b.fc != c.dl && b.dl != c.fc && b.dl != c.dl
    }

    static method NewDesc(size: nat, elems: int, extra: seq<int>, base: int, top: int, stree: seq<int>, hasStatic: bool)
      returns (d: TreeDesc)
      ensures fresh(d) && fresh(d.fc) && fresh(d.dl) && d.fc != d.dl && d.fc.Length == d.dl.Length == size
      ensures Is(d, elems, extra, base, top, stree, hasStatic)
    {
      var f, l := new int[size](i => 0), new int[size](i => 0);
      d := new TreeDesc(f, l, elems, extra, base, top, stree, hasStatic);
    }

    static lemma StateParts(t: TreeState)
      requires t.Valid()
      ensures t.heap != t.depth && t.heap != t.blCount && t.depth != t.blCount && Bytes(t.depth)
      ensures t.heap.Length == HEAP_SIZE && t.depth.Length == HEAP_SIZE && t.blCount.Length == MAX_BITS + 1
    {
    }

    static lemma Sizes()
      ensures HEAP_SIZE == 573 && |FixedDist()| == 32 && |FixedLit()| == 288
    {
      FixedParts(0);
    }

    /** The constant parts. */
    ghost predicate Shape() {
      && GoodTables(z) && GoodBases(baseLength, baseDist) && Fitted(ts, lDesc, dDesc, blDesc) && litBufsize >= 128
      && footprint == {this, ts, ts.heap, ts.depth, ts.blCount, lDesc, lDesc.fc, lDesc.dl, dDesc, dDesc.fc, dDesc.dl,
                       blDesc, blDesc.fc, blDesc.dl, w}
    }

    lemma MakeShape()
      requires GoodTables(z) && GoodBases(baseLength, baseDist) && Fitted(ts, lDesc, dDesc, blDesc) && litBufsize >= 128
      requires footprint == {this, ts, ts.heap, ts.depth, ts.blCount, lDesc, lDesc.fc, lDesc.dl, dDesc, dDesc.fc,
                             dDesc.dl,
                             blDesc, blDesc.fc, blDesc.dl, w}
      ensures Shape()
    {
      hide GoodTables, GoodBases, Fitted;
    }

    lemma FootprintIs()
      requires Shape()
      ensures footprint == {this, ts, ts.heap, ts.depth, ts.blCount, lDesc, lDesc.fc, lDesc.dl, dDesc, dDesc.fc,
                            dDesc.dl,
                            blDesc, blDesc.fc, blDesc.dl, w}
    {
      hide GoodTables, GoodBases, Fitted;
    }

    lemma ShapeParts()
      requires Shape()
      ensures GoodTables(z) && GoodMaps(z.maps) && GoodBases(baseLength, baseDist) && Separate(lDesc, dDesc, blDesc)
      ensures litBufsize >= 128
      ensures ts.Shape(lDesc) && ts.Shape(dDesc) && ts.Shape(blDesc)
      ensures lDesc.fc.Length == lDesc.dl.Length == 573 && dDesc.fc.Length == dDesc.dl.Length == 61
      ensures blDesc.fc.Length == blDesc.dl.Length == 39
    {
      hide GoodMaps, GoodBases, Encodes, FixedLit, FixedDist, LitExtra, DistExtra, RunExtra;
    }

    lemma Apart()
      requires Separate(lDesc, dDesc, blDesc)
      ensures lDesc != dDesc && lDesc != blDesc && dDesc != blDesc
      ensures lDesc.fc != lDesc.dl && dDesc.fc != dDesc.dl && blDesc.fc != blDesc.dl
      ensures lDesc.fc != dDesc.fc && lDesc.fc != dDesc.dl && lDesc.dl != dDesc.fc && lDesc.dl != dDesc.dl
      ensures lDesc.fc != blDesc.fc && lDesc.fc != blDesc.dl && lDesc.dl != blDesc.fc && lDesc.dl != blDesc.dl
      ensures dDesc.fc != blDesc.fc && dDesc.fc != blDesc.dl && dDesc.dl != blDesc.fc && dDesc.dl != blDesc.dl
    {
    }

    lemma ApartFromState(desc: TreeDesc)
      requires ts.Shape(desc)
      ensures desc.fc != ts.heap && desc.fc != ts.depth && desc.fc != ts.blCount
      ensures desc.dl != ts.heap && desc.dl != ts.depth && desc.dl != ts.blCount
    {
    }

    // ----- tallies

    /** The frequencies are those of the tokens of the current block. */
    ghost predicate Counting(toks: seq<Token>)
      reads ts, ts.depth, lDesc.fc, dDesc.fc, blDesc.fc
    {
      && Shape() && Bytes(ts.depth) && Frequencies(z.maps, toks, lDesc.fc[..], dDesc.fc[..])
      && (forall s :: 0 <= s < 19 ==> blDesc.fc[s] == 0)
      && ts.optLen == 0 && ts.staticLen == 0
    }

    method Zero(a: array<int>, n: nat)
      requires n <= a.Length
      modifies a
      ensures forall i :: 0 <= i < n ==> a[i] == 0
    {
      for k := 0 to n
        invariant forall i :: 0 <= i < k ==> a[i] == 0
      {
        a[k] := 0;
      }
    }

    /** `init_block` */
    method InitBlock()
      requires Shape() && Bytes(ts.depth)
      modifies ts`optLen, ts`staticLen, lDesc.fc, dDesc.fc, blDesc.fc
      ensures Counting([])
    {
      hide *;
      ShapeParts();
      Apart();
      ApartFromState(lDesc);
      ApartFromState(dDesc);
      ApartFromState(blDesc);
      Zero(lDesc.fc, 286);
      Zero(dDesc.fc, 30);
      Zero(blDesc.fc, 19);
      lDesc.fc[256] := 1;
      ts.optLen, ts.staticLen := 0, 0;
      NoFrequencies(z.maps, lDesc.fc[..], dDesc.fc[..]);
      MakeCounting([]);
    }

    lemma MakeCounting(toks: seq<Token>)
      requires Shape() && blDesc.fc.Length == 39
      requires Bytes(ts.depth) && Frequencies(z.maps, toks, lDesc.fc[..], dDesc.fc[..])
      requires (forall s :: 0 <= s < 19 ==> blDesc.fc[s] == 0) && ts.optLen == 0 && ts.staticLen == 0
      ensures Counting(toks)
    {
      hide Shape, Frequencies, Bytes;
    }

    lemma CountingParts(toks: seq<Token>)
      requires Counting(toks)
      ensures Shape() && Bytes(ts.depth) && Frequencies(z.maps, toks, lDesc.fc[..], dDesc.fc[..])
              && blDesc.fc.Length == 39
      ensures (forall s :: 0 <= s < 19 ==> blDesc.fc[s] == 0) && ts.optLen == 0 && ts.staticLen == 0
    {
      ShapeParts();
      hide Shape, Frequencies, Bytes;
    }

    /** The tokens of the current block are in memory. */
    ghost predicate Tallied(toks: seq<Token>)
      reads `lastLit, w`mem
    {
      lastLit == |toks| && |w.mem| == 4 * litBufsize && TokensIn(w.mem, litBufsize, toks)
    }

    lemma TalliedParts(toks: seq<Token>)
      requires Tallied(toks)
      ensures lastLit == |toks| <= litBufsize && |w.mem| == 4 * litBufsize && TokensIn(w.mem, litBufsize, toks)
    {
    }

    lemma MakeTallied(toks: seq<Token>)
      requires lastLit == |toks| && |w.mem| == 4 * litBufsize && TokensIn(w.mem, litBufsize, toks)
      ensures Tallied(toks)
    {
      hide TokensIn;
    }

    /** `_tr_tally`: the token and its frequencies; true when the block is full. */
    method Tally(t: Token, ghost toks: seq<Token>) returns (full: bool)
      requires Counting(toks) && Tallied(toks) && Proper(t) && lastLit < litBufsize && w.Kept() && w.pending == 0
      modifies lDesc.fc, dDesc.fc, w`mem, `lastLit
      ensures Counting(toks + [t]) && Tallied(toks + [t]) && w.Kept() && full == (lastLit == litBufsize - 1)
    {
      hide *;
      TalliedParts(toks);
      StoredMore(w.mem, litBufsize, toks, t);
      w.Put(WithToken(w.mem, litBufsize, lastLit, t));
      lastLit := lastLit + 1;
      MakeTallied(toks + [t]);
      Count(t, toks);
      full := lastLit == litBufsize - 1;
    }

    /** The frequencies of one more token. */
    method Count(t: Token, ghost toks: seq<Token>)
      requires Counting(toks) && Proper(t)
      modifies lDesc.fc, dDesc.fc
      ensures Counting(toks + [t])
    {
      hide *;
      CountingParts(toks);
      ShapeParts();
      Apart();
      ApartFromState(lDesc);
      ApartFromState(dDesc);
      SymbolsOf(z.maps, t);
      ghost var fl, fd := lDesc.fc[..], dDesc.fc[..];
      if t.Literal? {
        lDesc.fc[t.byte] := lDesc.fc[t.byte] + 1;
      } else {
        var s, d := z.maps.length[t.len - 3] + 256 + 1, z.maps.dist[DistIndex(t.dist - 1)];
        lDesc.fc[s] := lDesc.fc[s] + 1;
        dDesc.fc[d] := dDesc.fc[d] + 1;
      }
      MoreFrequencies(z.maps, toks, fl, fd, t, lDesc.fc[..], dDesc.fc[..]);
      MakeCounting(toks + [t]);
    }

    // ----- the three trees

    /** Build one tree: codes for all symbols in use, and its bits added to the counts. */
    method BuildOne(desc: TreeDesc, kind: CodeType, ghost f: seq<int>)
      requires ts.Shape(desc) && Bytes(ts.depth) && f == desc.fc[..] && Weighted(f, desc.elems)
      requires 0 <= desc.elems <= Alphabet(kind)
      modifies ts, ts.heap, ts.depth, ts.blCount, desc.fc, desc.dl, desc`maxCode
      ensures Bytes(ts.depth) && 0 <= desc.maxCode < desc.elems <= desc.dl.Length && desc.maxLength >= 0
      ensures Offers(kind, f, desc.elems, CodeTree(desc.fc[..], desc.dl[..]), desc.maxCode + 1, desc.maxLength)
      ensures Offers(kind, f, desc.elems, CodeTree(desc.fc[..], desc.dl[..]), desc.elems, desc.maxLength)
      ensures desc.elems <= |f| && desc.elems <= |desc.stree|
      ensures ts.optLen == old(ts.optLen) + TreeBits(f, desc.dl[..], desc.extra, desc.extraBase, desc.elems)
      ensures ts.staticLen == old(ts.staticLen)
                           + (if desc.hasStatic then TreeBits(f, desc.stree, desc.extra, desc.extraBase, desc.elems)
                              else 0)
    {
      hide *;
      ts.FitsAgain(desc);
      ghost var g, leaves, w, dad, order;
      var overflow;
      overflow, g, leaves, w, dad, order := ts.Build(desc, f);
      ts.DescFits(desc);
      ghost var c, d, cnt := desc.fc[..], desc.dl[..], ts.blCount[..];
      ZerosBehind(g, c, d, cnt, leaves, desc.elems, desc.maxCode, desc.maxLength);
      OffersMake(kind, f, g, c, d, cnt, leaves, desc.elems, desc.maxCode, desc.maxLength, desc.maxCode + 1);
      OffersMake(kind, f, g, c, d, cnt, leaves, desc.elems, desc.maxCode, desc.maxLength, desc.elems);
    }

    lemma DescParts()
      requires Shape()
      ensures lDesc.elems == 286 && lDesc.extra == LitExtra() && lDesc.extraBase == 257 && lDesc.maxLength == 15
      ensures lDesc.stree == FixedLit() && lDesc.hasStatic && |FixedLit()| == 288
      ensures dDesc.elems == 30 && dDesc.extra == DistExtra() && dDesc.extraBase == 0 && dDesc.maxLength == 15
      ensures |FixedDist()| == 32 && dDesc.stree == FixedDist()[..30] && dDesc.hasStatic
      ensures blDesc.elems == 19 && blDesc.extra == RunExtra() && blDesc.extraBase == 0 && blDesc.maxLength == 7
              && !blDesc.hasStatic
      ensures Alphabet(Lens) == 288 && Alphabet(Dists) == 32 && Alphabet(Codes) == 19
    {
      FixedParts(0);
      hide GoodTables, GoodBases, FixedLit, FixedDist, LitExtra, DistExtra, RunExtra;
    }

    /** The literal and distance trees, built for the tokens. */
    ghost predicate TwoTrees(toks: seq<Token>, fl: seq<int>, fd: seq<int>)
      reads ts, ts.depth, lDesc, lDesc.fc, lDesc.dl, dDesc, dDesc.fc, dDesc.dl, blDesc.fc
    {
      && Shape() && Bytes(ts.depth) && Frequencies(z.maps, toks, fl, fd)
      && 256 <= lDesc.maxCode < 286 && 0 <= dDesc.maxCode < 30
      && Offers(Lens, fl, 286, CodeTree(lDesc.fc[..], lDesc.dl[..]), lDesc.maxCode + 1, 15)
      && Offers(Dists, fd, 30, CodeTree(dDesc.fc[..], dDesc.dl[..]), dDesc.maxCode + 1, 15)
      && forall s :: 0 <= s < 19 && s < blDesc.fc.Length ==> blDesc.fc[s] == 0
    }

    lemma MakeTwoTrees(toks: seq<Token>, fl: seq<int>, fd: seq<int>)
      requires Shape() && Bytes(ts.depth) && Frequencies(z.maps, toks, fl, fd)
      requires 0 <= lDesc.maxCode < 286 && 0 <= dDesc.maxCode < 30
      requires Offers(Lens, fl, 286, CodeTree(lDesc.fc[..], lDesc.dl[..]), lDesc.maxCode + 1, 15)
      requires Offers(Dists, fd, 30, CodeTree(dDesc.fc[..], dDesc.dl[..]), dDesc.maxCode + 1, 15)
      requires forall s :: 0 <= s < 19 && s < blDesc.fc.Length ==> blDesc.fc[s] == 0
      ensures TwoTrees(toks, fl, fd)
    {
      hide *;
      FrequencyParts(z.maps, toks, fl, fd);
      CountsPositive(z.maps, toks, 256);
      OffersParts(Lens, fl, 286, CodeTree(lDesc.fc[..], lDesc.dl[..]), lDesc.maxCode + 1, 15);
      PackTwoTrees(toks, fl, fd);
    }

    lemma PackTwoTrees(toks: seq<Token>, fl: seq<int>, fd: seq<int>)
      requires Shape() && Bytes(ts.depth) && Frequencies(z.maps, toks, fl, fd)
      requires 256 <= lDesc.maxCode < 286 && 0 <= dDesc.maxCode < 30
      requires Offers(Lens, fl, 286, CodeTree(lDesc.fc[..], lDesc.dl[..]), lDesc.maxCode + 1, 15)
      requires Offers(Dists, fd, 30, CodeTree(dDesc.fc[..], dDesc.dl[..]), dDesc.maxCode + 1, 15)
      requires forall s :: 0 <= s < 19 && s < blDesc.fc.Length ==> blDesc.fc[s] == 0
      ensures TwoTrees(toks, fl, fd)
    {
      hide Shape, Bytes, Frequencies, Offers;
    }

    lemma TwoTreesParts(toks: seq<Token>, fl: seq<int>, fd: seq<int>)
      requires TwoTrees(toks, fl, fd)
      ensures Shape() && Bytes(ts.depth) && Frequencies(z.maps, toks, fl, fd)
      ensures 256 <= lDesc.maxCode < 286 && 0 <= dDesc.maxCode < 30
      ensures Offers(Lens, fl, 286, CodeTree(lDesc.fc[..], lDesc.dl[..]), lDesc.maxCode + 1, 15)
      ensures Offers(Dists, fd, 30, CodeTree(dDesc.fc[..], dDesc.dl[..]), dDesc.maxCode + 1, 15)
      ensures forall s :: 0 <= s < 19 && s < blDesc.fc.Length ==> blDesc.fc[s] == 0
    {
      hide Shape, Bytes, Frequencies, Offers;
    }

    /** Build the literal and the distance tree. */
    method BuildTwo(ghost toks: seq<Token>) returns (ghost fl: seq<int>, ghost fd: seq<int>)
      requires Counting(toks) && |toks| + 3 < 0x1_0000
      modifies ts, ts.heap, ts.depth, ts.blCount, lDesc.fc, lDesc.dl, lDesc`maxCode, dDesc.fc, dDesc.dl, dDesc`maxCode
      ensures TwoTrees(toks, fl, fd) && |fl| >= 286 && |fd| >= 30 && lDesc.dl.Length >= 286 && dDesc.dl.Length >= 30
      ensures |FixedLit()| == 288 && |FixedDist()| == 32
      ensures ts.optLen == TreeBits(fl, lDesc.dl[..], LitExtra(), 257, 286)
              + TreeBits(fd, dDesc.dl[..], DistExtra(), 0, 30)
      ensures ts.staticLen == TreeBits(fl, FixedLit(), LitExtra(), 257, 286)
              + TreeBits(fd, FixedDist(), DistExtra(), 0, 30)
    {
      hide *;
      CountingParts(toks);
      ShapeParts();
      Apart();
      DescParts();
      ApartFromState(lDesc);
      ApartFromState(dDesc);
      ApartFromState(blDesc);
      fl, fd := lDesc.fc[..], dDesc.fc[..];
      FrequencyWeights(z.maps, toks, fl, fd);
      BuildOne(lDesc, Lens, fl);
      BuildOne(dDesc, Dists, fd);
      SameTreeBits(fd, FixedDist(), dDesc.stree);
      MakeTwoTrees(toks, fl, fd);
    }

    /** The last code length code to send, by its place in the order of the format. */
    method LastBl() returns (maxBlindex: int)
      requires blDesc.dl.Length >= 19
      requires exists s :: 1 <= s <= 15 && blDesc.dl[s] != 0
      ensures 3 <= maxBlindex <= 18 && |ORDER| == 19
      ensures forall i :: maxBlindex < i < 19 ==> ORDER[i] < 19 && blDesc.dl[ORDER[i]] == 0
      ensures ORDER[maxBlindex] < 19 && blDesc.dl[ORDER[maxBlindex]] != 0
    {
      hide *;
      maxBlindex := 18;
      ghost var d := blDesc.dl[..];
      OrderSize();
      while maxBlindex >= 3
        invariant 2 <= maxBlindex <= 18
        invariant forall i :: maxBlindex < i < 19 ==> ORDER[i] < 19 && d[ORDER[i]] == 0
      {
        OrderPlace(maxBlindex);
        if blDesc.dl[ORDER[maxBlindex]] != 0 {
          break;
        }
        maxBlindex := maxBlindex - 1;
      }
      if maxBlindex == 2 {
        var s :| 1 <= s <= 15 && blDesc.dl[s] != 0;
        PlaceHigh(s);
      }
    }

    static lemma OrderSize()
      ensures |ORDER| == 19
    {
    }

    static lemma PlaceHigh(s: nat)
      requires s <= 15
      ensures |ORDER| == |PLACE| == 19 && 3 <= PLACE[s] < 19 && ORDER[PLACE[s]] == s
    {
    }

    /** The lengths of both trees are scanned into the frequencies of the code length tree. */
    method ScanBoth(ghost toks: seq<Token>, ghost fl: seq<int>, ghost fd: seq<int>)
        returns (ghost ll: seq<nat>, ghost dl: seq<nat>)
      requires TwoTrees(toks, fl, fd) && |fl| >= 286 && |fd| >= 30 && lDesc.dl.Length >= 286 && dDesc.dl.Length >= 30
      modifies lDesc.dl, dDesc.dl, blDesc.fc
      ensures Scanned(toks, fl, fd, blDesc.fc[..], ll, dl)
      ensures |fl| >= 286 && |fd| >= 30 && lDesc.dl.Length >= 286 && dDesc.dl.Length >= 30
      ensures TreeBits(fl, lDesc.dl[..], LitExtra(), 257, 286) == old(TreeBits(fl, lDesc.dl[..], LitExtra(), 257, 286))
      ensures TreeBits(fd, dDesc.dl[..], DistExtra(), 0, 30) == old(TreeBits(fd, dDesc.dl[..], DistExtra(), 0, 30))
    {
      hide *;
      TwoTreesParts(toks, fl, fd);
      ShapeParts();
      Apart();
      ApartFromState(lDesc);
      ApartFromState(dDesc);
      ApartFromState(blDesc);
      ghost var nl, nd, f0 := lDesc.maxCode + 1, dDesc.maxCode + 1, blDesc.fc[..];
      ghost var d1, d2 := lDesc.dl[..], dDesc.dl[..];
      OffersParts(Lens, fl, 286, CodeTree(lDesc.fc[..], lDesc.dl[..]), nl, 15);
      OffersParts(Dists, fd, 30, CodeTree(dDesc.fc[..], dDesc.dl[..]), nd, 15);
      ll, dl := NatPart(d1, nl, 15), NatPart(d2, nd, 15);
      ScanTree(lDesc.dl, lDesc.maxCode, blDesc.fc, ll);
      ghost var f1 := blDesc.fc[..];
      ScanTree(dDesc.dl, dDesc.maxCode, blDesc.fc, dl);
      BothCounts(f0, f1, blDesc.fc[..], ll, dl);
      GuardBits(Lens, fl, 286, lDesc.fc[..], d1, lDesc.dl[..], nl, 15, LitExtra(), 257);
      GuardBits(Dists, fd, 30, dDesc.fc[..], d2, dDesc.dl[..], nd, 15, DistExtra(), 0);
      FrequencyParts(z.maps, toks, fl, fd);
      CountsPositive(z.maps, toks, 256);
      ListedAt(d1[..nl], 256);
      MakeScanned(toks, fl, fd, blDesc.fc[..], ll, dl);
    }

    static ghost function NatPart(d: seq<int>, n: nat, top: int): (s: seq<nat>)
      requires n <= |d| && top <= 15 && forall i :: 0 <= i < n ==> 0 <= d[i] <= top
      ensures |s| == n && s == d[..n] && forall i :: 0 <= i < n ==> s[i] == d[i] && s[i] < 16
    {
      var s: seq<nat> := d[..n];
      s
    }

    /** Two trees, their lengths ll and dl guarded, and the frequencies of the symbols that send these. */
    ghost predicate Scanned(toks: seq<Token>, fl: seq<int>, fd: seq<int>, fbl: seq<int>, ll: seq<nat>, dl: seq<nat>)
      reads ts, ts.depth, lDesc, lDesc.fc, lDesc.dl, dDesc, dDesc.fc, dDesc.dl
    {
      && Shape() && Bytes(ts.depth) && Frequencies(z.maps, toks, fl, fd)
      && lDesc.maxCode + 1 == |ll| && dDesc.maxCode + 1 == |dl| && 257 <= |ll| <= 286 && 1 <= |dl| <= 30
      && Offers(Lens, fl, 286, CodeTree(lDesc.fc[..], lDesc.dl[..]), |ll|, 15) && Guarded(lDesc.dl[..], ll)
      && Offers(Dists, fd, 30, CodeTree(dDesc.fc[..], dDesc.dl[..]), |dl|, 15) && Guarded(dDesc.dl[..], dl)
      && (forall k :: 0 <= k < |ll| ==> ll[k] < 16) && (forall k :: 0 <= k < |dl| ==> dl[k] < 16) && ll[256] != 0
      && |fbl| >= 19 && forall s :: 0 <= s < 19 ==> fbl[s] == SymCount(Runs(ll) + Runs(dl), s)
    }

    lemma MakeScanned(toks: seq<Token>, fl: seq<int>, fd: seq<int>, fbl: seq<int>, ll: seq<nat>, dl: seq<nat>)
      requires Shape() && Bytes(ts.depth) && Frequencies(z.maps, toks, fl, fd)
      requires lDesc.maxCode + 1 == |ll| && dDesc.maxCode + 1 == |dl| && 257 <= |ll| <= 286 && 1 <= |dl| <= 30
      requires Offers(Lens, fl, 286, CodeTree(lDesc.fc[..], lDesc.dl[..]), |ll|, 15) && Guarded(lDesc.dl[..], ll)
      requires Offers(Dists, fd, 30, CodeTree(dDesc.fc[..], dDesc.dl[..]), |dl|, 15) && Guarded(dDesc.dl[..], dl)
      requires (forall k :: 0 <= k < |ll| ==> ll[k] < 16) && (forall k :: 0 <= k < |dl| ==> dl[k] < 16) && ll[256] != 0
      requires |fbl| >= 19 && forall s :: 0 <= s < 19 ==> fbl[s] == SymCount(Runs(ll) + Runs(dl), s)
      ensures Scanned(toks, fl, fd, fbl, ll, dl)
    {
      hide Shape, Bytes, Frequencies, Offers, Guarded, SymCount, Runs;
    }

    lemma ScannedParts(toks: seq<Token>, fl: seq<int>, fd: seq<int>, fbl: seq<int>, ll: seq<nat>, dl: seq<nat>)
      requires Scanned(toks, fl, fd, fbl, ll, dl)
      ensures Shape() && Bytes(ts.depth) && Frequencies(z.maps, toks, fl, fd)
      ensures lDesc.maxCode + 1 == |ll| && dDesc.maxCode + 1 == |dl| && 257 <= |ll| <= 286 && 1 <= |dl| <= 30
      ensures Offers(Lens, fl, 286, CodeTree(lDesc.fc[..], lDesc.dl[..]), |ll|, 15) && Guarded(lDesc.dl[..], ll)
      ensures Offers(Dists, fd, 30, CodeTree(dDesc.fc[..], dDesc.dl[..]), |dl|, 15) && Guarded(dDesc.dl[..], dl)
      ensures (forall k :: 0 <= k < |ll| ==> ll[k] < 16) && (forall k :: 0 <= k < |dl| ==> dl[k] < 16) && ll[256] != 0
      ensures |fbl| >= 19 && forall s :: 0 <= s < 19 ==> fbl[s] == SymCount(Runs(ll) + Runs(dl), s)
    {
      hide Shape, Bytes, Frequencies, Offers, Guarded, SymCount, Runs;
    }

    /** `build_bl_tree`: the code length tree, and the bits of the trees' representation added to opt_len. */
    method BuildBlTree(ghost toks: seq<Token>, ghost fl: seq<int>, ghost fd: seq<int>)
        returns (maxBlindex: int, ghost r: Trio)
      requires TwoTrees(toks, fl, fd) && |fl| >= 286 && |fd| >= 30 && lDesc.dl.Length >= 286 && dDesc.dl.Length >= 30
      modifies ts, ts.heap, ts.depth, ts.blCount, lDesc.dl, dDesc.dl, blDesc.fc, blDesc.dl, blDesc`maxCode
      ensures Shape() && Bytes(ts.depth) && TrioOf(z.maps, toks, r) && r.fl == fl && r.fd == fd && 0 <= maxBlindex
              && r.n == maxBlindex + 1
      ensures r.lit == CodeTree(lDesc.fc[..], lDesc.dl[..]) && r.dist == CodeTree(dDesc.fc[..], dDesc.dl[..])
      ensures r.bl == CodeTree(blDesc.fc[..], blDesc.dl[..]) && |r.ll| == lDesc.maxCode + 1
              && |r.dl| == dDesc.maxCode + 1
      ensures |r.fbl| >= 19 && |r.bl.len| >= 19
      ensures ts.optLen == old(ts.optLen) + TreeBits(r.fbl, r.bl.len, RunExtra(), 0, 19) + 3 * r.n + 5 + 5 + 4
      ensures ts.staticLen == old(ts.staticLen)
      ensures |fl| >= 286 && |fd| >= 30 && lDesc.dl.Length >= 286 && dDesc.dl.Length >= 30
      ensures TreeBits(fl, lDesc.dl[..], LitExtra(), 257, 286) == old(TreeBits(fl, lDesc.dl[..], LitExtra(), 257, 286))
      ensures TreeBits(fd, dDesc.dl[..], DistExtra(), 0, 30) == old(TreeBits(fd, dDesc.dl[..], DistExtra(), 0, 30))
    {
      hide *;
      ghost var ll, dl := ScanBoth(toks, fl, fd);
      ghost var fbl := blDesc.fc[..];
      ScannedParts(toks, fl, fd, fbl, ll, dl);
      ShapeParts();
      Apart();
      DescParts();
      ApartFromState(lDesc);
      ApartFromState(dDesc);
      BlWeights(fbl, ll, dl);
      BuildOne(blDesc, Codes, fbl);
      ghost var bl := CodeTree(blDesc.fc[..], blDesc.dl[..]);
      SomeBl(fbl, bl, ll, dl);
      maxBlindex := LastBl();
      ts.optLen := ts.optLen + 3 * (maxBlindex + 1) + 5 + 5 + 4;
      r := Trio(fl, fd, fbl, CodeTree(lDesc.fc[..], lDesc.dl[..]), CodeTree(dDesc.fc[..], dDesc.dl[..]), bl,
                maxBlindex + 1, ll, dl);
      MakeSizes(bl, maxBlindex + 1, ll, dl);
      MakeTrio(z.maps, toks, r);
    }

    /** Some length code from 1 to 15 is in use. */
    static lemma SomeBl(fbl: seq<int>, bl: CodeTree, ll: seq<nat>, dl: seq<nat>)
      requires Offers(Codes, fbl, 19, bl, 19, 7) && |ll| > 256 && ll[256] != 0
               && forall k :: 0 <= k < |ll| ==> ll[k] < 16
      requires forall s :: 0 <= s < 19 && s < |fbl| ==> fbl[s] == SymCount(Runs(ll) + Runs(dl), s)
      ensures |bl.len| >= 19 && exists s :: 1 <= s <= 15 && bl.len[s] != 0
    {
      hide *;
      OffersParts(Codes, fbl, 19, bl, 19, 7);
      var i := SomePlain(ll, 256);
      SymCountPositive(Runs(ll), i);
      var s := Runs(ll)[i].sym;
      SymCountBoth(Runs(ll), Runs(dl), s);
      ListedAt(bl.len[..19], s);
      assert bl.len[s] != 0;
    }

    static lemma MakeTrio(m: Maps, ts: seq<Token>, r: Trio)
      requires Frequencies(m, ts, r.fl, r.fd)
      requires Offers(Lens, r.fl, 286, r.lit, |r.ll|, 15) && Guarded(r.lit.len, r.ll) && |r.lit.len| >= 286
      requires Offers(Dists, r.fd, 30, r.dist, |r.dl|, 15) && Guarded(r.dist.len, r.dl) && |r.dist.len| >= 30
      requires Offers(Codes, r.fbl, 19, r.bl, 19, 7) && HeaderSizes(r.bl, r.n, r.ll, r.dl)
      requires |r.fbl| >= 19 && forall s :: 0 <= s < 19 ==> r.fbl[s] == SymCount(Runs(r.ll) + Runs(r.dl), s)
      ensures TrioOf(m, ts, r)
    {
      hide Frequencies, Offers, Guarded, SymCount, Runs, HeaderSizes;
    }

    static lemma MakeSizes(bl: CodeTree, n: nat, ll: seq<nat>, dl: seq<nat>)
      requires 257 <= |ll| <= 286 && 1 <= |dl| <= 30 && 4 <= n <= 19 <= |bl.len|
      requires (forall k :: 0 <= k < |ll| ==> ll[k] < 16) && (forall k :: 0 <= k < |dl| ==> dl[k] < 16)
      requires |ORDER| == 19 && forall i :: n <= i < 19 ==> ORDER[i] < 19 && bl.len[ORDER[i]] == 0
      requires ORDER[n - 1] < 19 && bl.len[ORDER[n - 1]] != 0
      ensures HeaderSizes(bl, n, ll, dl)
    {
    }

    /** The three trees of the tokens, and the bits that the block takes with them and with the static trees. */
    method BuildTrees(ghost toks: seq<Token>) returns (maxBlindex: int, ghost r: Trio)
      requires Counting(toks) && |toks| + 3 < 0x1_0000
      modifies ts, ts.heap, ts.depth, ts.blCount, lDesc.fc, lDesc.dl, lDesc`maxCode, dDesc.fc, dDesc.dl, dDesc`maxCode
      modifies blDesc.fc, blDesc.dl, blDesc`maxCode
      ensures Ready(toks, maxBlindex, r)
    {
      hide *;
      ghost var fl, fd := BuildTwo(toks);
      maxBlindex, r := BuildBlTree(toks, fl, fd);
      MakeReady(toks, maxBlindex, r);
    }

    /** The trees are those of the tokens, and the counts are their bits. */
    ghost predicate Ready(toks: seq<Token>, maxBlindex: int, r: Trio)
      reads ts, ts.depth, lDesc, lDesc.fc, lDesc.dl, dDesc, dDesc.fc, dDesc.dl, blDesc, blDesc.fc, blDesc.dl
    {
      && Shape() && Bytes(ts.depth) && TrioOf(z.maps, toks, r) && Lengths(r, ts.optLen, ts.staticLen)
      && 0 <= maxBlindex && r.n == maxBlindex + 1
      && r.lit == CodeTree(lDesc.fc[..], lDesc.dl[..]) && r.dist == CodeTree(dDesc.fc[..], dDesc.dl[..])
      && r.bl == CodeTree(blDesc.fc[..], blDesc.dl[..]) && |r.ll| == lDesc.maxCode + 1 && |r.dl| == dDesc.maxCode + 1
    }

    lemma MakeReady(toks: seq<Token>, maxBlindex: int, r: Trio)
      requires Shape() && Bytes(ts.depth) && TrioOf(z.maps, toks, r) && 0 <= maxBlindex && r.n == maxBlindex + 1
      requires r.lit == CodeTree(lDesc.fc[..], lDesc.dl[..]) && r.dist == CodeTree(dDesc.fc[..], dDesc.dl[..])
      requires r.bl == CodeTree(blDesc.fc[..], blDesc.dl[..]) && |r.ll| == lDesc.maxCode + 1
               && |r.dl| == dDesc.maxCode + 1
      requires |r.fl| >= 286 && |r.fd| >= 30 && |r.fbl| >= 19 && |r.lit.len| >= 286 && |r.dist.len| >= 30
               && |r.bl.len| >= 19
      requires |FixedLit()| == 288 && |FixedDist()| == 32
      requires ts.optLen == TreeBits(r.fl, r.lit.len, LitExtra(), 257, 286)
               + TreeBits(r.fd, r.dist.len, DistExtra(), 0, 30)
                          + TreeBits(r.fbl, r.bl.len, RunExtra(), 0, 19) + 3 * r.n + 5 + 5 + 4
      requires ts.staticLen == TreeBits(r.fl, FixedLit(), LitExtra(), 257, 286)
               + TreeBits(r.fd, FixedDist(), DistExtra(), 0, 30)
      ensures Ready(toks, maxBlindex, r)
    {
      hide Shape, Bytes, TrioOf, TreeBits, LitExtra, DistExtra, RunExtra, FixedLit, FixedDist;
    }

    lemma ReadyParts(toks: seq<Token>, maxBlindex: int, r: Trio)
      requires Ready(toks, maxBlindex, r)
      ensures Shape() && Bytes(ts.depth) && TrioOf(z.maps, toks, r) && Lengths(r, ts.optLen, ts.staticLen)
      ensures 0 <= maxBlindex && r.n == maxBlindex + 1
      ensures r.lit == CodeTree(lDesc.fc[..], lDesc.dl[..]) && r.dist == CodeTree(dDesc.fc[..], dDesc.dl[..])
      ensures r.bl == CodeTree(blDesc.fc[..], blDesc.dl[..]) && |r.ll| == lDesc.maxCode + 1
              && |r.dl| == dDesc.maxCode + 1
    {
      hide Shape, Bytes, TrioOf, Lengths;
    }

    // ----- blocks

    /** The pieces that a block adds to those sent. */
    ghost predicate Adds1(before: seq<Piece>, b: Block, eof: bool)
      reads w`sent
    {
      ValidBlock(z, b) && w.sent == before + BlockBits(z, b, eof, Width(before))
    }

    /** The block, or as much of it as was sent before its output reached its tokens, is no longer than the block. */
    ghost predicate AddsUpTo(before: seq<Piece>, b: Block, eof: bool)
      reads w`sent
    {
      ValidBlock(z, b) && Width(w.sent) <= Width(before) + Width(BlockBits(z, b, eof, Width(before)))
    }

    lemma AddsWithin(before: seq<Piece>, b: Block, eof: bool)
      requires Adds1(before, b, eof)
      ensures AddsUpTo(before, b, eof)
    {
      WidthAppend(before, BlockBits(z, b, eof, Width(before)));
      hide ValidBlock, BlockBits, Width;
    }

    lemma AddsUpToParts(before: seq<Piece>, b: Block, eof: bool)
      requires AddsUpTo(before, b, eof)
      ensures ValidBlock(z, b) && Width(w.sent) <= Width(before) + Width(BlockBits(z, b, eof, Width(before)))
    {
      hide ValidBlock, BlockBits, Width;
    }

    /** Part of a block. */
    lemma PartWithin(before: seq<Piece>, head: seq<Piece>, part: seq<Piece>, rest: seq<Piece>, b: Block, eof: bool)
      requires ValidBlock(z, b) && BlockBits(z, b, eof, Width(before)) == head + rest && w.sent == before + head + part
      requires Width(part) <= Width(rest)
      ensures AddsUpTo(before, b, eof)
    {
      hide ValidBlock, BlockBits, Width;
      WidthAppend(before + head, part);
      WidthAppend(before, head);
      WidthAppend(head, rest);
    }

    /** `_tr_stored_block` */
    method StoredOut(buf: seq<Byte>, eof: bool)
      requires w.Valid() && |buf| <= 0xFFFF
      modifies w, `log, `left, `lastEobLen
      ensures w.Valid() && Adds1(old(w.sent), StoredBlock(buf), eof) && w.biValid == 0 && Grows(old(w.Now()), w.Now())
      ensures log == old(log) + [StoredBlock(buf)] && left == old(left) + [old(w.biValid)]
    {
      hide *;
      TypeBits(0, eof);
      ghost var s, first := w.sent, w.Now();
      left := left + [w.biValid];
      w.SendBits(2 * 0 + (if eof then 1 else 0), 3);
      ghost var second := w.Now();
      ExtendsGrows(first, second);
      WidthAppend(s, [Piece(Bit1(eof), 3)]);
      WidthOne(Piece(Bit1(eof), 3));
      w.CopyBlock(buf);
      GrowsOn(first, second, w.Now());
      StoredValid(z, buf);
      StoredIs(z, buf, eof, Width(s));
      StoredPiecesAre(buf, eof, Width(s));
      ghost var head, tail := [Piece(Bit1(eof), 3)],
                              Padding(Width(s) + 3) + ([Piece(|buf|, 16), Piece(0xFFFF - |buf|, 16)] + BytePieces(buf));
      assert s + head + tail == s + (head + tail);
      MakeAdds(s, StoredBlock(buf), eof);
      lastEobLen := 8;
      log := log + [StoredBlock(buf)];
    }

    static lemma TypeBits(kind: int, eof: bool)
      requires 0 <= kind <= 2
      ensures 0 <= 2 * kind + Bit1(eof) < Pow2(3) && Bit1(eof) == if eof then 1 else 0
    {
      assert Pow2(3) == 8;
    }

    lemma MakeAdds(before: seq<Piece>, b: Block, eof: bool)
      requires ValidBlock(z, b) && w.sent == before + BlockBits(z, b, eof, Width(before))
      ensures Adds1(before, b, eof)
    {
      hide ValidBlock, BlockBits, Width;
    }

    /** What the two methods that send tokens do: all of the block, unless its output reaches its tokens. */
    ghost predicate Sent(before: seq<Piece>, b: Block, eof: bool, bits: nat, ok: bool)
      reads w`sent
    {
      AddsUpTo(before, b, eof) && (ok ==> Adds1(before, b, eof)) && ok == !Overtakes(z, b, bits, litBufsize)
    }

    lemma MakeSent(before: seq<Piece>, b: Block, eof: bool, bits: nat, ok: bool)
      requires AddsUpTo(before, b, eof) && (ok ==> Adds1(before, b, eof)) && ValidBlock(z, b)
      requires ok == !Overtakes(z, b, bits, litBufsize)
      ensures Sent(before, b, eof, bits, ok)
    {
      hide AddsUpTo, Adds1, Overtakes, ValidBlock;
    }

    lemma SentParts(before: seq<Piece>, b: Block, eof: bool, bits: nat, ok: bool)
      requires Sent(before, b, eof, bits, ok)
      ensures AddsUpTo(before, b, eof) && (ok ==> Adds1(before, b, eof)) && ValidBlock(z, b)
      ensures ok == !Overtakes(z, b, bits, litBufsize)
    {
      hide Adds1, Overtakes, ValidBlock, BlockBits;
    }

    /** The header of a block leaves the tokens behind the pending bytes as they were. */
    static lemma StillBehind(first: Snap, now: Snap)
      requires Extends(first, now) && first.pending == 0
      ensures now.pending % 2 == 0 && |now.mem| == |first.mem|
      ensures forall i :: now.pending <= i < |first.mem| ==> now.mem[i] == first.mem[i]
    {
    }

    /** A static block. */
    method StaticOut(eof: bool, ghost toks: seq<Token>) returns (ok: bool)
      requires Shape() && w.Valid() && AllProper(toks) && Tallied(toks) && w.pending == 0
      modifies w, `log, `left, `lastEobLen
      ensures w.Valid() && Sent(old(w.sent), StaticBlock(toks), eof, old(w.biValid), ok) && Grows(old(w.Now()), w.Now())
      ensures log == old(log) + [StaticBlock(toks)] && left == old(left) + [old(w.biValid)]
    {
      hide *;
      ShapeParts();
      TypeBits(1, eof);
      StaticValid(z, toks);
      TalliedParts(toks);
      ghost var s, first, bits := w.sent, w.Now(), w.biValid;
      w.ValidKept();
      w.WidthNow();
      StaticBits(z, toks, eof, Width(s));
      left := left + [w.biValid];
      w.SendBits(2 * 1 + (if eof then 1 else 0), 3);
      ghost var second := w.Now();
      w.NowIs();
      StillBehind(first, second);
      ExtendsGrows(first, second);
      w.SentWidth(s, first, [Piece(2 + Bit1(eof), 3)]);
      WidthOne(Piece(2 + Bit1(eof), 3));
      ok := CompressBlock(w, z.maps, baseLength, baseDist, litBufsize, lastLit, z.lit, z.dist, toks, first.mem);
      ExtendsOn(first, second, w.Now());
      ExtendsGrows(first, w.Now());
      ghost var h, a, e := [Piece(2 + Bit1(eof), 3)], TokensPieces(z.maps, toks, z.lit, z.dist),
                           [CodePiece(z.lit, 256)];
      StaticOvertakes(z, toks, bits, litBufsize);
      if ok {
        assert s + h + a + e == s + (h + (a + e));
        MakeAdds(s, StaticBlock(toks), eof);
        AddsWithin(s, StaticBlock(toks), eof);
      } else {
        ghost var part := ReachedPart(z.maps, toks, z.lit, z.dist, s + h, w.sent, litBufsize, w.pending);
        WidthAppend(a, e);
        PartWithin(s, h, part, a + e, StaticBlock(toks), eof);
      }
      MakeSent(s, StaticBlock(toks), eof, bits, ok);
      lastEobLen := z.lit.len[256];
      log := log + [StaticBlock(toks)];
    }

    /** What was sent of the tokens before the output reached the next of them. */
    static lemma ReachedPart(mp: Maps, ts: seq<Token>, lit: CodeTree, dist: CodeTree, before: seq<Piece>,
                             sent: seq<Piece>,
                             size: nat, pending: nat) returns (part: seq<Piece>)
      requires AllSendable(mp, ts, lit, dist) && Reached(mp, ts, lit, dist, before, sent, size, pending)
      ensures sent == before + part && Width(part) <= Width(TokensPieces(mp, ts, lit, dist))
    {
      var k :| 0 <= k < |ts| && pending > size + 2 * k && sent == before + TokensPieces(mp, ts[..k], lit, dist);
      FirstCosts(mp, ts, k, lit, dist);
      part := TokensPieces(mp, ts[..k], lit, dist);
    }

    /** The type of a dynamic block, and its trees. */
    method HeaderOut(eof: bool, maxBlindex: int, ghost toks: seq<Token>, ghost r: Trio)
      requires Ready(toks, maxBlindex, r) && w.Valid() && w.pending == 0 && Describes(r.bl, r.n, r.ll, r.dl)
      modifies w
      ensures w.Valid() && Extends(old(w.Now()), w.Now()) && w.biValid >= 1
      ensures w.sent == old(w.sent) + [Piece(4 + Bit1(eof), 3)] + TreesPieces(r.bl, r.n, r.ll, r.dl)
      ensures 8 * w.pending + w.biValid == old(w.biValid) + 3 + Width(TreesPieces(r.bl, r.n, r.ll, r.dl))
    {
      hide *;
      ReadyParts(toks, maxBlindex, r);
      ShapeParts();
      TypeBits(2, eof);
      TrioParts(z.maps, toks, r);
      TrioValid(z, toks, r, ts.optLen, ts.staticLen, eof, 0);
      ghost var s, first := w.sent, w.Now();
      w.ValidKept();
      w.WidthNow();
      w.NowIs();
      w.SendBits(2 * 2 + (if eof then 1 else 0), 3);
      ghost var second := w.Now();
      w.NowIs();
      SendAllTrees(w, lDesc.dl[..], dDesc.dl[..], CodeTree(blDesc.fc[..], blDesc.dl[..]), lDesc.maxCode + 1,
                   dDesc.maxCode + 1,
                   maxBlindex + 1, r.ll, r.dl);
      w.NowIs();
      ExtendsGrows(second, w.Now());
      ExtendsOn(first, second, w.Now());
      ExtendsGrows(first, w.Now());
      ghost var h, t := [Piece(4 + Bit1(eof), 3)], TreesPieces(r.bl, r.n, r.ll, r.dl);
      assert s + h + t == s + (h + t);
      w.SentWidth(s, first, h + t);
      WidthAppend(h, t);
      WidthOne(Piece(4 + Bit1(eof), 3));
    }

    /** A dynamic block. */
    method DynamicOut(eof: bool, maxBlindex: int, ghost toks: seq<Token>, ghost r: Trio) returns (ok: bool)
      requires Ready(toks, maxBlindex, r) && w.Valid() && Tallied(toks) && w.pending == 0
      modifies w, `log, `left, `lastEobLen
      ensures w.Valid() && Sent(old(w.sent), DynamicOf(toks, r), eof, old(w.biValid), ok)
              && Grows(old(w.Now()), w.Now())
      ensures log == old(log) + [DynamicOf(toks, r)] && left == old(left) + [old(w.biValid)]
    {
      hide *;
      ReadyParts(toks, maxBlindex, r);
      ShapeParts();
      TypeBits(2, eof);
      TrioValid(z, toks, r, ts.optLen, ts.staticLen, eof, 0);
      TrioParts(z.maps, toks, r);
      TalliedParts(toks);
      ghost var s, first, bits := w.sent, w.Now(), w.biValid;
      w.ValidKept();
      w.WidthNow();
      DynamicBits(z, toks, r, eof, Width(s));
      left := left + [w.biValid];
      HeaderOut(eof, maxBlindex, toks, r);
      ghost var third := w.Now();
      w.NowIs();
      ExtendsGrows(first, third);
      StillBehind(first, third);
      ghost var h, t, a, e := [Piece(4 + Bit1(eof), 3)], TreesPieces(r.bl, r.n, r.ll, r.dl),
                              TokensPieces(z.maps, toks, r.lit, r.dist),
                              [CodePiece(r.lit, 256)];
      ok := CompressBlock(w, z.maps, baseLength, baseDist, litBufsize, lastLit, CodeTree(lDesc.fc[..], lDesc.dl[..]),
                          CodeTree(dDesc.fc[..], dDesc.dl[..]), toks, first.mem);
      ExtendsOn(first, third, w.Now());
      ExtendsGrows(first, w.Now());
      DynamicOvertakes(z, toks, r, bits, litBufsize);
      if ok {
        assert s + h + t + a + e == s + (h + (t + (a + e)));
        MakeAdds(s, DynamicOf(toks, r), eof);
        AddsWithin(s, DynamicOf(toks, r), eof);
      } else {
        ghost var part := ReachedPart(z.maps, toks, r.lit, r.dist, s + h + t, w.sent, litBufsize, w.pending);
        WidthAppend(a, e);
        assert s + h + t + part == s + (h + t) + part && h + (t + (a + e)) == (h + t) + (a + e);
        PartWithin(s, h + t, part, a + e, DynamicOf(toks, r), eof);
      }
      MakeSent(s, DynamicOf(toks, r), eof, bits, ok);
      lastEobLen := lDesc.dl[256];
      log := log + [DynamicOf(toks, r)];
    }

    /** What a block says: the stored bytes, or the tokens. */
    static ghost predicate Says(b: Block, toks: seq<Token>, buf: Option<seq<Byte>>) {
      match b
      case StoredBlock(bytes) => buf == Some(bytes)
      case StaticBlock(ts) => ts == toks
      case DynamicBlock(ts, _, _, _, _, _, _) => ts == toks
    }

    /**
     The choice by size in bytes: stored when that may be the shortest, else static when no longer than dynamic.
     */
    static ghost predicate Chosen(b: Block, buf: Option<seq<Byte>>, storedLen: nat, fixedOnly: bool, opt: int,
                                  fixed: int) {
      var o, f := (opt + 3 + 7) / 8, (fixed + 3 + 7) / 8;
      && (b.StoredBlock? <==> buf.Some? && storedLen + 4 <= o && storedLen + 4 <= f)
      && (b.StaticBlock? <==> !b.StoredBlock? && (fixedOnly || f <= o))
    }

    /** What sending a block does to the stream, and to whether it is spoiled; at its end the last byte is filled. */
    ghost predicate Flushed(before: seq<Piece>, b: Block, eof: bool, bits: nat, was: bool)
      reads w`sent, w`biValid, `spoiled
    {
      && ValidBlock(z, b) && spoiled == (was || Overtakes(z, b, bits, litBufsize))
      && (!spoiled ==>
            var sent' := before + BlockBits(z, b, eof, Width(before));
            w.sent == if eof then sent' + Padding(Width(sent')) else sent')
      && (eof || b.StoredBlock? ==> w.biValid == 0)
      && Width(w.sent) <= Width(before) + Width(BlockBits(z, b, eof, Width(before)))
      + (if eof && !b.StoredBlock? then 7 else 0)
    }

    lemma FlushedParts(before: seq<Piece>, b: Block, eof: bool, bits: nat, was: bool)
      requires Flushed(before, b, eof, bits, was)
      ensures ValidBlock(z, b) && spoiled == (was || Overtakes(z, b, bits, litBufsize))
      ensures !spoiled ==>
                var sent' := before + BlockBits(z, b, eof, Width(before));
                w.sent == if eof then sent' + Padding(Width(sent')) else sent'
      ensures eof || b.StoredBlock? ==> w.biValid == 0
      ensures Width(w.sent) <= Width(before) + Width(BlockBits(z, b, eof, Width(before)))
              + (if eof && !b.StoredBlock? then 7 else 0)
    {
      hide ValidBlock, Overtakes, BlockBits, Width, Padding;
    }

    lemma MakeFlushed(before: seq<Piece>, b: Block, eof: bool, bits: nat, was: bool)
      requires ValidBlock(z, b) && spoiled == (was || Overtakes(z, b, bits, litBufsize))
      requires !spoiled ==>
                 var sent' := before + BlockBits(z, b, eof, Width(before));
                 w.sent == if eof then sent' + Padding(Width(sent')) else sent'
      requires eof || b.StoredBlock? ==> w.biValid == 0
      requires Width(w.sent) <= Width(before) + Width(BlockBits(z, b, eof, Width(before)))
               + (if eof && !b.StoredBlock? then 7 else 0)
      ensures Flushed(before, b, eof, bits, was)
    {
      hide ValidBlock, Overtakes, BlockBits, Width, Padding;
    }

    /**
     `_tr_flush_block`: the tokens as a stored, static or dynamic block, whichever is the shortest; a static
     block takes three bits more than static_len, a dynamic one three more than opt_len. The stream is spoiled
     if and only if the output of the block reaches the memory of a token before that is read.
     */
    method FlushBlock(buf: Option<seq<Byte>>, storedLen: nat, eof: bool, level: nat, fixedOnly: bool,
                      ghost toks: seq<Token>)
      returns (ghost b: Block, ghost r: Trio, ghost opt: int, ghost fixed: int)
      requires Counting(toks) && Tallied(toks) && w.Valid() && w.pending == 0 && |toks| + 3 < 0x1_0000
      requires buf.Some? ==> |buf.value| == storedLen <= 0xFFFF
      requires level == 0 ==> buf.Some?
      modifies footprint
      ensures Counting([]) && Tallied([]) && w.Valid() && Grows(old(w.Now()), w.Now())
      ensures log == old(log) + [b] && left == old(left) + [old(w.biValid)] && short == old(short)
      ensures Formed(z, b, toks, buf, storedLen, level, fixedOnly, r, opt, fixed, eof, Width(old(w.sent)))
      ensures Flushed(old(w.sent), b, eof, old(w.biValid), old(spoiled))
    {
      hide *;
      CountingParts(toks);
      TalliedParts(toks);
      FootprintIs();
      ghost var before, first, bits := w.sent, w.Now(), w.biValid;
      w.NowIs();
      var ok, optLenb, staticLenb, maxBlindex;
      optLenb, staticLenb, maxBlindex, r, opt, fixed := Weigh(storedLen, level, toks);
      ok, b := SendBlock(buf, storedLen, eof, level, fixedOnly, optLenb, staticLenb, maxBlindex, toks, r, opt, fixed);
      ghost var was := spoiled;
      spoiled := spoiled || !ok;
      EndOfBlock(first);
      SentMeans(before, b, eof, bits, ok);
      if eof {
        WindUp(first);
      }
      MakeFlushed(before, b, eof, bits, was);
    }

    lemma SentMeans(before: seq<Piece>, b: Block, eof: bool, bits: nat, ok: bool)
      requires Sent(before, b, eof, bits, ok)
      ensures ValidBlock(z, b) && ok == !Overtakes(z, b, bits, litBufsize)
      ensures ok ==> w.sent == before + BlockBits(z, b, eof, Width(before))
      ensures Width(w.sent) <= Width(before) + Width(BlockBits(z, b, eof, Width(before)))
    {
      hide *;
      SentParts(before, b, eof, bits, ok);
      AddsUpToParts(before, b, eof);
      if ok {
        AddsParts(before, b, eof);
      }
    }

    /** `bi_windup` at the end of the stream. */
    method WindUp(ghost first: Snap)
      requires w.Valid() && Tallied([]) && Grows(first, w.Now())
      modifies w
      ensures w.Valid() && Tallied([]) && Grows(first, w.Now()) && w.biValid == 0
      ensures w.sent == old(w.sent) + Padding(Width(old(w.sent)))
      ensures Width(w.sent) <= Width(old(w.sent)) + (if old(w.biValid) == 0 then 0 else 7)
    {
      hide *;
      ghost var middle, sent := w.Now(), w.sent;
      TalliedParts([]);
      w.ValidKept();
      w.WidthNow();
      w.BiWindup();
      GrowsOn(first, middle, w.Now());
      WidthAppend(sent, Padding(Width(sent)));
      w.NowIs();
      GrowsParts(middle, w.Now());
      PadWidth(Width(sent));
      NoneTallied();
    }

    /** The sizes in bytes that decide the form of a block, with the trees if it may have any. */
    method Weigh(storedLen: nat, level: nat, ghost toks: seq<Token>)
      returns (optLenb: int, staticLenb: int, maxBlindex: int, ghost r: Trio, ghost opt: int, ghost fixed: int)
      requires Counting(toks) && |toks| + 3 < 0x1_0000
      modifies ts, ts.heap, ts.depth, ts.blCount, lDesc.fc, lDesc.dl, lDesc`maxCode, dDesc.fc, dDesc.dl, dDesc`maxCode
      modifies blDesc.fc, blDesc.dl, blDesc`maxCode
      ensures Shape() && Bytes(ts.depth)
      ensures level == 0 ==> optLenb == storedLen + 5
      ensures level > 0 ==> Ready(toks, maxBlindex, r) && opt == ts.optLen && fixed == ts.staticLen
      ensures level > 0 ==> staticLenb == (fixed + 3 + 7) / 8
                            && optLenb == if staticLenb <= (opt + 3 + 7) / 8 then staticLenb else (opt + 3 + 7) / 8
    {
      hide *;
      CountingParts(toks);
      r, opt, fixed := *, 0, 0;
      optLenb, staticLenb, maxBlindex := storedLen + 5, storedLen + 5, 0;
      if level > 0 {
        maxBlindex, r := BuildTrees(toks);
        ReadyParts(toks, maxBlindex, r);
        opt, fixed := ts.optLen, ts.staticLen;
        optLenb := (ts.optLen + 3 + 7) / 8;
        staticLenb := (ts.staticLen + 3 + 7) / 8;
        if staticLenb <= optLenb {
          optLenb := staticLenb;
        }
      }
    }

    /** The choice of the form of a block. */
    method SendBlock(buf: Option<seq<Byte>>, storedLen: nat, eof: bool, level: nat, fixedOnly: bool, optLenb: int,
                     staticLenb: int,
                     maxBlindex: int, ghost toks: seq<Token>, ghost r: Trio, ghost opt: int, ghost fixed: int)
      returns (ok: bool, ghost b: Block)
      requires Shape() && Bytes(ts.depth) && Tallied(toks) && w.Valid() && w.pending == 0
      requires buf.Some? ==> |buf.value| == storedLen <= 0xFFFF
      requires level == 0 ==> buf.Some? && optLenb == storedLen + 5
      requires level > 0 ==> Ready(toks, maxBlindex, r) && opt == ts.optLen && fixed == ts.staticLen
      requires level > 0 ==> staticLenb == (fixed + 3 + 7) / 8
                             && optLenb == if staticLenb <= (opt + 3 + 7) / 8 then staticLenb else (opt + 3 + 7) / 8
      modifies w, `log, `left, `lastEobLen
      ensures w.Valid() && Grows(old(w.Now()), w.Now()) && log == old(log) + [b] && left == old(left) + [old(w.biValid)]
      ensures Formed(z, b, toks, buf, storedLen, level, fixedOnly, r, opt, fixed, eof, Width(old(w.sent)))
      ensures Sent(old(w.sent), b, eof, old(w.biValid), ok) && (b.StoredBlock? ==> w.biValid == 0)
    {
      hide *;
      SaysEach(toks, buf);
      ghost var before, bits := w.sent, w.biValid;
      if level > 0 {
        ReadyParts(toks, maxBlindex, r);
        TrioParts(z.maps, toks, r);
        FrequencyParts(z.maps, toks, r.fl, r.fd);
      }
      ok := true;
      if storedLen + 4 <= optLenb && buf.Some? {
        StoredOut(buf.value, eof);
        b := StoredBlock(buf.value);
        StoredOk(before, buf.value, eof, bits);
      } else if fixedOnly || staticLenb == optLenb {
        ok := StaticOut(eof, toks);
        b := StaticBlock(toks);
        StaticOk(before, toks, r, opt, fixed, eof, bits, ok);
      } else {
        ok := DynamicOut(eof, maxBlindex, toks, r);
        b := DynamicOf(toks, r);
        DynamicOk(before, toks, r, opt, fixed, eof);
      }
      SentParts(before, b, eof, bits, ok);
      if level > 0 {
        MakeChosen(b, buf, storedLen, fixedOnly, opt, fixed, optLenb, staticLenb);
      }
      MakeFormed(z, b, toks, buf, storedLen, level, fixedOnly, r, opt, fixed, eof, Width(before));
    }

    /** `init_block`, with no tokens tallied. */
    method EndOfBlock(ghost first: Snap)
      requires Shape() && Bytes(ts.depth) && Grows(first, w.Now()) && |first.mem| == 4 * litBufsize
      modifies ts`optLen, ts`staticLen, lDesc.fc, dDesc.fc, blDesc.fc, `lastLit
      ensures Counting([]) && Tallied([])
    {
      hide *;
      InitBlock();
      lastLit := 0;
      w.NowIs();
      GrowsParts(first, w.Now());
      NoneTallied();
    }

    /** A stored block is always sent. */
    lemma StoredOk(before: seq<Piece>, buf: seq<Byte>, eof: bool, bits: nat)
      requires Adds1(before, StoredBlock(buf), eof)
      ensures Sent(before, StoredBlock(buf), eof, bits, true)
    {
      AddsWithin(before, StoredBlock(buf), eof);
      hide Adds1, AddsUpTo;
      AddsParts(before, StoredBlock(buf), eof);
      StoredNever(z, buf, bits, litBufsize);
      hide Overtakes;
    }

    lemma AddsParts(before: seq<Piece>, b: Block, eof: bool)
      requires Adds1(before, b, eof)
      ensures ValidBlock(z, b) && w.sent == before + BlockBits(z, b, eof, Width(before))
    {
      hide ValidBlock, BlockBits, Width;
    }

    static lemma SaysEach(toks: seq<Token>, buf: Option<seq<Byte>>)
      ensures buf.Some? ==> Says(StoredBlock(buf.value), toks, buf)
      ensures Says(StaticBlock(toks), toks, buf)
      ensures forall r: Trio :: Says(DynamicOf(toks, r), toks, buf) && DynamicOf(toks, r).DynamicBlock?
    {
    }

    static lemma MakeChosen(b: Block, buf: Option<seq<Byte>>, storedLen: nat, fixedOnly: bool, opt: int, fixed: int,
                            optLenb: int, staticLenb: int)
      requires staticLenb == (fixed + 3 + 7) / 8 && optLenb == if staticLenb <= (opt + 3 + 7) / 8 then staticLenb
               else (opt + 3 + 7) / 8
      requires b.StoredBlock? <==> buf.Some? && storedLen + 4 <= optLenb
      requires b.StaticBlock? <==> !b.StoredBlock? && (fixedOnly || staticLenb == optLenb)
      ensures Chosen(b, buf, storedLen, fixedOnly, opt, fixed)
    {
    }

    /** The size of a static block. */
    lemma StaticOk(before: seq<Piece>, toks: seq<Token>, r: Trio, opt: int, fixed: int, eof: bool, bits: nat, ok: bool)
      requires Shape() && Sent(before, StaticBlock(toks), eof, bits, ok) && TrioOf(z.maps, toks, r)
               && Lengths(r, opt, fixed)
      ensures ValidBlock(z, StaticBlock(toks))
              && Width(BlockBits(z, StaticBlock(toks), eof, Width(before))) == 3 + fixed
    {
      hide *;
      ShapeParts();
      SentParts(before, StaticBlock(toks), eof, bits, ok);
      StaticWidth(z, toks, r, opt, fixed, eof, Width(before));
    }

    /** The size of a dynamic block. */
    lemma DynamicOk(before: seq<Piece>, toks: seq<Token>, r: Trio, opt: int, fixed: int, eof: bool)
      requires Shape() && TrioOf(z.maps, toks, r) && Lengths(r, opt, fixed)
      ensures ValidBlock(z, DynamicOf(toks, r))
              && Width(BlockBits(z, DynamicOf(toks, r), eof, Width(before))) == 3 + opt
    {
      hide *;
      ShapeParts();
      TrioValid(z, toks, r, opt, fixed, eof, Width(before));
    }

    // ----- the stream

    /** The stream is that of the blocks so far. */
    ghost predicate Open()
      reads `log, w`sent
    {
      ValidLog(z, log) && w.sent == OpenBits(z, log)
    }

    /** The stream is complete, and fills its last byte. */
    ghost predicate Closed()
      reads `log, w`sent, w`biValid
    {
      w.biValid == 0 && log != [] && ValidLog(z, log) && w.sent == ClosedBits(z, log)
    }

    lemma OpenParts()
      requires Open()
      ensures ValidLog(z, log) && w.sent == OpenBits(z, log)
    {
      hide ValidLog;
    }

    lemma MakeOpen()
      requires ValidLog(z, log) && w.sent == OpenBits(z, log)
      ensures Open()
    {
      hide ValidLog;
    }

    lemma MakeClosed()
      requires w.biValid == 0 && log != [] && ValidLog(z, log) && w.sent == ClosedBits(z, log)
      ensures Closed()
    {
      hide ValidLog;
    }

    lemma ClosedParts()
      requires Closed()
      ensures w.biValid == 0 && log != [] && ValidLog(z, log) && w.sent == ClosedBits(z, log)
    {
      hide ValidLog;
    }

    /** The blocks whose output has reached their tokens are what spoils the stream. */
    ghost predicate Recorded()
      reads `log, `left, `spoiled
    {
      && |left| == |log| && (forall i :: 0 <= i < |log| ==> ValidBlock(z, log[i]))
      && (spoiled <==> exists i :: 0 <= i < |log| && Overtakes(z, log[i], left[i], litBufsize))
    }

    lemma RecordedAt(i: nat)
      requires Recorded() && i < |log|
      ensures ValidBlock(z, log[i])
    {
      hide ValidBlock, Overtakes;
    }

    /** The bits sent are little more than nine for each byte of the data, and some for each short block. */
    ghost predicate Compact(data: seq<Byte>)
      reads `short, w`sent
    {
      127 * Width(w.sent) <= 1153 * |data| + 5334 * short
    }

    lemma CompactIs(data: seq<Byte>)
      ensures Compact(data) <==> 127 * Width(w.sent) <= 1153 * |data| + 5334 * short
    {
      hide Width;
    }

    /** The stream is that of the blocks so far, which stand for the data, unless it is spoiled. */
    ghost predicate Streaming(data: seq<Byte>)
      reads `log, `left, `spoiled, `short, w`sent
    {
      Recorded() && Compact(data) && (!spoiled ==> Open() && Output(log) == data)
    }

    /** The stream is complete. */
    ghost predicate Streamed(data: seq<Byte>)
      reads `log, `left, `spoiled, `short, w`sent, w`biValid
    {
      Recorded() && Compact(data) && w.biValid == 0 && (!spoiled ==> Closed() && Output(log) == data)
    }

    lemma StreamingParts(data: seq<Byte>)
      requires Streaming(data)
      ensures Recorded() && Compact(data) && (!spoiled ==> Open() && Output(log) == data)
    {
      hide Recorded, Compact, Open, Output;
    }

    lemma MakeStreaming(data: seq<Byte>)
      requires Recorded() && Compact(data) && (!spoiled ==> Open() && Output(log) == data)
      ensures Streaming(data)
    {
      hide Recorded, Compact, Open, Output;
    }

    lemma StreamedParts(data: seq<Byte>)
      requires Streamed(data)
      ensures Recorded() && Compact(data) && w.biValid == 0 && (!spoiled ==> Closed() && Output(log) == data)
    {
      hide Recorded, Compact, Closed, Output;
    }

    lemma MakeStreamed(data: seq<Byte>)
      requires Recorded() && Compact(data) && w.biValid == 0 && (!spoiled ==> Closed() && Output(log) == data)
      ensures Streamed(data)
    {
      hide Recorded, Compact, Closed, Output;
    }

    twostate lemma RecordMore(new b: Block, new bits: nat)
      requires old(Recorded()) && log == old(log) + [b] && left == old(left) + [bits] && ValidBlock(z, b)
      requires spoiled == (old(spoiled) || Overtakes(z, b, bits, litBufsize))
      ensures Recorded()
    {
      hide Overtakes, ValidBlock;
      var n := |old(log)|;
      assert log[n] == b && left[n] == bits;
      forall i | 0 <= i < n ensures log[i] == old(log)[i] && left[i] == old(left)[i] {
      }
      if old(spoiled) {
        var i :| 0 <= i < n && Overtakes(z, old(log)[i], old(left)[i], litBufsize);
        assert Overtakes(z, log[i], left[i], litBufsize);
      }
    }

    /**
     Blocks that cannot reach their tokens: stored ones, near matches with the static trees, literals, and few bytes.
     */
    ghost predicate Mild(level: nat, fixedOnly: bool, toks: seq<Token>) {
      level == 0 || Slow(fixedOnly, toks, litBufsize)
    }

    /**
     What a block does: it joins the blocks before, the stream now stands for `next`, and it is not spoiled by a
     block that cannot reach its tokens; one that is not full counts as short.
     */
    ghost predicate Emitted(first: Snap, l: seq<Block>, b: Block, toks: seq<Token>, buf: Option<seq<Byte>>,
                            told: seq<Byte>,
                            next: seq<Byte>, eof: bool, level: nat, fixedOnly: bool, was: bool, short0: nat)
      reads footprint
    {
      && Shape() && Counting([]) && Tallied([]) && w.Valid() && Grows(first, w.Now()) && w.pending <= |w.mem|
      && (if eof then Streamed(next) else Streaming(next))
      && log == l + [b] && Says(b, toks, buf) && (level == 0 ==> b.StoredBlock? && w.biValid == 0)
      && (Mild(level, fixedOnly, toks) ==> spoiled == was) && (was ==> spoiled)
      && short == short0 + (if eof || |next| < |told| + 127 then 1 else 0)
    }

    lemma EmittedParts(first: Snap, l: seq<Block>, b: Block, toks: seq<Token>, buf: Option<seq<Byte>>, told: seq<Byte>,
                       next: seq<Byte>, eof: bool, level: nat, fixedOnly: bool, was: bool, short0: nat)
      requires Emitted(first, l, b, toks, buf, told, next, eof, level, fixedOnly, was, short0)
      ensures Counting([]) && Tallied([]) && w.Valid() && Grows(first, w.Now()) && w.pending <= |w.mem|
      ensures (if eof then Streamed(next) else Streaming(next))
      ensures log == l + [b] && Says(b, toks, buf) && (level == 0 ==> b.StoredBlock? && w.biValid == 0)
      ensures (Mild(level, fixedOnly, toks) ==> spoiled == was) && (was ==> spoiled)
      ensures short == short0 + (if eof || |next| < |told| + 127 then 1 else 0)
    {
      hide Shape, Counting, Tallied, w.Valid, Streamed, Streaming, Says, Mild, Grows;
    }

    lemma MakeEmitted(first: Snap, l: seq<Block>, b: Block, toks: seq<Token>, buf: Option<seq<Byte>>, told: seq<Byte>,
                      next: seq<Byte>, eof: bool, level: nat, fixedOnly: bool, was: bool, short0: nat)
      requires Shape() && Counting([]) && Tallied([]) && w.Valid() && Grows(first, w.Now()) && w.pending <= |w.mem|
      requires (if eof then Streamed(next) else Streaming(next))
      requires log == l + [b] && Says(b, toks, buf) && (level == 0 ==> b.StoredBlock? && w.biValid == 0)
      requires (Mild(level, fixedOnly, toks) ==> spoiled == was) && (was ==> spoiled)
      requires short == short0 + (if eof || |next| < |told| + 127 then 1 else 0)
      ensures Emitted(first, l, b, toks, buf, told, next, eof, level, fixedOnly, was, short0)
    {
      hide Shape, Counting, Tallied, w.Valid, Streamed, Streaming, Says, Mild, Grows;
    }

    /** A block behind the blocks before; whichever form it takes, it brings the output to `next`. */
    method Emit(buf: Option<seq<Byte>>, storedLen: nat, eof: bool, level: nat, fixedOnly: bool, ghost toks: seq<Token>,
                ghost told: seq<Byte>, ghost next: seq<Byte>)
      returns (ghost b: Block)
      requires Counting(toks) && Tallied(toks) && w.Valid() && w.pending == 0 && Streaming(told)
               && |toks| + 3 < 0x1_0000
      requires level > 0 ==> Grounded(told, toks) && PutAll(told, toks) == next && |toks| < litBufsize
      requires buf.Some? ==> |buf.value| == storedLen <= 0xFFFF && told + buf.value == next
      requires level == 0 ==> buf.Some? && w.biValid <= 5 && storedLen + 5 <= 4 * litBufsize
      modifies footprint
      ensures Emitted(old(w.Now()), old(log), b, toks, buf, told, next, eof, level, fixedOnly, old(spoiled), old(short))
    {
      hide *;
      StreamingParts(told);
      CountingParts(toks);
      TalliedParts(toks);
      w.ValidKept();
      w.WidthNow();
      if !spoiled {
        OpenParts();
      }
      ghost var l, s, first, bits, was, short0 := log, w.sent, w.Now(), w.biValid, spoiled, short;
      CompactIs(told);
      ghost var r, opt, fixed;
      b, r, opt, fixed := FlushBlock(buf, storedLen, eof, level, fixedOnly, toks);
      FlushedParts(s, b, eof, bits, was);
      FormedParts(z, b, toks, buf, storedLen, level, fixedOnly, r, opt, fixed, eof, Width(s));
      RecordMore(b, bits);
      w.ValidKept();
      short := short + (if eof || |next| < |told| + 127 then 1 else 0);
      StaysCompact(s, b, toks, buf, storedLen, eof, level, fixedOnly, r, opt, fixed, told, next, short0);
      RoomLeft(first, s, b, toks, buf, storedLen, eof, level, fixedOnly, r, opt, fixed);
      if Mild(level, fixedOnly, toks) {
        MildSends(b, toks, buf, storedLen, level, fixedOnly, r, opt, fixed, eof, Width(s), bits);
      }
      if !spoiled {
        SaysAdds(b, toks, buf, told, next);
        LogMore(z, l, b);
        if eof {
          MakeClosed();
        } else {
          MakeOpen();
        }
      }
      if eof {
        MakeStreamed(next);
      } else {
        MakeStreaming(next);
      }
      CountingParts([]);
      MakeEmitted(first, l, b, toks, buf, told, next, eof, level, fixedOnly, was, short0);
    }

    /** One more block keeps the stream within its bounds. */
    lemma StaysCompact(s: seq<Piece>, b: Block, toks: seq<Token>, buf: Option<seq<Byte>>, storedLen: nat, eof: bool,
                       level: nat,
                       fixedOnly: bool, r: Trio, opt: int, fixed: int, told: seq<Byte>, next: seq<Byte>, short0: nat)
      requires Shape() && 127 * Width(s) <= 1153 * |told| + 5334 * short0
      requires short == short0 + (if eof || |next| < |told| + 127 then 1 else 0)
      requires level > 0 ==> Grounded(told, toks) && PutAll(told, toks) == next
      requires buf.Some? ==> |buf.value| == storedLen && told + buf.value == next
      requires level == 0 ==> buf.Some?
      requires Formed(z, b, toks, buf, storedLen, level, fixedOnly, r, opt, fixed, eof, Width(s)) && ValidBlock(z, b)
      requires Width(w.sent) <= Width(s) + Width(BlockBits(z, b, eof, Width(s)))
               + (if eof && !b.StoredBlock? then 7 else 0)
      ensures Compact(next) && |next| >= |told|
    {
      hide *;
      ShapeParts();
      CompactIs(next);
      if level > 0 {
        FormedParts(z, b, toks, buf, storedLen, level, fixedOnly, r, opt, fixed, eof, Width(s));
        TrioParts(z.maps, toks, r);
        FrequencyParts(z.maps, toks, r.fl, r.fd);
        CoveredOutput(told, toks);
      }
      ByteCost(z, b, toks, buf, storedLen, level, fixedOnly, r, opt, fixed, eof, Width(s), |next| - |told|);
      OneMoreBlock(Width(s), Width(w.sent), |told|, |next|, short0, eof, b.StoredBlock?);
    }

    static lemma OneMoreBlock(before: nat, now: nat, told: nat, next: nat, short0: nat, eof: bool, stored: bool)
      requires 127 * before <= 1153 * told + 5334 * short0 && told <= next
      requires now <= before + 9 * (next - told) + (if stored && next < told + 127 then 42 else 10)
               + (if eof && !stored then 7 else 0)
      ensures 127 * now <= 1153 * next + 5334 * (short0 + if eof || next < told + 127 then 1 else 0)
    {
    }

    /** The pending bytes of a block fit the memory. */
    lemma RoomLeft(first: Snap, s: seq<Piece>, b: Block, toks: seq<Token>, buf: Option<seq<Byte>>, storedLen: nat,
                   eof: bool, level: nat,
                   fixedOnly: bool, r: Trio, opt: int, fixed: int)
      requires Shape() && w.Valid() && Grows(first, w.Now()) && first.pending == 0 && first.valid <= 16
      requires |first.mem| == 4 * litBufsize && Width(s) == 8 * |first.out| + first.valid
      requires Formed(z, b, toks, buf, storedLen, level, fixedOnly, r, opt, fixed, eof, Width(s))
      requires ValidBlock(z, b) && Width(w.sent)
               <= Width(s) + Width(BlockBits(z, b, eof, Width(s))) + (if eof && !b.StoredBlock? then 7 else 0)
      requires (buf.Some? ==> |buf.value| == storedLen) && (level > 0 ==> |toks| < litBufsize)
      requires level == 0 ==> first.valid <= 5 && storedLen + 5 <= 4 * litBufsize && w.biValid == 0
      ensures w.pending <= |w.mem|
    {
      hide *;
      ShapeParts();
      w.ValidKept();
      w.WidthNow();
      GrowsParts(first, w.Now());
      if level > 0 {
        BlockCost(z, b, toks, buf, storedLen, level, fixedOnly, r, opt, fixed, eof, Width(s));
      } else {
        FormedParts(z, b, toks, buf, storedLen, level, fixedOnly, r, opt, fixed, eof, Width(s));
        SaysBytes(b, toks, buf);
        StoredWidth(z, b.bytes, eof, Width(s));
      }
    }

    static lemma SaysBytes(b: Block, toks: seq<Token>, buf: Option<seq<Byte>>)
      requires Says(b, toks, buf) && b.StoredBlock?
      ensures buf == Some(b.bytes)
    {
    }

    lemma MildSends(b: Block, toks: seq<Token>, buf: Option<seq<Byte>>, storedLen: nat, level: nat, fixedOnly: bool,
                    r: Trio,
                    opt: int, fixed: int, eof: bool, pos: nat, bits: nat)
      requires Shape() && Mild(level, fixedOnly, toks) && bits <= 16 && (level > 0 ==> |toks| < litBufsize)
      requires Formed(z, b, toks, buf, storedLen, level, fixedOnly, r, opt, fixed, eof, pos)
      ensures ValidBlock(z, b) && !Overtakes(z, b, bits, litBufsize)
    {
      MildParts(level, fixedOnly, toks);
      hide *;
      FormedParts(z, b, toks, buf, storedLen, level, fixedOnly, r, opt, fixed, eof, pos);
      ShapeParts();
      if level == 0 {
        StoredNever(z, b.bytes, bits, litBufsize);
      } else {
        NeverOvertakes(z, b, toks, buf, storedLen, fixedOnly, r, opt, fixed, bits, litBufsize);
      }
    }

    lemma MildParts(level: nat, fixedOnly: bool, toks: seq<Token>)
      requires Mild(level, fixedOnly, toks)
      ensures level > 0 ==> Slow(fixedOnly, toks, litBufsize)
    {
      hide Slow;
    }

    static lemma SaysAdds(b: Block, toks: seq<Token>, buf: Option<seq<Byte>>, out: seq<Byte>, next: seq<Byte>)
      requires Says(b, toks, buf) && (buf.Some? ==> out + buf.value == next)
      requires !b.StoredBlock? ==> Grounded(out, toks) && PutAll(out, toks) == next
      ensures Rooted(b, out) && Adds(b, out) == next
    {
    }

    /** An empty stored block, which brings the stream to a byte boundary. */
    method Mark(ghost told: seq<Byte>)
      requires Counting([]) && Tallied([]) && w.Valid() && w.pending == 0 && Streaming(told)
      modifies w, `log, `left, `lastEobLen, `short
      ensures Counting([]) && Tallied([]) && w.Valid() && Grows(old(w.Now()), w.Now()) && w.pending <= 7
              && w.biValid == 0
      ensures Streaming(told) && spoiled == old(spoiled) && log == old(log) + [StoredBlock([])]
              && short == old(short) + 1
    {
      hide *;
      CountingParts([]);
      TalliedParts([]);
      StreamingParts(told);
      if !spoiled {
        OpenParts();
      }
      w.ValidKept();
      w.WidthNow();
      ghost var l, s, first, bits := log, w.sent, w.Now(), w.biValid;
      CompactIs(told);
      StoredOut([], false);
      AddsParts(s, StoredBlock([]), false);
      StoredNever(z, [], bits, litBufsize);
      RecordMore(StoredBlock([]), bits);
      StoredWidth(z, [], false, Width(s));
      short := short + 1;
      WidthAppend(s, BlockBits(z, StoredBlock([]), false, Width(s)));
      CompactIs(told);
      w.SentWidth(s, first, BlockBits(z, StoredBlock([]), false, Width(s)));
      w.ValidKept();
      w.NowIs();
      GrowsParts(first, w.Now());
      NoneTallied();
      if !spoiled {
        StoredRooted([]);
        EmptyAdds(Output(l));
        LogMore(z, l, StoredBlock([]));
        MakeOpen();
      }
      MakeStreaming(told);
    }

    static lemma EmptyAdds(out: seq<Byte>)
      ensures Rooted(StoredBlock([]), out) && Adds(StoredBlock([]), out) == out
      ensures Rooted(StaticBlock([]), out) && Adds(StaticBlock([]), out) == out
    {
    }

    /** The ten bits of an empty static block. */
    method SendEmpty()
      requires Shape() && w.Valid()
      modifies w
      ensures w.Valid() && Adds1(old(w.sent), StaticBlock([]), false) && Extends(old(w.Now()), w.Now())
              && 1 <= w.biValid <= 16
      ensures 8 * w.pending + w.biValid == old(8 * w.pending + w.biValid) + 10
              && Width(w.sent) == old(Width(w.sent)) + 10
    {
      hide *;
      ShapeParts();
      TypeBits(1, false);
      NoTokens(z.maps, z.lit, z.dist);
      NoneProper();
      StaticValid(z, []);
      TablesParts(z);
      FixedLengths(0);
      w.ValidKept();
      w.WidthNow();
      ghost var s, first := w.sent, w.Now();
      StaticBits(z, [], false, Width(s));
      w.SendBits(2 * 1, 3);
      ghost var second := w.Now();
      SendCode(w, z.lit, 256);
      ExtendsOn(first, second, w.Now());
      ExtendsGrows(first, w.Now());
      ghost var h, e := [Piece(2 + Bit1(false), 3)], [CodePiece(z.lit, 256)];
      assert s + h + e == s + (h + ([] + e));
      assert h + ([] + e) == h + e;
      MakeAdds(s, StaticBlock([]), false);
      CodeWidth(z.lit, 256);
      WidthOne(Piece(2 + Bit1(false), 3));
      WidthAppend(h, e);
      WidthAppend(s, h + e);
      w.SentWidth(s, first, h + e);
      w.ValidKept();
      w.WidthNow();
    }

    /** An empty static block. */
    method AlignOnce(ghost told: seq<Byte>)
      requires Shape() && w.Valid() && Streaming(told)
      modifies w, `log, `left, `short
      ensures w.Valid() && Streaming(told) && spoiled == old(spoiled) && Grows(old(w.Now()), w.Now())
      ensures log == old(log) + [StaticBlock([])] && short == old(short) + 1
      ensures 8 * w.pending + w.biValid == old(8 * w.pending + w.biValid) + 10
      ensures w.biValid == old(w.biValid + 10) % 8
    {
      hide *;
      StreamingParts(told);
      if !spoiled {
        OpenParts();
      }
      ghost var l, s, first, bits := log, w.sent, w.Now(), w.biValid;
      w.NowIs();
      CompactIs(told);
      SendEmpty();
      AddsParts(s, StaticBlock([]), false);
      NoneOvertakes(bits);
      log, left, short := log + [StaticBlock([])], left + [bits], short + 1;
      CompactIs(told);
      RecordMore(StaticBlock([]), bits);
      ghost var second := w.Now();
      w.ValidKept();
      w.WidthNow();
      ExtendsGrows(first, second);
      w.BiFlush();
      w.NowIs();
      GrowsParts(second, w.Now());
      GrowsOn(first, second, w.Now());
      w.ValidKept();
      w.WidthNow();
      if !spoiled {
        EmptyAdds(Output(l));
        LogMore(z, l, StaticBlock([]));
        MakeOpen();
      }
      MakeStreaming(told);
    }

    lemma NoneOvertakes(bits: nat)
      requires ValidBlock(z, StaticBlock([]))
      ensures !Overtakes(z, StaticBlock([]), bits, litBufsize)
    {
      hide ValidBlock;
    }

    static lemma NoneProper()
      ensures AllProper([])
    {
    }

    /**
     `_tr_align`: an empty static block, and another unless the end of block code before it and what is sent
     leave a decoder nine bits to look at.
     */
    method Align(ghost told: seq<Byte>)
      requires Counting([]) && Tallied([]) && w.Valid() && w.pending == 0 && Streaming(told)
      modifies w, `log, `left, `lastEobLen, `short
      ensures Counting([]) && Tallied([]) && w.Valid() && Grows(old(w.Now()), w.Now()) && w.pending <= 4
      ensures old(short) < short <= old(short) + 2
      ensures Streaming(told) && spoiled == old(spoiled) && (old(w.biValid) == 0 ==> w.biValid <= 5)
      ensures log == old(log) + [StaticBlock([])] + (if 1 + old(lastEobLen) + 10 - old(w.biValid + 10) % 8 < 9
                                                     then [StaticBlock([])] else [])
    {
      hide *;
      CountingParts([]);
      TalliedParts([]);
      w.ValidKept();
      w.WidthNow();
      ghost var first := w.Now();
      AlignOnce(told);
      assert log == old(log) + [StaticBlock([])] + [];
      if 1 + lastEobLen + 10 - w.biValid < 9 {
        ghost var second := w.Now();
        AlignOnce(told);
        GrowsOn(first, second, w.Now());
      }
      lastEobLen := 7;
      w.NowIs();
      GrowsParts(first, w.Now());
      NoneTallied();
    }

    /** What is sent on a byte boundary is in the bytes put out. */
    lemma SentOut()
      requires w.Kept() && w.biValid == 0
      ensures AllSmall(w.sent) && Width(w.sent) == 8 * |w.out| && Num(w.sent) == Value(w.out)
    {
      hide *;
      w.KeptParts();
      WrittenParts(w.sent, w.out, w.biBuf, w.biValid);
      WrittenBits(w.sent, w.out, w.biBuf, w.biValid);
      ZeroUp(8 * |w.out|);
    }

    /** A decoder given all the bytes of a complete stream ends with the output of the blocks. */
    lemma Decoded() returns (m: Machine)
      requires Closed() && w.Kept()
      ensures Reaches(w.out, m) && m.c == Config(Done, true, Output(log)) && m.pos == 8 * |w.out|
    {
      hide *;
      ClosedParts();
      SentOut();
      m := ReadClosed(w.out, z, log);
    }

    /** A decoder given the bytes up to a mark has the output of all the blocks before. */
    lemma DecodedSoFar() returns (m: Machine)
      requires Open() && w.Kept() && w.biValid == 0
      ensures Reaches(w.out, m) && m.c == Config(Type, false, Output(log)) && m.pos == 8 * |w.out|
    {
      hide *;
      OpenParts();
      SentOut();
      StartAt(w.out, w.sent);
      assert w.sent + [] == w.sent;
      m := ReadOpen(w.out, z, log, []);
      AtParts(w.out, m, []);
      LeftIs(w.out, m);
      NoWidth();
    }
  }
}
