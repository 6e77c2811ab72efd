/**
 `send_tree`, `send_all_trees` and `compress_block`: the loops that write a block,
 each proved to send the pieces that it is specified by.
 */
module Senders {
  import opened Arith
  import opened InflateSpec
  import opened Lz77
  import opened BitWriter
  import opened RunLengths
  import opened TokenCodes
  import opened BlockPieces
  import opened HeaderBack
  import opened Overlay

  /** send_code */
  method SendCode(w: Writer, t: CodeTree, s: int)
    requires w.Valid() && Sends(t, s)
    modifies w
    ensures w.Valid() && w.sent == old(w.sent) + [CodePiece(t, s)] && Extends(old(w.Now()), w.Now())
  {
    hide w.Valid;
    w.SendBits(t.code[s], t.len[s]);
  }

  lemma PlainMore(t: CodeTree, cur: nat, k: nat)
    requires SendsRun(t, Run(cur, 0)) && cur < 16
    ensures Plain(cur, k + 1) == Plain(cur, k) + [Run(cur, 0)]
    ensures SendsRuns(t, Plain(cur, k)) && SendsRuns(t, Plain(cur, k + 1))
    ensures RunsPieces(t, Plain(cur, k + 1)) == RunsPieces(t, Plain(cur, k)) + [CodePiece(t, cur)]
  {
    PlainSnoc(cur, k);
    PlainSends(t, cur, k);
    RunsOne(t, Run(cur, 0));
    assert RunPieces(t, Run(cur, 0)) == [CodePiece(t, cur)];
    hide RunsPieces, RunPieces, SendsRun, Plain;
    RunsPiecesAppend(t, Plain(cur, k), [Run(cur, 0)]);
  }

  lemma {:induction false} PlainSnoc(cur: nat, k: nat)
    ensures Plain(cur, k + 1) == Plain(cur, k) + [Run(cur, 0)]
  {
    if k > 0 {
      PlainSnoc(cur, k - 1);
      assert [Run(cur, 0)] + (Plain(cur, k - 1) + [Run(cur, 0)]) == ([Run(cur, 0)] + Plain(cur, k - 1)) + [Run(cur, 0)];
    }
  }

  lemma {:induction false} PlainSends(t: CodeTree, cur: nat, k: nat)
    requires SendsRun(t, Run(cur, 0))
    ensures SendsRuns(t, Plain(cur, k))
  {
    hide SendsRun;
    if k > 0 {
      PlainSends(t, cur, k - 1);
    }
  }

  lemma PlainNone(t: CodeTree, cur: nat)
    ensures Plain(cur, 0) == [] && SendsRuns(t, []) && RunsPieces(t, []) == []
  {
  }

  /** A length repeated without run symbols. */
  method SendPlain(w: Writer, t: CodeTree, cur: nat, count0: nat)
    requires w.Valid() && SendsRun(t, Run(cur, 0)) && cur < 16 && count0 >= 1
    modifies w
    ensures w.Valid() && SendsRuns(t, Plain(cur, count0)) && w.sent == old(w.sent) + RunsPieces(t, Plain(cur, count0))
    ensures Extends(old(w.Now()), w.Now())
  {
    hide *;
    var count := count0;
    ghost var first := w.Now();
    ExtendsSame(first);
    PlainNone(t, cur);
    RunSends(t, Run(cur, 0));
    while true
      invariant 1 <= count <= count0 && w.Valid() && Extends(first, w.Now()) && SendsRuns(t, Plain(cur, count0 - count))
      invariant w.sent == old(w.sent) + RunsPieces(t, Plain(cur, count0 - count))
      decreases count
    {
      PlainMore(t, cur, count0 - count);
      ghost var before := w.Now();
      SendCode(w, t, cur);
      ExtendsOn(first, before, w.Now());
      count := count - 1;
      if count == 0 {
        break;
      }
    }
  }

  lemma RunSends(t: CodeTree, r: Run)
    requires SendsRun(t, r)
    ensures Sends(t, r.sym) && FitsField(r)
    ensures r.sym >= 16 ==> 0 <= r.extra < Pow2(RunBits(r.sym)) && 1 <= RunBits(r.sym) <= 16
    ensures SendsRuns(t, [r]) && RunsPieces(t, [r])
            == [CodePiece(t, r.sym)] + (if r.sym < 16 then [] else [Piece(r.extra, RunBits(r.sym))])
  {
    RunsOne(t, r);
  }

  /** One run symbol and its extra bits. */
  method SendRun(w: Writer, t: CodeTree, sym: nat, extra: int, bits: nat)
    requires w.Valid() && SendsRun(t, Run(sym, extra)) && sym >= 16 && bits == RunBits(sym)
    modifies w
    ensures w.Valid() && SendsRuns(t, [Run(sym, extra)]) && w.sent == old(w.sent) + RunsPieces(t, [Run(sym, extra)])
    ensures Extends(old(w.Now()), w.Now())
  {
    hide *;
    RunSends(t, Run(sym, extra));
    ghost var first := w.Now();
    SendCode(w, t, sym);
    ghost var middle := w.Now();
    w.SendBits(extra, bits);
    ExtendsOn(first, middle, w.Now());
  }

  lemma GroupCases(t: CodeTree, cur: nat, prev: int, count: nat)
    requires SendsRuns(t, GroupOf(cur, prev, count)) && count >= 1
    ensures REP_3_6 == 16 && REPZ_3_10 == 17 && REPZ_11_138 == 18 && RunBits(16) == 2 && RunBits(17) == 3
            && RunBits(18) == 7
    ensures count < MinCount(cur, prev) ==> SendsRun(t, Run(cur, 0)) && GroupOf(cur, prev, count) == Plain(cur, count)
    ensures count >= MinCount(cur, prev) && cur != 0 && cur != prev
            ==> SendsRun(t, Run(cur, 0)) && SendsRun(t, Run(16, count - 4))
                && GroupOf(cur, prev, count) == [Run(cur, 0)] + [Run(16, count - 4)]
    ensures count >= MinCount(cur, prev) && cur != 0 && cur == prev
            ==> SendsRun(t, Run(16, count - 3)) && GroupOf(cur, prev, count) == [Run(16, count - 3)]
    ensures count >= MinCount(cur, prev) && cur == 0 && count <= 10
            ==> SendsRun(t, Run(17, count - 3)) && GroupOf(cur, prev, count) == [Run(17, count - 3)]
    ensures count >= MinCount(cur, prev) && cur == 0 && count > 10
            ==> SendsRun(t, Run(18, count - 11)) && GroupOf(cur, prev, count) == [Run(18, count - 11)]
  {
    var rs := GroupOf(cur, prev, count);
    if count < MinCount(cur, prev) {
      assert Plain(cur, count)[0] == Run(cur, 0);
      assert SendsRun(t, rs[0]);
    } else if |rs| == 2 {
      assert SendsRun(t, rs[0]) && SendsRun(t, rs[1]);
    } else {
      assert SendsRun(t, rs[0]);
    }
    hide SendsRun, Plain;
  }

  /** The symbols of one stretch. */
  method SendGroup(w: Writer, t: CodeTree, cur: nat, prev: int, count0: nat, min: int)
    requires w.Valid() && SendsRuns(t, GroupOf(cur, prev, count0)) && count0 >= 1 && cur < 16
             && min == MinCount(cur, prev)
    modifies w
    ensures w.Valid() && w.sent == old(w.sent) + RunsPieces(t, GroupOf(cur, prev, count0))
            && Extends(old(w.Now()), w.Now())
  {
    hide *;
    GroupCases(t, cur, prev, count0);
    var count := count0;
    if count < min {
      SendPlain(w, t, cur, count);
    } else if cur != 0 {
      if cur != prev {
        RunSends(t, Run(cur, 0));
        ghost var first := w.Now();
        SendCode(w, t, cur);
        ghost var middle := w.Now();
        count := count - 1;
        SendRun(w, t, REP_3_6, count - 3, 2);
        ExtendsOn(first, middle, w.Now());
        RunsPiecesAppend(t, [Run(cur, 0)], [Run(16, count0 - 4)]);
      } else {
        SendRun(w, t, REP_3_6, count - 3, 2);
      }
    } else if count <= 10 {
      SendRun(w, t, REPZ_3_10, count - 3, 3);
    } else {
      SendRun(w, t, REPZ_11_138, count - 11, 7);
    }
  }

  /** What is out is part of what is sent in all. */
  lemma PartSends(t: CodeTree, all: seq<Run>, rs: seq<Run>, group: seq<Run>, rest: seq<Run>)
    requires SendsRuns(t, all) && all == rs + group + rest
    ensures SendsRuns(t, rs) && SendsRuns(t, group) && SendsRuns(t, rs + group)
  {
    hide SendsRun;
    forall i | 0 <= i < |rs + group| ensures SendsRun(t, (rs + group)[i]) {
      assert (rs + group)[i] == all[i];
    }
    forall i | 0 <= i < |group| ensures SendsRun(t, group[i]) {
      assert group[i] == all[|rs| + i];
    }
    forall i | 0 <= i < |rs| ensures SendsRun(t, rs[i]) {
      assert rs[i] == all[i];
    }
  }

  lemma ScanSends(t: CodeTree, lens: seq<nat>, rs: seq<Run>, n: nat, count: nat, prev: int, max: int, min: int,
                  max': int, min': int)
    requires Scanning(lens, rs, n, count, prev, max, min) && n < |lens| && SendsRuns(t, Runs(lens))
    requires Scanning(lens, rs + GroupOf(lens[n], prev, count + 1), n + 1, 0, lens[n], max', min')
    ensures SendsRuns(t, rs) && SendsRuns(t, GroupOf(lens[n], prev, count + 1))
            && SendsRuns(t, rs + GroupOf(lens[n], prev, count + 1))
    ensures RunsPieces(t, rs + GroupOf(lens[n], prev, count + 1))
            == RunsPieces(t, rs) + RunsPieces(t, GroupOf(lens[n], prev, count + 1))
  {
    hide SendsRuns, GroupOf, RunsPieces, RunsFrom, Runs;
    PartSends(t, Runs(lens), rs, GroupOf(lens[n], prev, count + 1), RunsFrom(lens, n + 1, lens[n]));
    RunsPiecesAppend(t, rs, GroupOf(lens[n], prev, count + 1));
  }

  /** `send_tree`: the lengths of a tree, run-length coded. */
  method SendTree(w: Writer, len: seq<int>, maxCode: nat, t: CodeTree, ghost lens: seq<nat>)
    requires w.Valid() && Guarded(len, lens) && |lens| == maxCode + 1 && SendsRuns(t, Runs(lens))
    modifies w
    ensures w.Valid() && w.sent == old(w.sent) + RunsPieces(t, Runs(lens)) && Extends(old(w.Now()), w.Now())
  {
    hide *;
    GuardedAt(len, lens, 0);
    var prevlen, nextlen, count := -1, len[0], 0;
    var max, min := 7, 4;
    if nextlen == 0 {
      max, min := 138, 3;
    }
    ghost var rs: seq<Run> := [];
    ghost var first := w.Now();
    ExtendsSame(first);
    ScanStart(lens, max, min);
    PlainNone(t, 0);
    assert w.sent == w.sent + [];
    for n := 0 to maxCode + 1
      invariant w.Valid() && Extends(first, w.Now()) && SendsRuns(t, rs) && w.sent == old(w.sent) + RunsPieces(t, rs)
      invariant count >= 0 && Scanning(lens, rs, n, count, prevlen, max, min) && n < |len| && nextlen == len[n]
    {
      GuardedAt(len, lens, n);
      var curlen := nextlen;
      nextlen := len[n + 1];
      count := count + 1;
      if count < max && curlen == nextlen {
        ScanOn(lens, rs, n, count - 1, prevlen, max, min);
      } else {
        ghost var before := w.Now();
        max, min := SendGroupOut(w, t, curlen, nextlen, prevlen, count, max, min, lens, rs, n);
        ExtendsOn(first, before, w.Now());
        rs := rs + GroupOf(curlen, prevlen, count);
        count, prevlen := 0, curlen;
      }
    }
    ScanEnds(lens, rs, count, prevlen, max, min);
  }

  /** The end of a stretch in `send_tree`: send its group, and set the limits for the next. */
  method SendGroupOut(w: Writer, t: CodeTree, curlen: nat, nextlen: int, prevlen: int, count: nat, max: int, min: int,
                      ghost lens: seq<nat>, ghost rs: seq<Run>, ghost n: nat)
    returns (max': int, min': int)
    requires w.Valid() && n < |lens| && curlen == lens[n] < 16 && (n + 1 < |lens| ==> nextlen == lens[n + 1])
    requires count >= 1 && Scanning(lens, rs, n, count - 1, prevlen, max, min) && SendsRuns(t, Runs(lens))
             && SendsRuns(t, rs)
    requires n + 1 == |lens| || !(count < max && curlen == nextlen)
    modifies w
    ensures Scanning(lens, rs + GroupOf(curlen, prevlen, count), n + 1, 0, curlen, max', min')
    ensures w.Valid() && Extends(old(w.Now()), w.Now()) && SendsRuns(t, GroupOf(curlen, prevlen, count))
    ensures w.sent == old(w.sent) + RunsPieces(t, GroupOf(curlen, prevlen, count))
    ensures SendsRuns(t, rs + GroupOf(curlen, prevlen, count))
    ensures RunsPieces(t, rs + GroupOf(curlen, prevlen, count))
            == RunsPieces(t, rs) + RunsPieces(t, GroupOf(curlen, prevlen, count))
  {
    hide *;
    ScanMin(lens, rs, n, count - 1, prevlen, max, min);
    max', min' := Limits(nextlen, curlen);
    ScanGroup(lens, rs, n, count - 1, prevlen, max, min, max', min');
    ScanSends(t, lens, rs, n, count - 1, prevlen, max, min, max', min');
    SendGroup(w, t, curlen, prevlen, count, min);
  }

  /** `send_all_trees`: the header of a dynamic block. */
  method SendAllTrees(w: Writer, lit: seq<int>, dist: seq<int>, bl: CodeTree, lcodes: int, dcodes: int, blcodes: int,
                      ghost ll: seq<nat>, ghost dl: seq<nat>)
    requires w.Valid() && 0 <= blcodes && Describes(bl, blcodes, ll, dl) && lcodes == |ll| && dcodes == |dl|
    requires Guarded(lit, ll) && Guarded(dist, dl) && forall i :: 0 <= i < 19 && i < |bl.len| ==> 0 <= bl.len[i] < 8
    modifies w
    ensures w.Valid() && w.sent == old(w.sent) + TreesPieces(bl, blcodes, ll, dl) && Extends(old(w.Now()), w.Now())
  {
    hide *;
    DescribesParts(bl, blcodes, ll, dl, []);
    Sizes();
    ghost var first := w.Now();
    SendSizes(w, lcodes, dcodes, blcodes);
    ghost var a, s1, second := SizePieces(lcodes, dcodes, blcodes), old(w.sent) + SizePieces(lcodes, dcodes, blcodes),
                               w.Now();
    ExtendsSame(second);
    BlNone0(bl.len);
    assert s1 + [] == s1;
    for rank := 0 to blcodes
      invariant w.Valid() && Extends(second, w.Now()) && w.sent == s1 + BlPieces(bl.len, rank)
    {
      OrderPlace(rank);
      BlPiecesStep(bl.len, rank);
      ghost var before := w.Now();
      w.SendBits(bl.len[ORDER[rank]], 3);
      ExtendsOn(second, before, w.Now());
    }
    ghost var third := w.Now();
    SendTree(w, lit, lcodes - 1, bl, ll);
    ghost var fourth := w.Now();
    SendTree(w, dist, dcodes - 1, bl, dl);
    ExtendsOn(first, second, third);
    ExtendsOn(first, third, fourth);
    ExtendsOn(first, fourth, w.Now());
    ghost var b, c, d := BlPieces(bl.len, blcodes), RunsPieces(bl, Runs(ll)), RunsPieces(bl, Runs(dl));
    assert TreesPieces(bl, blcodes, ll, dl) == TreesPieces(bl, blcodes, ll, dl) + [];
    assert old(w.sent) + a + b + c + d == old(w.sent) + (a + (b + (c + (d + []))));
  }

  /** The three counts in the header of a dynamic block. */
  method SendSizes(w: Writer, lcodes: int, dcodes: int, blcodes: int)
    requires w.Valid() && 257 <= lcodes <= 286 && 1 <= dcodes <= 30 && 4 <= blcodes <= 19
    modifies w
    ensures w.Valid() && w.sent == old(w.sent) + SizePieces(lcodes, dcodes, blcodes) && Extends(old(w.Now()), w.Now())
  {
    hide *;
    Sizes();
    SizesAre(lcodes, dcodes, blcodes);
    ghost var first := w.Now();
    w.SendBits(lcodes - 257, 5);
    ghost var second := w.Now();
    w.SendBits(dcodes - 1, 5);
    ghost var third := w.Now();
    w.SendBits(blcodes - 4, 4);
    ExtendsOn(first, second, third);
    ExtendsOn(first, third, w.Now());
  }

  lemma Sizes()
    ensures Pow2(5) == 32 && Pow2(4) == 16 && Pow2(3) == 8 && |ORDER| == 19
  {
    assert Pow2(3) == 8;
  }

  lemma SizesAre(lcodes: int, dcodes: int, blcodes: int)
    ensures SizePieces(lcodes, dcodes, blcodes) == [Piece(lcodes - 257, 5), Piece(dcodes - 1, 5), Piece(blcodes - 4, 4)]
  {
  }

  lemma BlNone0(len: seq<int>)
    requires |len| >= 19
    ensures BlPieces(len, 0) == []
  {
  }

  // ----- compress_block

  /** base_length[] and base_dist[] */
  ghost predicate GoodBases(baseLength: seq<int>, baseDist: seq<int>) {
    && |baseLength| == 29 && |baseDist| == 30
    && (forall c :: 0 <= c < 28 ==> baseLength[c] + 3 == LengthBase(c))
    && (forall c :: 0 <= c < 30 ==> baseDist[c] + 1 == DistanceBase(c))
  }

  lemma LengthBits(mp: Maps, t: Token, lit: CodeTree, dist: CodeTree, baseLength: seq<int>, baseDist: seq<int>)
    requires t.Pair2? && Sendable(mp, t, lit, dist) && GoodBases(baseLength, baseDist)
    ensures 3 <= t.len <= 258 && 1 <= t.dist <= 32768 && GoodMaps(mp) && |mp.length| == 256 && |mp.dist| == 512
    ensures mp.length[t.len - 3] == LengthCode(mp, t.len) && DistIndex(t.dist - 1) < 512
    ensures mp.dist[DistIndex(t.dist - 1)] == DistCode(mp, t.dist)
    ensures var c, d := LengthCode(mp, t.len), DistCode(mp, t.dist);
            && 0 <= c < 29 && 0 <= d < 30 && |baseLength| == 29 && |baseDist| == 30
            && (LengthExtra(c) != 0 ==> t.len - 3 - baseLength[c] == t.len - LengthBase(c))
            && t.dist - 1 - baseDist[d] == t.dist - DistanceBase(d)
            && 0 <= t.len - LengthBase(c) < Pow2(LengthExtra(c)) && 0 <= LengthExtra(c) <= 16
            && 0 <= t.dist - DistanceBase(d) < Pow2(DistanceExtra(d)) && 0 <= DistanceExtra(d) <= 16
  {
    LitSymIs(mp, t, lit, dist);
    Extras(LengthCode(mp, t.len), DistCode(mp, t.dist));
    hide LengthBase, LengthExtra, DistanceBase, DistanceExtra, Pow2, DistEntry, TokenPieces, CodePiece, Extra, Sends;
  }

  lemma Extras(c: int, d: int)
    requires 0 <= c < 29 && 0 <= d < 30
    ensures 0 <= LengthExtra(c) <= 16 && 0 <= DistanceExtra(d) <= 16 && LengthExtra(28) == 0
  {
  }

  /** One token of `compress_block`. */
  method SendToken(w: Writer, mp: Maps, baseLength: seq<int>, baseDist: seq<int>, t: Token, lit: CodeTree,
                   dist: CodeTree)
    requires w.Valid() && Sendable(mp, t, lit, dist) && GoodBases(baseLength, baseDist)
    modifies w
    ensures w.Valid() && w.sent == old(w.sent) + TokenPieces(mp, t, lit, dist) && Extends(old(w.Now()), w.Now())
  {
    hide *;
    LitSymIs(mp, t, lit, dist);
    if t.Literal? {
      SendCode(w, lit, t.byte);
    } else {
      LengthBits(mp, t, lit, dist, baseLength, baseDist);
      var lc, d := t.len - 3, t.dist - 1;
      ghost var first := w.Now();
      var code := mp.length[lc];
      SendExtra(w, lit, code + 256 + 1, LengthExtra(code), t.len - LengthBase(code), lc - baseLength[code]);
      ghost var s, middle := w.sent, w.Now();
      assert s == old(w.sent) + ([CodePiece(lit, 257 + code)] + Extra(t.len - LengthBase(code), LengthExtra(code)));
      var dcode := mp.dist[DistIndex(d)];
      SendExtra(w, dist, dcode, DistanceExtra(dcode), t.dist - DistanceBase(dcode), d - baseDist[dcode]);
      ExtendsOn(first, middle, w.Now());
      assert w.sent == s + ([CodePiece(dist, dcode)] + Extra(t.dist - DistanceBase(dcode), DistanceExtra(dcode)));
    }
  }

  /** A code and its extra bits, if any. */
  method SendExtra(w: Writer, t: CodeTree, s: int, extra: nat, ghost v: int, value: int)
    requires w.Valid() && Sends(t, s) && 0 <= extra <= 16 && (extra != 0 ==> 0 <= value == v < Pow2(extra))
    modifies w
    ensures w.Valid() && w.sent == old(w.sent) + ([CodePiece(t, s)] + Extra(v, extra)) && Extends(old(w.Now()), w.Now())
  {
    hide *;
    NoExtra(v, extra);
    ghost var first := w.Now();
    SendCode(w, t, s);
    if extra != 0 {
      ghost var middle := w.Now();
      w.SendBits(value, extra);
      ExtendsOn(first, middle, w.Now());
    }
  }

  lemma NoExtra(v: int, k: nat)
    ensures Extra(v, k) == if k == 0 then [] else [Piece(v, k)]
  {
  }

  /**
   `compress_block`: the tokens of a block, read from the memory that the pending bytes grow into, and the end
   of block code. It stops with `false` where the pending bytes have reached the next token; the source, which
   has only a debugging assertion there, goes on with what it reads.
   */
  method CompressBlock(w: Writer, mp: Maps, baseLength: seq<int>, baseDist: seq<int>, size: nat, lastLit: nat,
                       lit: CodeTree, dist: CodeTree, ghost ts: seq<Token>, ghost mem: seq<Byte>)
    returns (ok: bool)
    requires w.Valid() && GoodBases(baseLength, baseDist) && AllSendable(mp, ts, lit, dist) && Sends(lit, 256)
    requires lastLit == |ts| && TokensIn(mem, size, ts) && w.biValid >= 1 && w.pending % 2 == 0
    requires |w.mem| == |mem| && forall i :: w.pending <= i < |mem| ==> w.mem[i] == mem[i]
    modifies w
    ensures w.Valid() && Extends(old(w.Now()), w.Now())
    ensures ok <==> Ahead(mp, ts, lit, dist, 8 * old(w.pending) + old(w.biValid), size)
    ensures ok ==> w.sent == old(w.sent) + TokensPieces(mp, ts, lit, dist) + [CodePiece(lit, 256)]
    ensures !ok ==> Reached(mp, ts, lit, dist, old(w.sent), w.sent, size, w.pending)
  {
    hide *;
    var lx := 0;
    ok := true;
    NoTokens(mp, lit, dist);
    assert w.sent + [] == w.sent;
    assert ts[..0] == [];
    ghost var start, first := 8 * w.pending + w.biValid, w.Now();
    w.NowIs();
    w.WriterParts();
    WrittenParts(w.sent, w.out, w.biBuf, w.biValid);
    ExtendsSame(first);
    AheadNone(mp, ts, lit, dist, start, size);
    while lx < lastLit
      invariant lx <= |ts| && w.Valid() && Extends(first, w.Now()) && AllSendable(mp, ts[..lx], lit, dist)
      invariant w.sent == old(w.sent) + TokensPieces(mp, ts[..lx], lit, dist)
      invariant AheadUpTo(mp, ts, lit, dist, start, size, lx)
    {
      PendingNow(w, mp, ts, lit, dist, old(w.sent), first, start, size, lx);
      if w.pending > size + 2 * lx {
        AheadFails(mp, ts, lit, dist, start, size, lx);
        MakeReached(mp, ts, lit, dist, old(w.sent), w.sent, size, w.pending, lx);
        return false;
      }
      w.NowIs();
      NextToken(w, mp, ts, lit, dist, mem, first, size, lx);
      var t := TokenOf(Word(w.mem, size + 2 * lx), w.mem[3 * size + lx]);
      TokensSnoc(mp, ts[..lx], ts[lx], lit, dist);
      assert ts[..lx + 1] == ts[..lx] + [ts[lx]];
      AheadMore(mp, ts, lit, dist, start, size, lx);
      ghost var before := w.Now();
      SendToken(w, mp, baseLength, baseDist, t, lit, dist);
      ExtendsOn(first, before, w.Now());
      lx := lx + 1;
    }
    assert ts[..|ts|] == ts;
    AheadAll(mp, ts, lit, dist, start, size);
    ghost var before := w.Now();
    SendCode(w, lit, 256);
    ExtendsOn(first, before, w.Now());
  }

  /** The tokens sent, and that the pending bytes lie over the next one. */
  ghost predicate Reached(mp: Maps, ts: seq<Token>, lit: CodeTree, dist: CodeTree, before: seq<Piece>, sent: seq<Piece>,
                          size: nat, pending: nat)
    requires AllSendable(mp, ts, lit, dist)
  {
    exists k :: 0 <= k < |ts| && pending > size + 2 * k && sent == before + TokensPieces(mp, ts[..k], lit, dist)
  }

  lemma MakeReached(mp: Maps, ts: seq<Token>, lit: CodeTree, dist: CodeTree, before: seq<Piece>, sent: seq<Piece>,
                    size: nat, pending: nat, k: nat)
    requires AllSendable(mp, ts, lit, dist) && k < |ts| && pending > size + 2 * k
    requires AllSendable(mp, ts[..k], lit, dist) && sent == before + TokensPieces(mp, ts[..k], lit, dist)
    ensures Reached(mp, ts, lit, dist, before, sent, size, pending)
  {
    hide AllSendable, TokensPieces;
  }

  ghost predicate AheadUpTo(mp: Maps, ts: seq<Token>, lit: CodeTree, dist: CodeTree, start: nat, size: nat, n: nat)
    requires AllSendable(mp, ts, lit, dist)
  {
    n <= |ts| && forall k :: 0 <= k < n ==> AheadAt(mp, ts, lit, dist, start, size, k)
  }

  lemma AheadNone(mp: Maps, ts: seq<Token>, lit: CodeTree, dist: CodeTree, start: nat, size: nat)
    requires AllSendable(mp, ts, lit, dist)
    ensures AheadUpTo(mp, ts, lit, dist, start, size, 0)
  {
    hide AllSendable, AheadAt;
  }

  lemma AheadMore(mp: Maps, ts: seq<Token>, lit: CodeTree, dist: CodeTree, start: nat, size: nat, n: nat)
    requires AllSendable(mp, ts, lit, dist) && AheadUpTo(mp, ts, lit, dist, start, size, n) && n < |ts|
    requires AheadAt(mp, ts, lit, dist, start, size, n)
    ensures AheadUpTo(mp, ts, lit, dist, start, size, n + 1)
  {
    hide AllSendable, AheadAt;
  }

  lemma AheadAll(mp: Maps, ts: seq<Token>, lit: CodeTree, dist: CodeTree, start: nat, size: nat)
    requires AllSendable(mp, ts, lit, dist) && AheadUpTo(mp, ts, lit, dist, start, size, |ts|)
    ensures Ahead(mp, ts, lit, dist, start, size)
  {
    hide AllSendable, AheadAt;
  }

  lemma AheadFails(mp: Maps, ts: seq<Token>, lit: CodeTree, dist: CodeTree, start: nat, size: nat, k: nat)
    requires AllSendable(mp, ts, lit, dist) && k < |ts| && !AheadAt(mp, ts, lit, dist, start, size, k)
    ensures !Ahead(mp, ts, lit, dist, start, size)
  {
    hide AllSendable, AheadAt;
  }

  /** How many bytes are pending before a token is read. */
  lemma PendingNow(w: Writer, mp: Maps, ts: seq<Token>, lit: CodeTree, dist: CodeTree, before: seq<Piece>, first: Snap,
                   start: nat, size: nat, k: nat)
    requires w.Valid() && AllSendable(mp, ts, lit, dist) && k < |ts| && Extends(first, w.Now())
    requires start == 8 * first.pending + first.valid && first.valid >= 1 && first.pending % 2 == 0
    requires AllSendable(mp, ts[..k], lit, dist) && w.sent == before + TokensPieces(mp, ts[..k], lit, dist)
    requires Width(before) == 8 * |first.out| + first.valid
    ensures AheadAt(mp, ts, lit, dist, start, size, k) <==> w.pending <= size + 2 * k
  {
    hide *;
    w.WriterParts();
    WrittenParts(w.sent, w.out, w.biBuf, w.biValid);
    ExtendsGrows(first, w.Now());
    GrowsParts(first, w.Now());
    var ps := TokensPieces(mp, ts[..k], lit, dist);
    WidthAppend(before, ps);
    PendingIs(w.pending, w.biValid, start + Width(ps));
    AheadAtIs(mp, ts, lit, dist, start, size, k);
  }

  lemma AheadAtIs(mp: Maps, ts: seq<Token>, lit: CodeTree, dist: CodeTree, start: nat, size: nat, k: nat)
    requires AllSendable(mp, ts, lit, dist) && k < |ts|
    ensures AllSendable(mp, ts[..k], lit, dist)
    ensures AheadAt(mp, ts, lit, dist, start, size, k)
       <==> PendingAt(start + Width(TokensPieces(mp, ts[..k], lit, dist))) <= size + 2 * k
  {
    hide TokensPieces, Width, PendingAt;
  }

  /** The token that is read is the one that was tallied. */
  lemma NextToken(w: Writer, mp: Maps, ts: seq<Token>, lit: CodeTree, dist: CodeTree, mem: seq<Byte>, first: Snap,
                  size: nat,
                  k: nat)
    requires AllSendable(mp, ts, lit, dist) && k < |ts| && Extends(first, w.Now()) && |first.mem| == |mem|
    requires forall i :: first.pending <= i < |mem| ==> first.mem[i] == mem[i]
    requires TokensIn(mem, size, ts) && w.pending <= size + 2 * k && w.Now().mem == w.mem
             && w.Now().pending == w.pending
    ensures |w.mem| == 4 * size && k < size && Sendable(mp, ts[k], lit, dist)
    ensures TokenOf(Word(w.mem, size + 2 * k), w.mem[3 * size + k]) == ts[k]
  {
    hide *;
    ExtendsGrows(first, w.Now());
    GrowsParts(first, w.Now());
    TokensInAt(mem, size, ts, k);
    assert forall j :: w.pending <= j < |mem| ==> w.mem[j] == mem[j];
    SendableAt(mp, ts, lit, dist, k);
    SendableProper(mp, ts[k], lit, dist);
    TokenStays(mem, w.mem, size, k, ts[k], w.pending);
    TokenInParts(w.mem, size, k, ts[k]);
    TokenRead(w.mem, size, k, ts[k]);
  }

  lemma SendableProper(mp: Maps, t: Token, lit: CodeTree, dist: CodeTree)
    requires Sendable(mp, t, lit, dist)
    ensures Proper(t)
  {
    hide GoodMaps, Sends, Proper;
  }

  lemma TokensInAt(mem: seq<Byte>, size: nat, ts: seq<Token>, i: nat)
    requires TokensIn(mem, size, ts) && i < |ts|
    ensures TokenIn(mem, size, i, ts[i]) && |mem| == 4 * size && i < size
  {
    hide TokenIn;
  }

  lemma TokenInParts(mem: seq<Byte>, size: nat, i: nat, t: Token)
    requires TokenIn(mem, size, i, t)
    ensures |mem| == 4 * size && i < size
  {
  }

  lemma NoTokens(mp: Maps, lit: CodeTree, dist: CodeTree)
    ensures AllSendable(mp, [], lit, dist) && TokensPieces(mp, [], lit, dist) == []
  {
  }

  lemma SendableAt(mp: Maps, ts: seq<Token>, lit: CodeTree, dist: CodeTree, i: nat)
    requires AllSendable(mp, ts, lit, dist) && i < |ts|
    ensures Sendable(mp, ts[i], lit, dist)
  {
  }
}
