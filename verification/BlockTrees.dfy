/**
 What the three trees of a block offer, as values: codes that can be sent, lengths that
 the decompressor accepts, and frequencies small enough for the heap.
 */
module BlockTrees {
  import opened Arith
  import opened Canonical
  import opened DecodeTable
  import opened InflateSpec
  import opened InflateRuns
  import opened Lz77
  import opened BuildTree
  import opened BitWriter
  import opened RunLengths
  import opened BlockPieces
  import opened ReadBack
  import opened HeaderBack
  import opened TreeCodes

  // ----- sums of frequencies

  lemma {:induction false} SumZeros(f: seq<int>)
    requires forall i :: 0 <= i < |f| ==> f[i] == 0
    ensures Sum(f) == 0
  {
    if f != [] {
      SumZeros(f[1..]);
    }
  }

  lemma {:induction false} LitSum(m: Maps, ts: seq<Token>)
    requires GoodMaps(m) && AllProper(ts)
    ensures Sum(LitFreq(m, ts)) == |ts| + 1
  {
    var f := LitFreq(m, ts);
    if ts == [] {
      var z := seq(286, i => 0);
      SumZeros(z);
      assert f == z[256 := 1];
      SumUpdate(z, 256, 1);
    } else {
      var us, t := ts[..|ts| - 1], ts[|ts| - 1];
      assert Proper(t) && forall u :: u in us ==> u in ts;
      LitSum(m, us);
      var g, s := LitFreq(m, us), LitSym(m, t);
      assert f == g[s := g[s] + 1];
      SumUpdate(g, s, g[s] + 1);
    }
  }

  lemma {:induction false} DistSum(m: Maps, ts: seq<Token>)
    requires GoodMaps(m) && AllProper(ts)
    ensures Sum(DistFreq(m, ts)) <= |ts|
  {
    var f := DistFreq(m, ts);
    if ts == [] {
      SumZeros(f);
    } else {
      var us, t := ts[..|ts| - 1], ts[|ts| - 1];
      assert Proper(t) && forall u :: u in us ==> u in ts;
      DistSum(m, us);
      var g := DistFreq(m, us);
      if t.Pair2? {
        var s := DistCode(m, t.dist);
        assert f == g[s := g[s] + 1];
        SumUpdate(g, s, g[s] + 1);
      } else {
        assert f == g;
      }
    }
  }

  lemma {:induction false} RunSum(rs: seq<Run>)
    requires AllFit(rs)
    ensures Sum(RunFreq(rs)) == |rs|
  {
    var f := RunFreq(rs);
    if rs == [] {
      SumZeros(f);
    } else {
      var us, r := rs[..|rs| - 1], rs[|rs| - 1];
      assert FitsField(rs[|rs| - 1]);
      RunSum(us);
      var g := RunFreq(us);
      assert f == g[r.sym := g[r.sym] + 1];
      SumUpdate(g, r.sym, g[r.sym] + 1);
    }
  }

  lemma CountsPositive(m: Maps, ts: seq<Token>, s: int)
    requires GoodMaps(m) && AllProper(ts)
    ensures LitCount(m, ts, s) >= (if s == 256 then 1 else 0) && DistCount(m, ts, s) >= 0
    ensures (exists i :: 0 <= i < |ts| && LitSym(m, ts[i]) == s) ==> LitCount(m, ts, s) >= 1
    ensures (exists i :: 0 <= i < |ts| && ts[i].Pair2? && Proper(ts[i]) && DistCode(m, ts[i].dist) == s) ==>
            DistCount(m, ts, s) >= 1
  {
    hide GoodMaps, LitCount, DistCount, LitSym, DistCode;
    NotBelow(m, ts, s);
    if i: nat :| i < |ts| && LitSym(m, ts[i]) == s {
      LitPositive(m, ts, i);
    }
    if i: nat :| i < |ts| && ts[i].Pair2? && Proper(ts[i]) && DistCode(m, ts[i].dist) == s {
      DistPositive(m, ts, i);
    }
  }

  lemma {:induction false} NotBelow(m: Maps, ts: seq<Token>, s: int)
    requires GoodMaps(m) && AllProper(ts)
    ensures LitCount(m, ts, s) >= (if s == 256 then 1 else 0) && DistCount(m, ts, s) >= 0
  {
    hide GoodMaps, LitSym, DistCode, Proper;
    if ts != [] {
      NotBelow(m, ts[..|ts| - 1], s);
    }
  }

  lemma {:induction false} LitPositive(m: Maps, ts: seq<Token>, i: nat)
    requires GoodMaps(m) && AllProper(ts) && i < |ts|
    ensures LitCount(m, ts, LitSym(m, ts[i])) >= 1
  {
    hide GoodMaps, LitSym, DistCode, Proper;
    var us := ts[..|ts| - 1];
    if i < |us| {
      assert us[i] == ts[i];
      LitPositive(m, us, i);
    } else {
      NotBelow(m, us, LitSym(m, ts[i]));
    }
  }

  lemma {:induction false} DistPositive(m: Maps, ts: seq<Token>, i: nat)
    requires GoodMaps(m) && AllProper(ts) && i < |ts| && ts[i].Pair2? && Proper(ts[i])
    ensures DistCount(m, ts, DistCode(m, ts[i].dist)) >= 1
  {
    hide GoodMaps, LitSym, DistCode;
    var us := ts[..|ts| - 1];
    if i < |us| {
      assert us[i] == ts[i];
      DistPositive(m, us, i);
    } else {
      NotBelow(m, us, DistCode(m, ts[i].dist));
    }
  }

  lemma {:induction false} SymCountPositive(rs: seq<Run>, i: nat)
    requires i < |rs|
    ensures SymCount(rs, rs[i].sym) >= 1
  {
    if i < |rs| - 1 {
      SymCountPositive(rs[..|rs| - 1], i);
    }
  }

  /** Frequencies of a block are within what the heap can take. */
  lemma FrequencyWeights(m: Maps, ts: seq<Token>, fl: seq<int>, fd: seq<int>)
    requires Frequencies(m, ts, fl, fd) && |ts| + 3 < 0x1_0000
    ensures Weighted(fl, 286) && Weighted(fd, 30)
  {
    hide GoodMaps, Proper, LitCount, DistCount;
    LitSum(m, ts);
    DistSum(m, ts);
    assert fl[..286] == LitFreq(m, ts) && fd[..30] == DistFreq(m, ts);
    forall s | 0 <= s < 286 ensures fl[s] >= 0 {
      CountsPositive(m, ts, s);
    }
    forall s | 0 <= s < 30 ensures fd[s] >= 0 {
      CountsPositive(m, ts, s);
    }
  }

  // ----- what a tree offers

  /** Of the symbols below elems, those with nonzero frequency have a code; the first n lengths are those of a code. */
  ghost predicate Offers(kind: CodeType, f: seq<int>, elems: nat, t: CodeTree, n: nat, top: int) {
    && n <= |t.len| && elems <= |f| && |t.code| == |t.len|
    && Usable(kind, t.len[..n]) && Encodes(t, t.len[..n])
    && (forall i :: 0 <= i < n ==> 0 <= t.len[i] <= top)
    && (forall x :: 0 <= x < elems && f[x] != 0 ==> OfferedAt(t, n, x))
  }

  ghost predicate OfferedAt(t: CodeTree, n: nat, x: int)
    requires n <= |t.len|
  {
    x < n && Sends(t, x) && Listed(t.len[..n], x)
  }

  lemma OffersMake(kind: CodeType, f: seq<int>, g: seq<int>, c: seq<int>, d: seq<int>, cnt: seq<int>, leaves: seq<int>,
                   elems: nat, maxCode: int, top: nat, n: nat)
    requires Tree(g, c, d, cnt, leaves, elems, maxCode, top) && InUseAtLeastTwo(f, g, leaves, elems)
    requires maxCode < n <= elems && n <= Alphabet(kind)
    ensures Offers(kind, f, elems, CodeTree(c, d), n, top)
  {
    hide *;
    TreeUsable(kind, g, c, d, cnt, leaves, elems, maxCode, top, n);
    TreeEncodes(g, c, d, cnt, leaves, elems, maxCode, top, n);
    InUseSizes(f, g, c, d, cnt, leaves, elems, maxCode, top);
    forall x | 0 <= x < elems && f[x] != 0 ensures OfferedAt(CodeTree(c, d), n, x) {
      TreeSends(g, c, d, cnt, leaves, elems, maxCode, top, n, x);
      MakeOffered(CodeTree(c, d), n, x);
    }
    MakeOffers(kind, f, elems, CodeTree(c, d), n, top);
  }

  lemma InUseSizes(f: seq<int>, g: seq<int>, c: seq<int>, d: seq<int>, cnt: seq<int>, leaves: seq<int>, elems: nat,
                   maxCode: int, top: nat)
    requires Tree(g, c, d, cnt, leaves, elems, maxCode, top) && InUseAtLeastTwo(f, g, leaves, elems)
    ensures elems <= |f| == |g| && |c| == |d| && forall x :: 0 <= x < elems && f[x] != 0 ==> g[x] != 0
  {
    hide LeafSet, HuffmanLengths.FullLengths, Counts, Code, BitOrder.Rev, Used, InUse;
  }

  lemma MakeOffered(t: CodeTree, n: nat, x: int)
    requires n <= |t.len| && x < n && Sends(t, x) && Listed(t.len[..n], x)
    ensures OfferedAt(t, n, x)
  {
  }

  lemma MakeOffers(kind: CodeType, f: seq<int>, elems: nat, t: CodeTree, n: nat, top: int)
    requires n <= |t.len| && elems <= |f| && |t.code| == |t.len| && Usable(kind, t.len[..n]) && Encodes(t, t.len[..n])
    requires forall i :: 0 <= i < n ==> 0 <= t.len[i] <= top
    requires forall x :: 0 <= x < elems && f[x] != 0 ==> OfferedAt(t, n, x)
    ensures Offers(kind, f, elems, t, n, top)
  {
    hide Usable, Encodes, OfferedAt;
  }

  lemma OffersParts(kind: CodeType, f: seq<int>, elems: nat, t: CodeTree, n: nat, top: int)
    requires Offers(kind, f, elems, t, n, top)
    ensures n <= |t.len| && elems <= |f| && |t.code| == |t.len| && Usable(kind, t.len[..n]) && Encodes(t, t.len[..n])
    ensures forall i :: 0 <= i < n ==> 0 <= t.len[i] <= top
    ensures forall x :: 0 <= x < elems && f[x] != 0 ==> x < n && Sends(t, x) && Listed(t.len[..n], x)
  {
    hide Usable, Encodes, Sends, Listed;
    forall x | 0 <= x < elems && f[x] != 0 ensures x < n && Sends(t, x) && Listed(t.len[..n], x) {
      assert OfferedAt(t, n, x);
    }
  }

  /** The guard written behind the lengths takes nothing away. */
  lemma OffersGuarded(kind: CodeType, f: seq<int>, elems: nat, t: CodeTree, t': CodeTree, n: nat, top: int)
    requires Offers(kind, f, elems, t, n, top) && t'.code == t.code && |t'.len| == |t.len| && t'.len[..n] == t.len[..n]
    ensures Offers(kind, f, elems, t', n, top)
  {
    hide *;
    OffersParts(kind, f, elems, t, n, top);
    GuardKeeps(t.code, t.len, t'.len, t.len[..n]);
    forall i | 0 <= i < n ensures 0 <= t'.len[i] <= top {
      assert t'.len[i] == t'.len[..n][i] == t.len[..n][i];
    }
    forall x | 0 <= x < elems && f[x] != 0 ensures OfferedAt(t', n, x) {
      ListedAt(t.len[..n], x);
      MakeOffered(t', n, x);
    }
    assert CodeTree(t.code, t'.len) == t' && CodeTree(t.code, t.len) == t;
    MakeOffers(kind, f, elems, t', n, top);
  }

  /** With trees for the frequencies of its tokens, a block can be sent and will be read. */
  lemma BlockSendable(m: Maps, ts: seq<Token>, fl: seq<int>, fd: seq<int>, lit: CodeTree, dist: CodeTree, nl: nat,
                      nd: nat, top: int)
    requires Frequencies(m, ts, fl, fd) && Offers(Lens, fl, 286, lit, nl, top) && Offers(Dists, fd, 30, dist, nd, top)
    ensures GoodMaps(m) && AllProper(ts) && AllSendable(m, ts, lit, dist) && Sends(lit, 256)
    ensures nl <= |lit.len| && nd <= |dist.len| && Paired(lit, dist, Pair(lit.len[..nl], dist.len[..nd]))
    ensures AllSpelled(m, ts, Pair(lit.len[..nl], dist.len[..nd])) && Listed(lit.len[..nl], 256) && nl > 256
  {
    hide *;
    FrequencyParts(m, ts, fl, fd);
    OffersParts(Lens, fl, 286, lit, nl, top);
    OffersParts(Dists, fd, 30, dist, nd, top);
    CountsPositive(m, ts, 256);
    var c := Pair(lit.len[..nl], dist.len[..nd]);
    forall i | 0 <= i < |ts| ensures Sendable(m, ts[i], lit, dist) && Proper(ts[i]) && Spelled(m, ts[i], c) {
      TokenOffered(m, ts, fl, fd, i);
      MakeSendable(m, ts[i], lit, dist, c);
    }
    MakeBlock(m, ts, lit, dist, c);
  }

  lemma FrequencyParts(m: Maps, ts: seq<Token>, fl: seq<int>, fd: seq<int>)
    requires Frequencies(m, ts, fl, fd)
    ensures GoodMaps(m) && AllProper(ts) && |fl| >= 286 && |fd| >= 30
    ensures forall s :: 0 <= s < 286 ==> fl[s] == LitCount(m, ts, s)
    ensures forall s :: 0 <= s < 30 ==> fd[s] == DistCount(m, ts, s)
  {
    hide GoodMaps, AllProper, LitCount, DistCount;
  }

  lemma TokenOffered(m: Maps, ts: seq<Token>, fl: seq<int>, fd: seq<int>, i: nat)
    requires Frequencies(m, ts, fl, fd) && i < |ts|
    ensures Proper(ts[i]) && GoodMaps(m) && 0 <= LitSym(m, ts[i]) < 286 && |fl| >= 286 && |fd| >= 30
            && fl[LitSym(m, ts[i])] >= 1
    ensures ts[i].Pair2? ==> 1 <= ts[i].dist <= 32768 && 0 <= DistCode(m, ts[i].dist) < 30
                             && fd[DistCode(m, ts[i].dist)] >= 1
  {
    assert ts[i] in ts;
    CountsPositive(m, ts, LitSym(m, ts[i]));
    if ts[i].Pair2? {
      CountsPositive(m, ts, DistCode(m, ts[i].dist));
    }
    hide GoodMaps, LitCount, DistCount;
  }

  lemma MakeSendable(m: Maps, t: Token, lit: CodeTree, dist: CodeTree, c: Pair)
    requires GoodMaps(m) && Proper(t) && Sends(lit, LitSym(m, t)) && Listed(c.lit, LitSym(m, t))
    requires t.Pair2? ==> 1 <= t.dist <= 32768 && Sends(dist, DistCode(m, t.dist))
                          && Listed(c.dist, DistCode(m, t.dist))
    ensures Sendable(m, t, lit, dist) && Spelled(m, t, c)
  {
    hide GoodMaps, Sends, Listed;
  }

  lemma MakeBlock(m: Maps, ts: seq<Token>, lit: CodeTree, dist: CodeTree, c: Pair)
    requires GoodMaps(m) && AllProper(ts) && Usable(Lens, c.lit) && Usable(Dists, c.dist) && Encodes(lit, c.lit)
             && Encodes(dist, c.dist)
    requires forall i :: 0 <= i < |ts| ==> Sendable(m, ts[i], lit, dist) && Proper(ts[i]) && Spelled(m, ts[i], c)
    ensures AllSendable(m, ts, lit, dist) && AllSpelled(m, ts, c) && Paired(lit, dist, c)
  {
    hide GoodMaps, Sendable, Spelled, Proper, Usable, Encodes;
  }

  // ----- the code length tree

  lemma RunsOffered(fbl: seq<int>, bl: CodeTree, all: seq<Run>, rs: seq<Run>)
    requires Offers(Codes, fbl, 19, bl, 19, 7) && AllFit(rs)
             && forall i :: 0 <= i < |rs| ==> SymCount(all, rs[i].sym) >= 1
    requires forall s :: 0 <= s < 19 ==> fbl[s] == SymCount(all, s)
    ensures 19 <= |bl.len| && SendsRuns(bl, rs) && AllListed(bl.len[..19], rs)
  {
    hide *;
    OffersParts(Codes, fbl, 19, bl, 19, 7);
    forall i | 0 <= i < |rs| ensures SendsRun(bl, rs[i]) && Listed(bl.len[..19], rs[i].sym) {
      RunFits(rs, i);
      MakeSendsRun(bl, rs[i]);
    }
    MakeRuns(bl, bl.len[..19], rs);
  }

  lemma RunFits(rs: seq<Run>, i: nat)
    requires AllFit(rs) && i < |rs|
    ensures FitsField(rs[i]) && rs[i].sym < 19
  {
  }

  lemma MakeSendsRun(t: CodeTree, r: Run)
    requires Sends(t, r.sym) && FitsField(r)
    ensures SendsRun(t, r)
  {
  }

  lemma MakeRuns(t: CodeTree, code: seq<int>, rs: seq<Run>)
    requires forall i :: 0 <= i < |rs| ==> SendsRun(t, rs[i]) && Listed(code, rs[i].sym)
    ensures SendsRuns(t, rs) && AllListed(code, rs)
  {
    hide SendsRun, Listed;
  }

  lemma SymCountBoth(rs: seq<Run>, ss: seq<Run>, s: nat)
    ensures SymCount(rs + ss, s) >= SymCount(rs, s) >= 0 && SymCount(rs + ss, s) >= SymCount(ss, s) >= 0
  {
    SymCountAppend(rs, ss, s);
  }

  /** All that a header needs. */
  ghost predicate HeaderSizes(bl: CodeTree, n: nat, ll: seq<nat>, dl: seq<nat>) {
    && 257 <= |ll| <= 286 && 1 <= |dl| <= 30 && 4 <= n <= 19 <= |bl.len|
    && (forall k :: 0 <= k < |ll| ==> ll[k] < 16) && (forall k :: 0 <= k < |dl| ==> dl[k] < 16)
    && (forall i :: n <= i < 19 ==> ORDER[i] < 19 && bl.len[ORDER[i]] == 0)
    && ORDER[n - 1] < 19 && bl.len[ORDER[n - 1]] != 0
  }

  lemma DescribesMake(fbl: seq<int>, bl: CodeTree, n: nat, ll: seq<nat>, dl: seq<nat>)
    requires Offers(Codes, fbl, 19, bl, 19, 7) && HeaderSizes(bl, n, ll, dl)
    requires forall s :: 0 <= s < 19 ==> fbl[s] == SymCount(Runs(ll) + Runs(dl), s)
    ensures Describes(bl, n, ll, dl) && forall i :: 0 <= i < 19 && i < |bl.len| ==> 0 <= bl.len[i] < 8
  {
    hide *;
    var rl, rd := Runs(ll), Runs(dl);
    SizesParts(bl, n, ll, dl);
    OffersParts(Codes, fbl, 19, bl, 19, 7);
    RunsRoundTrip([], ll);
    RunsRoundTrip([], dl);
    forall i | 0 <= i < |rl| ensures SymCount(rl + rd, rl[i].sym) >= 1 {
      SymCountPositive(rl, i);
      SymCountBoth(rl, rd, rl[i].sym);
    }
    forall i | 0 <= i < |rd| ensures SymCount(rl + rd, rd[i].sym) >= 1 {
      SymCountPositive(rd, i);
      SymCountBoth(rl, rd, rd[i].sym);
    }
    RunsOffered(fbl, bl, rl + rd, rl);
    RunsOffered(fbl, bl, rl + rd, rd);
    MakeDescribes(bl, n, ll, dl);
  }

  lemma SizesParts(bl: CodeTree, n: nat, ll: seq<nat>, dl: seq<nat>)
    requires HeaderSizes(bl, n, ll, dl)
    ensures 19 <= |bl.len| && (forall k :: 0 <= k < |ll| ==> ll[k] < 16) && (forall k :: 0 <= k < |dl| ==> dl[k] < 16)
  {
  }

  lemma MakeDescribes(bl: CodeTree, n: nat, ll: seq<nat>, dl: seq<nat>)
    requires HeaderSizes(bl, n, ll, dl) && 19 <= |bl.len|
    requires Usable(Codes, bl.len[..19]) && Encodes(bl, bl.len[..19])
    requires SendsRuns(bl, Runs(ll)) && SendsRuns(bl, Runs(dl))
    requires AllListed(bl.len[..19], Runs(ll)) && AllListed(bl.len[..19], Runs(dl))
    ensures Describes(bl, n, ll, dl)
  {
    hide Usable, Encodes, SendsRuns, AllListed, Runs;
  }

  /** What the header of a dynamic block takes. */
  lemma TreesWidth(fbl: seq<int>, bl: CodeTree, n: nat, ll: seq<nat>, dl: seq<nat>)
    requires Describes(bl, n, ll, dl) && |fbl| >= 19
             && forall s :: 0 <= s < 19 ==> fbl[s] == SymCount(Runs(ll) + Runs(dl), s)
    ensures |bl.len| >= 19
    ensures Width(TreesPieces(bl, n, ll, dl)) == TreeBits(fbl, bl.len, RunExtra(), 0, 19) + 3 * n + 5 + 5 + 4
  {
    hide *;
    DescribesParts(bl, n, ll, dl, []);
    var a, b, c, d := SizePieces(|ll|, |dl|, n), BlPieces(bl.len, n), RunsPieces(bl, Runs(ll)),
                      RunsPieces(bl, Runs(dl));
    assert TreesPieces(bl, n, ll, dl) == TreesPieces(bl, n, ll, dl) + [];
    assert d + [] == d;
    WidthAppend(a, b + (c + d));
    WidthAppend(b, c + d);
    SizeWidth(|ll|, |dl|, n);
    BlWidth(bl.len, n);
    RunsPiecesAppend(bl, Runs(ll), Runs(dl));
    RunsWidth(bl, Runs(ll) + Runs(dl));
    RunFreqIs(Runs(ll) + Runs(dl));
    TreeBitsSame(RunFreq(Runs(ll) + Runs(dl)), fbl, bl.len, bl.len, RunExtra(), 0, 19);
  }

  lemma RunFreqIs(rs: seq<Run>)
    ensures |RunFreq(rs)| == 19 && forall s :: 0 <= s < 19 ==> RunFreq(rs)[s] == SymCount(rs, s)
  {
  }

  /** What the tokens of a block take, by the frequencies tallied. */
  lemma BlockWidth(m: Maps, ts: seq<Token>, fl: seq<int>, fd: seq<int>, lit: CodeTree, dist: CodeTree)
    requires Frequencies(m, ts, fl, fd) && AllSendable(m, ts, lit, dist) && Sends(lit, 256) && |lit.len| >= 286
             && |dist.len| >= 30
    ensures Width(TokensPieces(m, ts, lit, dist) + [CodePiece(lit, 256)])
         == TreeBits(fl, lit.len, LitExtra(), 257, 286) + TreeBits(fd, dist.len, DistExtra(), 0, 30)
  {
    hide *;
    FrequencyParts(m, ts, fl, fd);
    TokensWidth(m, ts, lit, dist);
    WidthAppend(TokensPieces(m, ts, lit, dist), [CodePiece(lit, 256)]);
    CodeWidth(lit, 256);
    FreqIs(m, ts);
    TreeBitsSame(LitFreq(m, ts), fl, lit.len, lit.len, LitExtra(), 257, 286);
    TreeBitsSame(DistFreq(m, ts), fd, dist.len, dist.len, DistExtra(), 0, 30);
  }

  lemma CodeWidth(t: CodeTree, s: int)
    requires Sends(t, s)
    ensures 0 <= s < |t.len| && Width([CodePiece(t, s)]) == t.len[s]
  {
    WidthOne(CodePiece(t, s));
  }

  lemma FreqIs(m: Maps, ts: seq<Token>)
    requires GoodMaps(m) && AllProper(ts)
    ensures |LitFreq(m, ts)| == 286 && forall s :: 0 <= s < 286 ==> LitFreq(m, ts)[s] == LitCount(m, ts, s)
    ensures |DistFreq(m, ts)| == 30 && forall s :: 0 <= s < 30 ==> DistFreq(m, ts)[s] == DistCount(m, ts, s)
  {
    hide GoodMaps, LitCount, DistCount;
  }
}
