/**
 How many bits tokens take with the static trees, and what follows for the memory that the
 pending bytes share with them.
 */
module Costs {
  import opened Arith
  import opened InflateSpec
  import opened Lz77
  import opened BitWriter
  import opened RunLengths
  import opened BlockPieces
  import opened Overlay
  import opened HeaderBack
  import opened Blocks

  /** How many bytes a token stands for. */
  function Covers(t: Token): nat {
    if t.Literal? then 1 else t.len
  }

  function Covered(ts: seq<Token>): nat {
    if ts == [] then 0 else Covers(ts[0]) + Covered(ts[1..])
  }

  lemma {:induction false} CoveredOutput(out: seq<Byte>, ts: seq<Token>)
    requires Grounded(out, ts) && AllProper(ts)
    ensures |PutAll(out, ts)| == |out| + Covered(ts)
    decreases |ts|
  {
    if ts != [] {
      assert Proper(ts[0]) && forall t :: t in ts[1..] ==> t in ts;
      CoveredOutput(Put(out, ts[0]), ts[1..]);
    }
  }

  lemma {:induction false} CoveredMany(ts: seq<Token>)
    requires AllProper(ts)
    ensures Covered(ts) >= |ts|
  {
    if ts != [] {
      assert Proper(ts[0]) && forall t :: t in ts[1..] ==> t in ts;
      CoveredMany(ts[1..]);
    }
  }

  // ----- one token

  lemma ShortestLength(c: nat)
    requires c < 29
    ensures LengthExtra(c) <= 5 && (LengthBase(c) <= 3 ==> c == 0 && LengthExtra(c) == 0)
  {
  }

  lemma NearDistance(c: nat)
    requires c < 30
    ensures DistanceExtra(c) <= 13 && (DistanceBase(c) <= 256 ==> DistanceExtra(c) <= 6)
  {
  }

  lemma FixedLengths(s: nat)
    ensures |FixedLit()| == 288 && |FixedDist()| == 32
    ensures s < 256 ==> FixedLit()[s] <= 9
    ensures 257 <= s < 286 ==> FixedLit()[s] <= 8
    ensures FixedLit()[257] == 7 && FixedLit()[256] == 7
    ensures s < 30 ==> FixedDist()[s] == 5
  {
  }

  lemma WidthOfExtra(t: CodeTree, s: int, v: int, k: nat)
    requires Sends(t, s)
    ensures Width([CodePiece(t, s)] + Extra(v, k)) == t.len[s] + k
  {
    var p := CodePiece(t, s);
    WidthOne(p);
    if k == 0 {
      assert [p] + Extra(v, k) == [p];
    } else {
      WidthOne(Piece(v, k));
      WidthAppend([p], [Piece(v, k)]);
    }
  }

  lemma TokenTakes(m: Maps, t: Token, lit: CodeTree, dist: CodeTree)
    requires Sendable(m, t, lit, dist)
    ensures t.Literal? ==> Sends(lit, t.byte) && Width(TokenPieces(m, t, lit, dist)) == lit.len[t.byte]
    ensures t.Pair2? ==>
              3 <= t.len <= 258 && 1 <= t.dist <= 32768 && GoodMaps(m)
              && (var c, d := LengthCode(m, t.len), DistCode(m, t.dist);
                  && 0 <= c < 29 && 0 <= d < 30 && LengthBase(c) <= t.len && DistanceBase(d) <= t.dist
                  && Sends(lit, 257 + c) && Sends(dist, d)
                  && Width(TokenPieces(m, t, lit, dist))
                  == lit.len[257 + c] + LengthExtra(c) + (dist.len[d] + DistanceExtra(d)))
  {
    hide Sends, GoodMaps, LengthBase, LengthExtra, DistanceBase, DistanceExtra, Pow2, Width, CodePiece, Extra;
    LitSymIs(m, t, lit, dist);
    if t.Literal? {
      WidthOne(CodePiece(lit, t.byte));
      CodeLength(lit, t.byte);
    } else {
      var c, d := LengthCode(m, t.len), DistCode(m, t.dist);
      var a, b := [CodePiece(lit, 257 + c)] + Extra(t.len - LengthBase(c), LengthExtra(c)),
                  [CodePiece(dist, d)] + Extra(t.dist - DistanceBase(d), DistanceExtra(d));
      WidthOfExtra(lit, 257 + c, t.len - LengthBase(c), LengthExtra(c));
      WidthOfExtra(dist, d, t.dist - DistanceBase(d), DistanceExtra(d));
      WidthAppend(a, b);
    }
  }

  lemma CodeLength(t: CodeTree, s: int)
    requires Sends(t, s)
    ensures CodePiece(t, s).len == t.len[s]
  {
  }

  /** A token takes at most 31 bits, nine for each byte that it stands for, and 24 if it does not reach far. */
  lemma StaticCost(z: Tables, t: Token)
    requires GoodTables(z) && Sendable(z.maps, t, z.lit, z.dist)
    ensures
      var n := Width(TokenPieces(z.maps, t, z.lit, z.dist));
      && n <= 31 && n <= 9 * Covers(t) && (t.Literal? || t.dist <= 256 ==> n <= 24)
  {
    hide GoodMaps, Sends, LengthBase, LengthExtra, DistanceBase, DistanceExtra, FixedLit, FixedDist, TokenPieces, Width;
    TokenTakes(z.maps, t, z.lit, z.dist);
    FixedLengths(0);
    if t.Literal? {
      FixedLengths(t.byte);
    } else {
      var c, d := LengthCode(z.maps, t.len), DistCode(z.maps, t.dist);
      ShortestLength(c);
      NearDistance(d);
      FixedLengths(257 + c);
      FixedLengths(d);
    }
  }

  // ----- all tokens of a block

  ghost predicate AllNear(ts: seq<Token>) {
    forall i :: 0 <= i < |ts| ==> ts[i].Literal? || ts[i].dist <= 256
  }

  lemma {:induction false} StaticCosts(z: Tables, ts: seq<Token>)
    requires GoodTables(z) && AllSendable(z.maps, ts, z.lit, z.dist)
    ensures
      var n := Width(TokensPieces(z.maps, ts, z.lit, z.dist));
      n <= 31 * |ts| && n <= 9 * Covered(ts) && (AllNear(ts) ==> n <= 24 * |ts|)
  {
    hide GoodTables, Sendable, TokenPieces, Covers, Width;
    NoWidth();
    if ts != [] {
      StaticCost(z, ts[0]);
      StaticCosts(z, ts[1..]);
      WidthAppend(TokenPieces(z.maps, ts[0], z.lit, z.dist), TokensPieces(z.maps, ts[1..], z.lit, z.dist));
    }
  }

  /** The first tokens take no more than all of them. */
  lemma {:induction false} FirstCosts(m: Maps, ts: seq<Token>, k: nat, lit: CodeTree, dist: CodeTree)
    requires AllSendable(m, ts, lit, dist) && k <= |ts|
    ensures AllSendable(m, ts[..k], lit, dist)
    ensures Width(TokensPieces(m, ts[..k], lit, dist)) <= Width(TokensPieces(m, ts, lit, dist))
    decreases |ts| - k
  {
    hide Sendable, TokenPieces, Width;
    if k < |ts| {
      FirstCosts(m, ts, k + 1, lit, dist);
      assert ts[..k + 1] == ts[..k] + [ts[k]];
      TokensSnoc(m, ts[..k], ts[k], lit, dist);
      WidthAppend(TokensPieces(m, ts[..k], lit, dist), TokenPieces(m, ts[k], lit, dist));
    } else {
      assert ts[..k] == ts;
    }
  }

  // ----- blocks that cannot overtake their tokens

  /**
   The output of a block, which begins with `left` bits in the bit buffer and no bytes pending, reaches the
   place in memory of a token before that is read.
   */
  ghost predicate Overtakes(z: Tables, b: Block, left: nat, size: nat)
    requires ValidBlock(z, b)
  {
    match b
    case StoredBlock(_) => false
    case StaticBlock(ts) => !Ahead(z.maps, ts, z.lit, z.dist, left + 3, size)
    case DynamicBlock(ts, lit, dist, bl, n, ll, dl) =>
      !Ahead(z.maps, ts, lit, dist, left + 3 + Width(TreesPieces(bl, n, ll, dl)), size)
  }

  lemma StaticOvertakes(z: Tables, ts: seq<Token>, left: nat, size: nat)
    requires ValidBlock(z, StaticBlock(ts)) && AllSendable(z.maps, ts, z.lit, z.dist)
    ensures Overtakes(z, StaticBlock(ts), left, size) == !Ahead(z.maps, ts, z.lit, z.dist, left + 3, size)
  {
    hide ValidBlock, Ahead;
  }

  lemma StoredNever(z: Tables, bs: seq<Byte>, left: nat, size: nat)
    requires ValidBlock(z, StoredBlock(bs))
    ensures !Overtakes(z, StoredBlock(bs), left, size)
  {
    hide ValidBlock;
  }

  /** All the bits up to the end of the tokens fit before the first of them. */
  lemma AheadWhenShort(m: Maps, ts: seq<Token>, lit: CodeTree, dist: CodeTree, start: nat, size: nat)
    requires AllSendable(m, ts, lit, dist) && start + Width(TokensPieces(m, ts, lit, dist)) <= 8 * size + 8
    ensures Ahead(m, ts, lit, dist, start, size)
  {
    forall k | 0 <= k < |ts| ensures AheadAt(m, ts, lit, dist, start, size, k) {
      FirstCosts(m, ts, k, lit, dist);
      PendingBound(start + Width(TokensPieces(m, ts[..k], lit, dist)), size);
    }
    hide AheadAt;
  }

  lemma PendingBound(bits: nat, size: nat)
    requires bits <= 8 * size + 8
    ensures PendingAt(bits) <= size
  {
  }

  /** Three bytes a token keep behind the tokens, which give back only two: there are not enough of them. */
  lemma AheadWhenNear(z: Tables, ts: seq<Token>, start: nat, size: nat)
    requires GoodTables(z) && AllSendable(z.maps, ts, z.lit, z.dist) && AllNear(ts) && start <= 19 && |ts| < size
    ensures Ahead(z.maps, ts, z.lit, z.dist, start, size)
  {
    hide GoodTables, Sendable, TokensPieces, Width, PendingAt;
    forall k | 0 <= k < |ts| ensures AheadAt(z.maps, ts, z.lit, z.dist, start, size, k) {
      StaticCosts(z, ts[..k]);
      var bits := start + Width(TokensPieces(z.maps, ts[..k], z.lit, z.dist));
      ThreeBytes(bits, k, size);
    }
    hide AheadAt;
  }

  /** Literals alone. */
  ghost predicate AllBytes(ts: seq<Token>) {
    forall i :: 0 <= i < |ts| ==> ts[i].Literal?
  }

  lemma BytesNear(ts: seq<Token>)
    ensures AllBytes(ts) ==> AllNear(ts)
  {
  }

  /** A literal takes at most fifteen bits, which is less than two bytes. */
  lemma {:induction false} ByteCosts(m: Maps, ts: seq<Token>, lit: CodeTree, dist: CodeTree)
    requires AllSendable(m, ts, lit, dist) && AllBytes(ts)
    ensures Width(TokensPieces(m, ts, lit, dist)) <= 15 * |ts|
  {
    hide Sendable, TokenPieces, Width;
    NoWidth();
    if ts != [] {
      TokenTakes(m, ts[0], lit, dist);
      LongestCode(lit, ts[0].byte);
      ByteCosts(m, ts[1..], lit, dist);
      WidthAppend(TokenPieces(m, ts[0], lit, dist), TokensPieces(m, ts[1..], lit, dist));
    }
  }

  lemma LongestCode(t: CodeTree, s: int)
    requires Sends(t, s)
    ensures t.len[s] <= 15
  {
  }

  lemma RunCost(t: CodeTree, r: Run)
    requires SendsRun(t, r) && |t.len| >= 19 && forall i :: 0 <= i < 19 ==> t.len[i] < 8
    ensures Width(RunPieces(t, r)) <= 14
  {
    RunWidth(t, r);
  }

  lemma {:induction false} RunsCost(t: CodeTree, rs: seq<Run>)
    requires SendsRuns(t, rs) && |t.len| >= 19 && forall i :: 0 <= i < 19 ==> t.len[i] < 8
    ensures Width(RunsPieces(t, rs)) <= 14 * |rs|
  {
    hide SendsRun, RunPieces, Width;
    NoWidth();
    if rs != [] {
      RunCost(t, rs[0]);
      RunsCost(t, rs[1..]);
      WidthAppend(RunPieces(t, rs[0]), RunsPieces(t, rs[1..]));
    }
  }

  /** There are no more runs than lengths. */
  lemma {:induction false} RunsFew(lens: seq<nat>, i: nat, prev: int)
    requires i <= |lens|
    ensures |RunsFrom(lens, i, prev)| <= |lens| - i
    decreases |lens| - i
  {
    if i < |lens| {
      var n := Stretch(lens, i, MaxCount(lens[i], prev));
      GroupFew(lens[i], prev, n);
      RunsFew(lens, i + n, lens[i]);
    }
  }

  lemma GroupFew(l: nat, prev: int, n: nat)
    requires n > 0
    ensures |GroupOf(l, prev, n)| <= n
  {
  }

  /** The trees of a dynamic block take at most 4495 bits. */
  lemma TreesCost(bl: CodeTree, n: nat, ll: seq<nat>, dl: seq<nat>)
    requires Describes(bl, n, ll, dl) && forall i :: 0 <= i < 19 && i < |bl.len| ==> 0 <= bl.len[i] < 8
    ensures Width(TreesPieces(bl, n, ll, dl)) <= 4495
  {
    hide *;
    DescribesParts(bl, n, ll, dl, []);
    TreesAre(bl, n, ll, dl);
    var a, b, c, d := SizePieces(|ll|, |dl|, n), BlPieces(bl.len, n), RunsPieces(bl, Runs(ll)),
                      RunsPieces(bl, Runs(dl));
    WidthAppend(a, b + (c + d));
    WidthAppend(b, c + d);
    WidthAppend(c, d);
    SizeWidth(|ll|, |dl|, n);
    BlWidth(bl.len, n);
    RunsCost(bl, Runs(ll));
    RunsCost(bl, Runs(dl));
    RunsAre(ll);
    RunsAre(dl);
    RunsFew(ll, 0, -1);
    RunsFew(dl, 0, -1);
  }

  lemma TreesAre(bl: CodeTree, n: nat, ll: seq<nat>, dl: seq<nat>)
    requires Describes(bl, n, ll, dl)
    ensures TreesPieces(bl, n, ll, dl)
         == SizePieces(|ll|, |dl|, n) + (BlPieces(bl.len, n) + (RunsPieces(bl, Runs(ll)) + RunsPieces(bl, Runs(dl))))
  {
    hide Describes, SizePieces, BlPieces, RunsPieces, Runs;
  }

  lemma RunsAre(lens: seq<nat>)
    ensures Runs(lens) == RunsFrom(lens, 0, -1)
  {
  }

  /** Less than two bytes a token keep behind the tokens, once the trees have fitted before them. */
  lemma AheadWhenBytes(m: Maps, ts: seq<Token>, lit: CodeTree, dist: CodeTree, start: nat, size: nat)
    requires AllSendable(m, ts, lit, dist) && AllBytes(ts) && start <= 19 + 4495 && size >= 1024
    ensures Ahead(m, ts, lit, dist, start, size)
  {
    hide Sendable, TokensPieces, Width, PendingAt;
    forall k | 0 <= k < |ts| ensures AheadAt(m, ts, lit, dist, start, size, k) {
      ByteCosts(m, ts[..k], lit, dist);
      TwoBytes(start + Width(TokensPieces(m, ts[..k], lit, dist)), k, size);
    }
    hide AheadAt;
  }

  lemma TwoBytes(bits: nat, k: nat, size: nat)
    requires bits <= 4514 + 15 * k && size >= 1024
    ensures PendingAt(bits) <= size + 2 * k
  {
  }

  lemma ThreeBytes(bits: nat, k: nat, size: nat)
    requires bits <= 19 + 24 * k && k + 1 < size
    ensures PendingAt(bits) <= size + 2 * k
  {
  }
}
