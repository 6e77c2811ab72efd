/** The static trees that `tr_static_init` builds are the fixed codes of RFC 1951 section 3.2.6. */
module StaticTrees {
  import opened Arith
  import opened Canonical
  import opened BitOrder
  import opened SymbolSort
  import opened InflateSpec
  import opened FixedCodes
  import opened HuffmanBuild
  import opened BlockPieces
  import opened ReadBack
  import opened TreeCodes

  /** Lengths of symbols from n0 up to n, and their count. */
  method FillLens(len: array<int>, blCount: array<int>, n0: nat, n1: nat, bits: nat)
    requires len != blCount && len.Length == 288 && blCount.Length == 16 && n0 <= n1 <= 288 && 1 <= bits <= 15
    modifies len, blCount
    ensures len[..] == old(len[..n0]) + seq(n1 - n0, i => bits) + old(len[n1..])
    ensures blCount[..] == old(blCount[..])[bits := old(blCount[bits]) + n1 - n0]
  {
    var n := n0;
    while n < n1
      invariant n0 <= n <= n1
      invariant forall k :: 0 <= k < n0 || n <= k < 288 ==> len[k] == old(len[k])
      invariant forall k :: n0 <= k < n ==> len[k] == bits
      invariant blCount[..] == old(blCount[..])[bits := old(blCount[bits]) + n - n0]
    {
      len[n] := bits;
      n := n + 1;
      blCount[bits] := blCount[bits] + 1;
    }
  }

  /** The static literal tree. */
  method StaticLit() returns (t: CodeTree)
    ensures t.len == FixedLit() && |t.code| == 288 && Encodes(t, FixedLit())
  {
    hide *;
    var code, len, blCount := new int[288](i => 0), new int[288](i => 0), new int[16](i => 0);
    FillLens(len, blCount, 0, 144, 8);
    FillLens(len, blCount, 144, 256, 9);
    FillLens(len, blCount, 256, 280, 7);
    FillLens(len, blCount, 280, 288, 8);
    ghost var cnt, f := blCount[..], code[..];
    FixedLens(len[..]);
    StaticCounts(cnt);
    AlphabetBound(0);
    assert len[..287 + 1] == len[..];
    GenCodes(code, len, 287, blCount, f, FixedLit(), cnt);
    t := CodeTree(code[..], len[..]);
    CodingEncodes(t, f, FixedLit(), cnt);
  }

  lemma FixedLens(len: seq<int>)
    requires len == seq(144, i => 8) + seq(112, i => 9) + seq(24, i => 7) + seq(8, i => 8)
    ensures len == FixedLit() && forall n :: 0 <= n < |FixedLit()| ==> 0 <= FixedLit()[n] <= 15
  {
  }

  lemma StaticCounts(cnt: seq<int>)
    requires |cnt| == 16 && forall x ::
             0 <= x <= 15 ==> cnt[x] == if x == 7 then 24 else if x == 8 then 152 else if x == 9 then 112 else 0
    ensures Counts(FixedLit(), cnt) && Canonical.Fits(cnt)
  {
    hide FixedLit, Count;
    forall b | 0 < b < |cnt| ensures cnt[b] == Count(FixedLit(), b) {
      FixedLitCount(b);
    }
    FixedLitFull(cnt);
    hide Used, Pow2;
  }

  /** What `gen_codes` leaves are the canonical codes. */
  lemma CodingEncodes(t: CodeTree, f: seq<int>, lens: seq<int>, cnt: seq<int>)
    requires |t.len| == |t.code| == |lens| && t.len == lens && |cnt| == 16 && Counts(lens, cnt)
    requires Coding(t.code, f, lens, cnt, |lens|)
    ensures Encodes(t, lens)
  {
    hide *;
    AlphabetBound(0);
    assert lens[..|lens|] == lens;
    CntAgrees(lens, cnt, |lens|, |lens|);
    forall s: nat | s < |lens| && lens[s] != 0 ensures HasCode(t, lens, s) {
      CodingAt(t.code, f, lens, cnt, s);
      CodeAgrees(lens, cnt, |lens|, |lens|, s);
      MakeHasCode(t, lens, s);
    }
    MakeEncodes(t, lens);
  }

  lemma CodingAt(code: seq<int>, f: seq<int>, lens: seq<int>, cnt: seq<int>, s: nat)
    requires Coding(code, f, lens, cnt, |lens|) && s < |lens| && lens[s] != 0
    ensures s < |code| && 0 < lens[s] < |cnt| && Code(lens, cnt, s) >= 0 && code[s] == Rev(Code(lens, cnt, s), lens[s])
  {
    hide Code, Rev;
  }

  /** The static distance tree: thirty codes of five bits, each its own number. */
  method StaticDist() returns (t: CodeTree)
    ensures |t.len| == |t.code| == 30 && t.len == FixedDist()[..30] && Encodes(t, FixedDist())
  {
    hide *;
    var code, len := new int[30](i => 0), new int[30](i => 0);
    for n := 0 to 30
      invariant forall k :: 0 <= k < n ==> len[k] == 5 && code[k] == Rev(k, 5)
    {
      len[n] := 5;
      var c := BiReverse(n, 5);
      code[n] := c;
    }
    t := CodeTree(code[..], len[..]);
    DistEncodes(t);
  }

  lemma DistEncodes(t: CodeTree)
    requires |t.len| == |t.code| == 30 && forall k :: 0 <= k < 30 ==> t.len[k] == 5 && t.code[k] == Rev(k, 5)
    ensures |FixedDist()| == 32 && t.len == FixedDist()[..30] && Encodes(t, FixedDist())
  {
    forall s: nat | s < 30 ensures HasCode(t, FixedDist(), s) {
      DistCode5(s);
      hide Cnt, Code, Rev;
    }
    hide HasCode;
  }

  /** The code of distance symbol s is s. */
  lemma DistCode5(s: nat)
    requires s < 32
    ensures |FixedDist()| == 32 && FixedDist()[s] == 5 && |Cnt(FixedDist())| == MAXBITS + 1
    ensures Code(FixedDist(), Cnt(FixedDist()), s) == s
  {
    var cnt := Cnt(FixedDist());
    forall x | 1 <= x <= 4 ensures cnt[x] == 0 {
      FixedDistCount(x);
      CntAt(FixedDist(), x);
      hide Count, FixedDist, Cnt;
    }
    NoneBelow(cnt, 4);
    assert FixedDist()[..s] == seq(s, i => 5);
    CountRepeat(s, 5, 5);
    hide Count, Cnt;
  }
}
