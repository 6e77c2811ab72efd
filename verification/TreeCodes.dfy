/**
 The codes that `build_tree` assigns are the canonical codes that inflate works with:
 it accepts their lengths, and every symbol in use has one.
 */
module TreeCodes {
  import opened Arith
  import opened Canonical
  import opened BitOrder
  import opened DecodeTable
  import opened SymbolSort
  import opened InflateSpec
  import opened InflateRuns
  import opened FixedCodes
  import opened HuffmanLengths
  import opened BuildTree
  import opened BlockPieces
  import opened ReadBack

  /** Counts that agree on the lengths in use measure the same code space. */
  lemma {:induction false} SameUsed(cnt: seq<int>, cnt': seq<int>, b: nat)
    requires b < |cnt| && b < |cnt'| && forall i :: 1 <= i <= b ==> cnt[i] == cnt'[i]
    ensures Used(cnt, b) == Used(cnt', b)
  {
    if b > 0 {
      SameUsed(cnt, cnt', b - 1);
    }
  }

  /** Zeros behind do not count. */
  lemma {:induction false} CountPadded(d: seq<int>, k: nat, n: nat, b: int)
    requires k <= n <= |d| && b > 0 && forall i :: k <= i < n ==> d[i] == 0
    ensures Count(d[..n], b) == Count(d[..k], b)
    decreases n
  {
    if k < n {
      CountStep(d, n - 1, b);
      CountPadded(d, k, n - 1, b);
    }
  }

  /** Counts made by the compressor and by the decompressor agree. */
  lemma CntAgrees(d: seq<int>, cnt: seq<int>, k: nat, n: nat)
    requires k <= n <= |d| && forall i :: k <= i < n ==> d[i] == 0
    requires |cnt| == MAXBITS + 1 && Counts(d[..k], cnt)
    ensures |Cnt(d[..n])| == MAXBITS + 1 && forall b :: 1 <= b <= MAXBITS ==> Cnt(d[..n])[b] == cnt[b]
  {
    forall b | 1 <= b <= MAXBITS ensures Cnt(d[..n])[b] == cnt[b] {
      CountPadded(d, k, n, b);
      CntAt(d[..n], b);
      hide Count, Cnt;
    }
  }

  lemma CodeAgrees(d: seq<int>, cnt: seq<int>, k: nat, n: nat, s: nat)
    requires k <= n <= |d| && s < k && 1 <= d[s] <= MAXBITS && |cnt| == MAXBITS + 1
    requires |Cnt(d[..n])| == MAXBITS + 1 && forall b :: 1 <= b <= MAXBITS ==> Cnt(d[..n])[b] == cnt[b]
    ensures Code(d[..n], Cnt(d[..n]), s) == Code(d[..k], cnt, s)
  {
    assert d[..n][..s] == d[..k][..s];
    hide Cnt, Count;
    SameUsed(Cnt(d[..n]), cnt, d[s] - 1);
  }

  /** Complete lengths are acceptable, whatever the count of zeros. */
  lemma AcceptableAgrees(kind: CodeType, c: seq<int>, cnt: seq<int>)
    requires |c| == |cnt| == MAXBITS + 1 && forall b :: 1 <= b <= MAXBITS ==> c[b] == cnt[b]
    requires c[0] >= 0 && Canonical.Fits(cnt) && Used(cnt, MAXBITS) == Pow2(MAXBITS)
    ensures Acceptable(kind, c)
  {
    forall b: nat | b < |c| ensures Used(c, b) <= Pow2(b) {
      SameUsed(c, cnt, b);
      hide Pow2, Used;
    }
    SameUsed(c, cnt, MAXBITS);
    hide Used, Pow2;
  }

  /** A symbol in use lies within the tree and has a length. */
  lemma InUseLength(g: seq<int>, c: seq<int>, d: seq<int>, cnt: seq<int>, leaves: seq<int>, elems: int, maxCode: int,
                    top: nat, x: int)
    requires Tree(g, c, d, cnt, leaves, elems, maxCode, top) && 0 <= x < elems
    ensures |c| == |d| == |g| && 0 <= maxCode < elems <= |d| && top <= MAX_BITS
    ensures g[x] != 0 ==> x <= maxCode && 1 <= d[x] <= top
    ensures g[x] == 0 ==> d[x] == 0
  {
    if g[x] != 0 {
      assert x in leaves;
      var i :| 0 <= i < |leaves| && leaves[i] == x;
    }
    hide Counts, Canonical.Fits, Used, Code, Rev, Histogram;
  }

  /** The codes of a tree are the canonical ones of its first n lengths. */
  lemma TreeEncodes(g: seq<int>, c: seq<int>, d: seq<int>, cnt: seq<int>, leaves: seq<int>, elems: int, maxCode: int,
                    top: nat, n: nat)
    requires Tree(g, c, d, cnt, leaves, elems, maxCode, top) && maxCode < n <= elems
    ensures n <= |d| && Encodes(CodeTree(c, d), d[..n])
  {
    hide *;
    ZerosBehind(g, c, d, cnt, leaves, elems, maxCode, top);
    forall s: nat | s < n && d[s] != 0 ensures HasCode(CodeTree(c, d), d[..n], s) {
      TreeCodeAt(g, c, d, cnt, leaves, elems, maxCode, top, n, s);
    }
    MakeEncodes(CodeTree(c, d), d[..n]);
  }

  lemma MakeEncodes(t: CodeTree, lens: seq<int>)
    requires forall s: nat :: s < |lens| && lens[s] != 0 ==> HasCode(t, lens, s)
    ensures Encodes(t, lens)
  {
    hide HasCode;
  }

  lemma TreeCodeAt(g: seq<int>, c: seq<int>, d: seq<int>, cnt: seq<int>, leaves: seq<int>, elems: int, maxCode: int,
                   top: nat, n: nat, s: nat)
    requires Tree(g, c, d, cnt, leaves, elems, maxCode, top) && maxCode < n <= elems && s < n <= |d| && d[s] != 0
    ensures HasCode(CodeTree(c, d), d[..n], s)
  {
    hide *;
    InUseLength(g, c, d, cnt, leaves, elems, maxCode, top, s);
    TreeCodeOf(g, c, d, cnt, leaves, elems, maxCode, top, s);
    ZerosBehind(g, c, d, cnt, leaves, elems, maxCode, top);
    CntAgrees(d, cnt, maxCode + 1, n);
    CodeAgrees(d, cnt, maxCode + 1, n, s);
    MakeHasCode(CodeTree(c, d), d[..n], s);
  }

  lemma TreeCodeOf(g: seq<int>, c: seq<int>, d: seq<int>, cnt: seq<int>, leaves: seq<int>, elems: int, maxCode: int,
                   top: nat, s: nat)
    requires Tree(g, c, d, cnt, leaves, elems, maxCode, top) && s < elems && s < |d| && d[s] != 0
    ensures |c| == |d| && |cnt| == MAXBITS + 1 && s <= maxCode < |d| && 1 <= d[s] <= MAXBITS
    ensures Code(d[..maxCode + 1], cnt, s) >= 0 && c[s] == Rev(Code(d[..maxCode + 1], cnt, s), d[s])
  {
    InUseLength(g, c, d, cnt, leaves, elems, maxCode, top, s);
    hide Counts, Canonical.Fits, Used, Code, Rev, FullLengths, LeafSet;
  }

  lemma MakeHasCode(t: CodeTree, lens: seq<int>, s: nat)
    requires s < |lens| && s < |t.code| && s < |t.len| && t.len[s] == lens[s] && 1 <= lens[s] <= MAXBITS
    requires |Cnt(lens)| == MAXBITS + 1 && Code(lens, Cnt(lens), s) >= 0
             && t.code[s] == Rev(Code(lens, Cnt(lens), s), lens[s])
    ensures HasCode(t, lens, s)
  {
  }

  lemma ZerosBehind(g: seq<int>, c: seq<int>, d: seq<int>, cnt: seq<int>, leaves: seq<int>, elems: int, maxCode: int,
                    top: nat)
    requires Tree(g, c, d, cnt, leaves, elems, maxCode, top)
    ensures 0 <= maxCode < elems <= |d| && |cnt| == MAXBITS + 1 && Counts(d[..maxCode + 1], cnt)
    ensures forall i :: maxCode < i < elems ==> d[i] == 0
    ensures Canonical.Fits(cnt) && Used(cnt, MAXBITS) == Pow2(MAXBITS)
  {
    forall i | maxCode < i < elems ensures d[i] == 0 {
      InUseLength(g, c, d, cnt, leaves, elems, maxCode, top, i);
    }
    hide Counts, Canonical.Fits, Used, Code, Rev, Pow2;
  }

  /** The decompressor accepts the lengths of a tree. */
  lemma TreeUsable(kind: CodeType, g: seq<int>, c: seq<int>, d: seq<int>, cnt: seq<int>, leaves: seq<int>, elems: int,
                   maxCode: int,
                   top: nat, n: nat)
    requires Tree(g, c, d, cnt, leaves, elems, maxCode, top) && maxCode < n <= elems && n <= Alphabet(kind)
    ensures n <= |d| && Usable(kind, d[..n]) && forall i :: 0 <= i < n ==> 0 <= d[i] <= top <= MAXBITS
  {
    hide *;
    AlphabetBound(elems);
    ZerosBehind(g, c, d, cnt, leaves, elems, maxCode, top);
    CntAgrees(d, cnt, maxCode + 1, n);
    CntZero(d[..n]);
    AcceptableAgrees(kind, Cnt(d[..n]), cnt);
    forall i | 0 <= i < n ensures 0 <= d[i] <= top <= MAXBITS {
      InUseLength(g, c, d, cnt, leaves, elems, maxCode, top, i);
      AlphabetBound(i);
    }
    MakeUsable(kind, d[..n]);
  }

  lemma AlphabetBound(i: int)
    ensures MAXBITS == MAX_BITS == 15
  {
  }

  lemma CntZero(lens: seq<int>)
    ensures |Cnt(lens)| == MAXBITS + 1 && Cnt(lens)[0] >= 0
  {
  }

  lemma MakeUsable(kind: CodeType, lens: seq<int>)
    requires |Cnt(lens)| == MAXBITS + 1 && Acceptable(kind, Cnt(lens)) && |lens| <= Alphabet(kind)
    requires forall i :: 0 <= i < |lens| ==> 0 <= lens[i] <= MAXBITS
    ensures Usable(kind, lens)
  {
    hide Acceptable, Cnt;
  }

  /** A symbol in use can be sent, and is listed. */
  lemma TreeSends(g: seq<int>, c: seq<int>, d: seq<int>, cnt: seq<int>, leaves: seq<int>, elems: int, maxCode: int,
                  top: nat, n: nat, x: int)
    requires Tree(g, c, d, cnt, leaves, elems, maxCode, top) && maxCode < n <= elems && 0 <= x < elems && g[x] != 0
    ensures n <= |d| && 0 <= x <= maxCode && Sends(CodeTree(c, d), x) && Listed(d[..n], x)
  {
    hide Counts, Canonical.Fits, Used, Code, LeafSet, FullLengths, Pow2, Rev;
    InUseLength(g, c, d, cnt, leaves, elems, maxCode, top, x);
  }

  /** The guard behind the lengths makes no difference to the codes. */
  lemma GuardKeeps(c: seq<int>, d: seq<int>, d': seq<int>, lens: seq<int>)
    requires Encodes(CodeTree(c, d), lens) && |d'| == |d| && |lens| <= |d| && d'[..|lens|] == d[..|lens|] == lens
    ensures Encodes(CodeTree(c, d'), lens)
    ensures forall x :: 0 <= x < |lens| && Sends(CodeTree(c, d), x) ==> Sends(CodeTree(c, d'), x)
  {
    forall i | 0 <= i < |lens| ensures d'[i] == d[i] {
      assert d'[..|lens|][i] == d[..|lens|][i];
    }
    forall s: nat | s < |lens| && s < |c| && s < |d'| && lens[s] != 0 ensures HasCode(CodeTree(c, d'), lens, s) {
      assert HasCode(CodeTree(c, d), lens, s);
      hide Code, Rev, Cnt;
    }
    hide HasCode, Pow2;
  }
}
