/**
 `build_tree` as a whole: the heap is filled with the symbols in use, at least two
 of them, the tree is merged, and lengths and codes are assigned.
 */
module HuffmanBuild {
  import opened Arith
  import opened HuffmanLengths
  import opened Canonical
  import opened BitOrder

  // ----- codes from lengths

  lemma {:induction false} UsedPadded(cnt: seq<int>, top: nat, b: nat)
    requires top <= b < |cnt| && Used(cnt, top) == Pow2(top) && forall i :: top < i < |cnt| ==> cnt[i] == 0
    ensures Used(cnt, b) == Pow2(b)
    decreases b
  {
    if b > top {
      UsedPadded(cnt, top, b - 1);
    }
  }

  /** Full lengths over-subscribe no length and leave no bit string undecodable. */
  lemma FullFits(dl: seq<int>, cnt: seq<int>, leaves: seq<int>, top: nat)
    requires FullLengths(dl, cnt, leaves, top)
    ensures |cnt| == MAX_BITS + 1 && Fits(cnt) && Used(cnt, MAX_BITS) == Pow2(MAX_BITS) && cnt[0] == 0
  {
    hide Used, Pow2, Count;
    forall b: nat | b < |cnt| ensures Used(cnt, b) <= Pow2(b) {
      if b <= top {
        FitsFromLast(cnt, b, top);
      } else {
        UsedPadded(cnt, top, b);
      }
    }
    UsedPadded(cnt, top, MAX_BITS);
  }

  /** The next code of each length, after the first n symbols. */
  ghost predicate NextCodes(next: seq<int>, lens: seq<int>, cnt: seq<int>, n: nat) {
    && |next| == |cnt| == MAX_BITS + 1 && n <= |lens|
    && forall b :: 1 <= b <= MAX_BITS ==> next[b] == FirstCode(cnt, b) + Count(lens[..n], b)
  }

  lemma NextCodesStep(next: seq<int>, lens: seq<int>, cnt: seq<int>, n: nat)
    requires NextCodes(next, lens, cnt, n) && n < |lens| && 0 <= lens[n] <= MAX_BITS
    ensures |next| == MAX_BITS + 1 && (lens[n] == 0 ==> NextCodes(next, lens, cnt, n + 1))
    ensures lens[n] != 0 ==> next[lens[n]] == Code(lens, cnt, n)
    ensures lens[n] != 0 ==> NextCodes(next[lens[n] := next[lens[n]] + 1], lens, cnt, n + 1)
  {
    forall b | 1 <= b <= MAX_BITS
      ensures Count(lens[..n + 1], b) == Count(lens[..n], b) + (if lens[n] == b then 1 else 0)
    {
      CountStep(lens, n, b);
    }
  }

  lemma Pow2Fifteen()
    ensures Pow2(15) == 32768
  {
    assert Pow2(5) == 32;
    assert Pow2(10) == 32 * Pow2(5);
    assert Pow2(15) == 32 * Pow2(10);
  }

  lemma FirstCodeBound(cnt: seq<int>, b: nat)
    requires Fits(cnt) && |cnt| == MAX_BITS + 1 && 1 <= b <= MAX_BITS
    ensures 0 <= FirstCode(cnt, b) <= Pow2(b) <= 32768
  {
    UsedNonNegative(cnt, b - 1);
    Pow2Mono(b, 15);
    Pow2Fifteen();
  }

  /** The first loop of `gen_codes`: where the codes of each length start. */
  method FirstCodes(next: array<int>, blCount: array<int>, ghost lens: seq<int>, ghost cnt: seq<int>)
    requires next != blCount && next.Length == MAX_BITS + 1 && cnt == blCount[..]
    requires |cnt| == MAX_BITS + 1 && cnt[0] == 0 && Fits(cnt)
    modifies next
    ensures NextCodes(next[..], lens, cnt, 0)
  {
    var code := 0;
    for bits := 1 to MAX_BITS + 1
      invariant cnt == blCount[..]
      invariant code == if bits == 1 then 0 else FirstCode(cnt, bits - 1)
      invariant forall b :: 1 <= b < bits ==> next[b] == FirstCode(cnt, b)
    {
      FirstCodeBound(cnt, bits);
      hide Fits;
      code := (code + blCount[bits - 1]) * 2 % 0x1_0000;
      next[bits] := code;
    }
    assert lens[..0] == [];
  }

  /** The first n symbols have their codes, the other entries are as they were. */
  ghost predicate Coding(fc: seq<int>, f: seq<int>, lens: seq<int>, cnt: seq<int>, n: nat) {
    && |fc| == |f| && n <= |lens| <= |fc|
    && (forall i :: 0 <= i < n && lens[i] != 0 ==>
          0 < lens[i] < |cnt| && Code(lens, cnt, i) >= 0 && fc[i] == Rev(Code(lens, cnt, i), lens[i]))
    && (forall i :: 0 <= i < |fc| && (i >= n || lens[i] == 0) ==> fc[i] == f[i])
  }

  lemma CodingStep(g: seq<int>, g': seq<int>, f: seq<int>, lens: seq<int>, cnt: seq<int>, n: nat)
    requires Coding(g, f, lens, cnt, n) && n < |lens| && |g'| == |g|
    requires lens[n] != 0 ==> 0 < lens[n] < |cnt| && Code(lens, cnt, n) >= 0
                              && g'[n] == Rev(Code(lens, cnt, n), lens[n])
    requires lens[n] == 0 ==> g'[n] == g[n]
    requires forall i :: 0 <= i < |g| && i != n ==> g'[i] == g[i]
    ensures Coding(g', f, lens, cnt, n + 1)
  {
    hide Code, Rev;
  }

  /** `gen_codes`: consecutive codes for each length, stored bit-reversed. */
  method GenCodes(fc: array<int>, dl: array<int>, maxCode: int, blCount: array<int>,
                  ghost f: seq<int>, ghost lens: seq<int>, ghost cnt: seq<int>)
    requires fc != dl && fc != blCount && f == fc[..] && cnt == blCount[..]
    requires -1 <= maxCode < dl.Length <= fc.Length && lens == dl[..maxCode + 1]
    requires |cnt| == MAX_BITS + 1 && cnt[0] == 0 && Counts(lens, cnt) && Fits(cnt)
    requires forall n :: 0 <= n < |lens| ==> 0 <= lens[n] <= MAX_BITS
    modifies fc
    ensures Coding(fc[..], f, lens, cnt, |lens|)
  {
    var next := new int[MAX_BITS + 1];
    next[0] := 0;
    FirstCodes(next, blCount, lens, cnt);
    hide NextCodes, Counts, Fits, Code, Rev;
    for n := 0 to maxCode + 1
      invariant next.Length == MAX_BITS + 1 && lens == dl[..maxCode + 1]
      invariant NextCodes(next[..], lens, cnt, n)
      invariant Coding(fc[..], f, lens, cnt, n)
    {
      ghost var g := fc[..];
      GenOneCode(fc, next, n, dl[n], lens, cnt);
      CodingStep(g, fc[..], f, lens, cnt, n);
    }
  }

  lemma NextCodeOf(next: seq<int>, lens: seq<int>, cnt: seq<int>, n: nat)
    requires Counts(lens, cnt) && Fits(cnt) && NextCodes(next, lens, cnt, n)
    requires n < |lens| && 0 < lens[n] <= MAX_BITS
    ensures |next| == |cnt| == MAX_BITS + 1 == 16 && 0 <= next[lens[n]] == Code(lens, cnt, n) < 0xFFFF
    ensures NextCodes(next[lens[n] := next[lens[n]] + 1], lens, cnt, n + 1)
  {
    NextCodesStep(next, lens, cnt, n);
    CodeBounds(lens, cnt, n);
    Pow2Mono(lens[n], 15);
    Pow2Fifteen();
  }

  /** The code of one symbol, and the counter for its length moved on. */
  method GenOneCode(fc: array<int>, next: array<int>, n: nat, len: int, ghost lens: seq<int>, ghost cnt: seq<int>)
    requires fc != next && n < |lens| && n < fc.Length && len == lens[n] && 0 <= len <= MAX_BITS
    requires Counts(lens, cnt) && Fits(cnt) && NextCodes(next[..], lens, cnt, n)
    modifies fc, next
    ensures next.Length == MAX_BITS + 1 && NextCodes(next[..], lens, cnt, n + 1)
    ensures len != 0 ==> |cnt| == MAX_BITS + 1 && Code(lens, cnt, n) >= 0 && fc[n] == Rev(Code(lens, cnt, n), len)
    ensures len == 0 ==> fc[n] == old(fc[n])
    ensures forall i :: 0 <= i < fc.Length && i != n ==> fc[i] == old(fc[i])
  {
    hide *;
    ghost var nx := next[..];
    NextCodesStep(nx, lens, cnt, n);
    if len == 0 {
      return;
    }
    NextCodeOf(nx, lens, cnt, n);
    var c := BiReverse(next[len], len);
    fc[n] := c;
    next[len] := (next[len] + 1) % 0x1_0000;
    assert next[..] == nx[len := nx[len] + 1];
  }
}
