/**
 `gen_bitlen`: code lengths from the merged tree.  The first pass turns fathers
 into depths, cut off at the limit; when some depth was cut off, leaves are moved
 until the code space is exactly full again and the lengths are dealt out anew.
 */
module HuffmanLengths {
  import opened Arith
  import opened OptimalLengths
  import opened HuffmanOrder
  import opened HuffmanDepths
  import opened HuffmanMerge
  import opened Canonical

  const MAX_BITS := 15

  // ----- the order, seen from the leaves

  lemma TwiceInBag(s: seq<int>, i: nat, j: nat)
    requires i < j < |s| && s[i] == s[j]
    ensures multiset(s)[s[i]] >= 2
  {
    assert s == s[..i] + [s[i]] + s[i + 1..j] + [s[j]] + s[j + 1..];
  }

  lemma OrderDistinct(order: seq<int>, leaves: seq<int>, elems: int, t: nat)
    requires Order(order, leaves, elems, t)
    ensures Distinct(order)
  {
    forall i, j | 0 <= i < j < |order| ensures order[i] != order[j] {
      if order[i] == order[j] {
        TwiceInBag(order, i, j);
        NodeCount(leaves, elems, t, order[i]);
      }
    }
  }

  /** A son's father stands later in the order. */
  lemma FatherLater(order: seq<int>, leaves: seq<int>, elems: int, t: nat, i: nat) returns (p: nat)
    requires Order(order, leaves, elems, t) && i < 2 * t
    ensures i < p <= 2 * t && order[p] == elems + i / 2
  {
    var father := elems + i / 2;
    assert Internals(elems, t)[i / 2] == father;
    assert father in multiset(Internals(elems, t));
    assert father in multiset(order);
    assert father in order;
    p :| 0 <= p < |order| && order[p] == father;
    if p < 2 * t {
      assert order[p] < elems + p / 2;
    }
  }

  /** The leaves among positions i and up, in the order in which the first pass meets them. */
  ghost function LeafScan(order: seq<int>, elems: int, i: nat): (s: seq<int>)
    requires i <= |order|
    ensures |s| <= |order| - i
    decreases |order| - i
  {
    if i == |order| then [] else LeafScan(order, elems, i + 1) + (if order[i] < elems then [order[i]] else [])
  }

  lemma {:induction false} LeafScanBag(order: seq<int>, elems: int, i: nat, x: int)
    requires i <= |order|
    ensures multiset(LeafScan(order, elems, i))[x] == if x < elems then multiset(order[i..])[x] else 0
    decreases |order| - i
  {
    hide *;
    if i < |order| {
      LeafScanBag(order, elems, i + 1, x);
      ScanStep(order, elems, i);
      assert order[i..] == [order[i]] + order[i + 1..];
      BagStep(order[i], LeafScan(order, elems, i + 1), order[i + 1..], elems, x);
    } else {
      assert order[i..] == [];
      ScanEnd(order, elems);
    }
  }

  lemma ScanEnd(order: seq<int>, elems: int)
    ensures LeafScan(order, elems, |order|) == []
  {
  }

  lemma BagStep(y: int, s: seq<int>, t: seq<int>, elems: int, x: int)
    requires multiset(s)[x] == if x < elems then multiset(t)[x] else 0
    ensures multiset(if y < elems then s + [y] else s)[x] == if x < elems then multiset([y] + t)[x] else 0
  {
    BagCons(y, t, x);
    BagSnoc(s, y, x);
  }

  lemma BagCons(y: int, s: seq<int>, x: int)
    ensures multiset([y] + s)[x] == (if x == y then 1 else 0) + multiset(s)[x]
  {
  }

  lemma BagSnoc(s: seq<int>, y: int, x: int)
    ensures multiset(s + [y])[x] == (if x == y then 1 else 0) + multiset(s)[x] && s + [] == s
  {
  }

  lemma ScanIsLeaves(order: seq<int>, leaves: seq<int>, elems: int, t: nat)
    requires Order(order, leaves, elems, t)
    ensures multiset(LeafScan(order, elems, 0)) == multiset(leaves)
  {
    forall x: int
      ensures multiset(LeafScan(order, elems, 0))[x] == multiset(leaves)[x]
    {
      LeafScanBag(order, elems, 0, x);
      assert order[0..] == order;
      if x < elems {
        assert x !in Internals(elems, t);
        assert multiset(Internals(elems, t))[x] == 0;
      } else {
        assert x !in leaves;
        assert multiset(leaves)[x] == 0;
      }
    }
  }

  /** Depths cut off at top, node by node. */
  ghost function Cut(dad: seq<int>, elems: int, t: nat, top: nat): (g: seq<int>)
    requires 0 <= elems && elems + t <= |dad|
    ensures |g| == elems + t
    ensures forall n :: 0 <= n < |g| ==> 0 <= g[n] <= top
  {
    seq(elems + t, n requires 0 <= n < elems + t => Min(top, DepthOf(dad, elems, t, n)))
  }

  /** The number of extra bits that follow a symbol's code. */
  function XBits(extra: seq<int>, base: int, n: int): int {
    if n >= base && 0 <= n - base < |extra| then extra[n - base] else 0
  }

  /** The bits that f occurrences of a symbol take, each of l + x bits. */
  function SymbolBits(f: int, l: int, x: int): int {
    f * (l + x)
  }

  /** The bits that the symbols of s take: frequency times code length and extra bits. */
  ghost function Bits(fc: seq<int>, len: seq<int>, extra: seq<int>, base: int, s: seq<int>): int
    requires Picks(fc, s) && Picks(len, s)
  {
    if s == [] then 0
    else var n := s[|s| - 1];
         Bits(fc, len, extra, base, s[..|s| - 1]) + SymbolBits(fc[n], len[n], XBits(extra, base, n))
  }

  lemma BitsSnoc(fc: seq<int>, len: seq<int>, extra: seq<int>, base: int, s: seq<int>, n: int)
    requires Picks(fc, s) && Picks(len, s) && 0 <= n < |fc| && n < |len|
    ensures Picks(fc, s + [n]) && Picks(len, s + [n])
    ensures Bits(fc, len, extra, base, s + [n])
         == Bits(fc, len, extra, base, s) + SymbolBits(fc[n], len[n], XBits(extra, base, n))
  {
    assert (s + [n])[..|s|] == s;
  }

  /** Depths at position i and above are done, fathers below it still stand. */
  ghost predicate HalfDone(dl: seq<int>, dad: seq<int>, order: seq<int>, elems: int, t: nat, top: nat, i: int) {
    && 0 <= elems && elems + t <= |dad| == |dl| && 0 <= i <= |order|
    && (forall j :: 0 <= j < |order| ==> 0 <= order[j] < elems + t)
    && (forall j :: i <= j < |order| ==> dl[order[j]] == Cut(dad, elems, t, top)[order[j]])
    && (forall j :: 0 <= j < i ==> dl[order[j]] == dad[order[j]])
    && (forall n :: 0 <= n < |dl| && n !in order ==> dl[n] == dad[n])
  }

  /** The length the first pass gives a node, and whether it counts as overflow. */
  lemma CutStep(dl: seq<int>, dad: seq<int>, order: seq<int>, leaves: seq<int>, elems: int, t: nat, top: nat, i: nat)
    requires Order(order, leaves, elems, t) && Fathers(dad, order, elems, t)
    requires i < 2 * t && HalfDone(dl, dad, order, elems, t, top, i + 1)
    ensures var n := order[i];
            && dl[n] == elems + i / 2 < elems + t
            && Cut(dad, elems, t, top)[n] == Min(top, dl[dl[n]] + 1)
            && (dl[dl[n]] + 1 > top <==> DepthOf(dad, elems, t, n) > top)
  {
    var p := FatherLater(order, leaves, elems, t, i);
    SonDepth(dad, order, elems, t, i);
    assert dl[order[p]] == Cut(dad, elems, t, top)[order[p]];
  }

  lemma HalfDoneStep(dl: seq<int>, dl': seq<int>, dad: seq<int>, order: seq<int>, leaves: seq<int>, elems: int, t: nat,
                     top: nat, i: nat)
    requires Order(order, leaves, elems, t) && i < |order|
    requires HalfDone(dl, dad, order, elems, t, top, i + 1)
    requires dl' == dl[order[i] := Cut(dad, elems, t, top)[order[i]]]
    ensures HalfDone(dl', dad, order, elems, t, top, i)
  {
    OrderDistinct(order, leaves, elems, t);
    assert order[i] in order;
  }

  /** The histogram of lengths after the leaves of s. */
  ghost predicate Histogram(cnt: seq<int>, len: seq<int>, s: seq<int>) {
    && |cnt| == MAX_BITS + 1 && Picks(len, s)
    && forall b :: 0 <= b <= MAX_BITS ==> cnt[b] == Count(Pick(len, s), b)
  }

  lemma HistogramSnoc(cnt: seq<int>, cnt': seq<int>, len: seq<int>, s: seq<int>, n: int)
    requires Histogram(cnt, len, s) && 0 <= n < |len| && 0 <= len[n] <= MAX_BITS
    requires cnt' == cnt[len[n] := cnt[len[n]] + 1]
    ensures Histogram(cnt', len, s + [n])
  {
    assert Pick(len, s + [n]) == Pick(len, s) + [len[n]];
    forall b | 0 <= b <= MAX_BITS ensures cnt'[b] == Count(Pick(len, s + [n]), b) {
      CountSnoc(Pick(len, s), len[n], b);
    }
  }

  lemma ScanStep(order: seq<int>, elems: int, i: nat)
    requires i < |order|
    ensures LeafScan(order, elems, i) == if order[i] < elems then LeafScan(order, elems, i + 1) + [order[i]]
                                         else LeafScan(order, elems, i + 1)
  {
  }

  /** What the first pass accumulates over the leaves of s. */
  ghost predicate Tallied(cnt: seq<int>, fc: seq<int>, len: seq<int>, stree: seq<int>, extra: seq<int>, base: int,
                          s: seq<int>, optBits: int, staticBits: int) {
    && Histogram(cnt, len, s)
    && Picks(len, s) && Picks(fc, s) && optBits == Bits(fc, len, extra, base, s)
    && Picks(stree, s) && staticBits == Bits(fc, stree, extra, base, s)
  }

  lemma TallySnoc(cnt: seq<int>, fc: seq<int>, len: seq<int>, stree: seq<int>, extra: seq<int>, base: int,
                  s: seq<int>, optBits: int, staticBits: int, n: int, bits: int)
    requires Tallied(cnt, fc, len, stree, extra, base, s, optBits, staticBits)
    requires 0 <= n < |len| && n < |fc| && n < |stree| && len[n] == bits && 0 <= bits < |cnt|
    ensures Tallied(cnt[bits := cnt[bits] + 1], fc, len, stree, extra, base, s + [n],
                    optBits + SymbolBits(fc[n], bits, XBits(extra, base, n)),
                    staticBits + SymbolBits(fc[n], stree[n], XBits(extra, base, n)))
  {
    hide SymbolBits, XBits;
    HistogramSnoc(cnt, cnt[bits := cnt[bits] + 1], len, s, n);
    BitsSnoc(fc, len, extra, base, s, n);
    BitsSnoc(fc, stree, extra, base, s, n);
    hide Histogram, Bits;
  }

  /** Everything the first pass has established once positions i and up are done. */
  ghost predicate PassState(dl: seq<int>, dad: seq<int>, cnt: seq<int>, fc: seq<int>, order: seq<int>, elems: int,
                            t: nat,
                            top: nat, i: int, extra: seq<int>, base: int, stree: seq<int>,
                            overflow: int, optBits: int, staticBits: int) {
    && HalfDone(dl, dad, order, elems, t, top, i)
    && Fathers(dad, order, elems, t) && 0 <= i <= 2 * t
    && var done := LeafScan(order, elems, i);
       var len := Cut(dad, elems, t, top);
       && Tallied(cnt, fc, len, stree, extra, base, done, optBits, staticBits)
       && overflow == Overflow(dad, order, elems, t, top, i)
  }

  lemma PassStepNode(dl: seq<int>, dl': seq<int>, dad: seq<int>, cnt: seq<int>, fc: seq<int>, order: seq<int>,
                     leaves: seq<int>, elems: int, t: nat, top: nat, i: nat, n: int, bits: int,
                     extra: seq<int>, base: int, stree: seq<int>, overflow: int, optBits: int, staticBits: int)
    requires Order(order, leaves, elems, t) && i < 2 * t && n == order[i] && n >= elems
    requires PassState(dl, dad, cnt, fc, order, elems, t, top, i + 1, extra, base, stree, overflow, optBits, staticBits)
    requires 0 <= n < |dl| && 0 <= dl[n] < |dl| && bits == Min(top, dl[dl[n]] + 1) && dl' == dl[n := bits]
    ensures PassState(dl', dad, cnt, fc, order, elems, t, top, i, extra, base, stree,
                      overflow + (if dl[dl[n]] + 1 > top then 1 else 0), optBits, staticBits)
  {
    CutStep(dl, dad, order, leaves, elems, t, top, i);
    HalfDoneStep(dl, dl', dad, order, leaves, elems, t, top, i);
    ScanStep(order, elems, i);
    hide Cut, HalfDone, Tallied, Fathers, Order, LeafScan, DepthOf;
  }

  lemma PassStepLeaf(dl: seq<int>, dl': seq<int>, dad: seq<int>, cnt: seq<int>, fc: seq<int>, order: seq<int>,
                     leaves: seq<int>, elems: int, t: nat, top: nat, i: nat, n: int, bits: int,
                     extra: seq<int>, base: int, stree: seq<int>, overflow: int, optBits: int, staticBits: int)
    requires Order(order, leaves, elems, t) && i < 2 * t && n == order[i] && 0 <= n < elems
    requires PassState(dl, dad, cnt, fc, order, elems, t, top, i + 1, extra, base, stree, overflow, optBits, staticBits)
    requires 0 <= n < |dl| && 0 <= dl[n] < |dl| && bits == Min(top, dl[dl[n]] + 1) && dl' == dl[n := bits]
    requires 0 <= bits < |cnt| && n < |fc| && n < |stree|
    ensures PassState(dl', dad, cnt[bits := cnt[bits] + 1], fc, order, elems, t, top, i, extra, base, stree,
                      overflow + (if dl[dl[n]] + 1 > top then 1 else 0),
                      optBits + SymbolBits(fc[n], bits, XBits(extra, base, n)),
                      staticBits + SymbolBits(fc[n], stree[n], XBits(extra, base, n)))
  {
    var done, len := LeafScan(order, elems, i + 1), Cut(dad, elems, t, top);
    CutStep(dl, dad, order, leaves, elems, t, top, i);
    HalfDoneStep(dl, dl', dad, order, leaves, elems, t, top, i);
    ScanStep(order, elems, i);
    assert len[n] == bits && 0 <= n < |len|;
    hide Cut, HalfDone, Fathers, Order, LeafScan, DepthOf, XBits, SymbolBits, Tallied;
    TallySnoc(cnt, fc, len, stree, extra, base, done, optBits, staticBits, n, bits);
  }

  lemma PassStart(dl: seq<int>, dl': seq<int>, cnt: seq<int>, fc: seq<int>, order: seq<int>, leaves: seq<int>,
                  elems: int, t: nat,
                  top: nat, extra: seq<int>, base: int, stree: seq<int>)
    requires Order(order, leaves, elems, t) && Fathers(dl, order, elems, t)
    requires dl' == dl[order[2 * t] := 0]
    requires |cnt| == MAX_BITS + 1 && forall b :: 0 <= b <= MAX_BITS ==> cnt[b] == 0
    ensures PassState(dl', dl, cnt, fc, order, elems, t, top, 2 * t, extra, base, stree, 0, 0, 0)
  {
    RootDepth(dl, elems, t);
    OrderDistinct(order, leaves, elems, t);
    ScanStep(order, elems, 2 * t);
    assert order[2 * t] in order;
  }

  /** Leaves are the nodes numbered up to maxCode; internal nodes lie above. */
  ghost predicate Coded(leaves: seq<int>, elems: int, maxCode: int) {
    maxCode < elems && forall i :: 0 <= i < |leaves| ==> leaves[i] <= maxCode
  }

  lemma LeafOrInner(order: seq<int>, leaves: seq<int>, elems: int, t: nat, maxCode: int, i: nat)
    requires Order(order, leaves, elems, t) && Coded(leaves, elems, maxCode) && i < |order|
    ensures 0 <= order[i] < elems + t
    ensures order[i] <= maxCode <==> order[i] < elems
    ensures order[i] < elems ==> order[i] in leaves
  {
    assert order[i] in multiset(order);
    assert order[i] in leaves || order[i] in Internals(elems, t);
  }

  /** One node of the first pass: one more than its father, cut off at the limit. */
  method PassNode(fc: array<int>, dl: array<int>, blCount: array<int>, n: int, maxCode: int, maxLength: int,
                  extra: seq<int>, base: int, stree: seq<int>, overflow: int, optBits: int, staticBits: int,
                  ghost d: seq<int>, ghost cnt: seq<int>, ghost f: seq<int>, ghost dad: seq<int>,
                  ghost order: seq<int>, ghost leaves: seq<int>, ghost elems: int, ghost t: nat, ghost i: nat)
    returns (overflow': int, optBits': int, staticBits': int)
    requires dl != fc && dl != blCount && blCount != fc && d == dl[..] && cnt == blCount[..] && f == fc[..]
    requires |cnt| == MAX_BITS + 1 && 1 <= maxLength <= MAX_BITS
    requires Order(order, leaves, elems, t) && i < 2 * t && n == order[i]
    requires elems <= |stree| && |f| == |d| && (n <= maxCode <==> n < elems)
    requires PassState(d, dad, cnt, f, order, elems, t, maxLength, i + 1, extra, base, stree, overflow, optBits,
                       staticBits)
    requires 0 <= n < |d| && 0 <= d[n] < |d| && d[d[n]] >= 0
    modifies dl, blCount
    ensures PassState(dl[..], dad, blCount[..], f, order, elems, t, maxLength, i, extra, base, stree,
                      overflow', optBits', staticBits')
  {
    hide PassState, Order;
    var bits := dl[dl[n]] + 1;
    overflow', optBits', staticBits' := overflow, optBits, staticBits;
    if bits > maxLength {
      bits := maxLength;
      overflow' := overflow + 1;
    }
    dl[n] := bits;
    if n > maxCode {
      PassStepNode(d, dl[..], dad, cnt, f, order, leaves, elems, t, maxLength, i, n, bits,
                   extra, base, stree, overflow, optBits, staticBits);
    } else {
      blCount[bits] := blCount[bits] + 1;
      optBits' := optBits + SymbolBits(fc[n], bits, XBits(extra, base, n));
      staticBits' := staticBits + SymbolBits(fc[n], stree[n], XBits(extra, base, n));
      PassStepLeaf(d, dl[..], dad, cnt, f, order, leaves, elems, t, maxLength, i, n, bits,
                   extra, base, stree, overflow, optBits, staticBits);
    }
  }

  /** The root comes last in the order of removal. */
  lemma OrderRoot(order: seq<int>, leaves: seq<int>, elems: int, t: nat, dad: seq<int>)
    requires Order(order, leaves, elems, t) && Fathers(dad, order, elems, t)
    ensures |order| == 2 * t + 1 && 0 <= order[2 * t] < |dad| && MAX_BITS == 15 && HEAP_SIZE == 573
  {
  }

  /** The first loop of `gen_bitlen`. */
  method FirstPass(heap: array<int>, fc: array<int>, dl: array<int>, blCount: array<int>, heapMax: int, maxCode: int,
                   maxLength: int, extra: seq<int>, base: int, stree: seq<int>,
                   ghost dad: seq<int>, ghost order: seq<int>, ghost leaves: seq<int>, ghost elems: int, ghost t: nat)
    returns (overflow: int, optBits: int, staticBits: int)
    requires dl != heap && dl != fc && dl != blCount && blCount != heap && blCount != fc
    requires blCount.Length == MAX_BITS + 1 && 1 <= maxLength <= MAX_BITS
    requires Order(order, leaves, elems, t) && Fathers(dad, order, elems, t) && dad == dl[..]
    requires Coded(leaves, elems, maxCode) && elems <= |stree| && fc.Length == dl.Length
    requires heap.Length == HEAP_SIZE && heapMax == HEAP_SIZE - |order| && 0 <= heapMax
    requires forall i :: 0 <= i < |order| ==> heap[HEAP_SIZE - 1 - i] == order[i]
    modifies dl, blCount
    ensures PassState(dl[..], dad, blCount[..], fc[..], order, elems, t, maxLength, 0, extra, base, stree,
                      overflow, optBits, staticBits)
  {
    hide *;
    OrderRoot(order, leaves, elems, t, dad);
    forall b | 0 <= b <= MAX_BITS { blCount[b] := 0; }
    overflow, optBits, staticBits := 0, 0, 0;
    dl[heap[heapMax]] := 0;
    PassStart(dad, dl[..], blCount[..], fc[..], order, leaves, elems, t, maxLength, extra, base, stree);
    ghost var f := fc[..];
    var h := heapMax + 1;
    while h < HEAP_SIZE
      invariant heapMax < h <= HEAP_SIZE && f == fc[..]
      invariant PassState(dl[..], dad, blCount[..], f, order, elems, t, maxLength, HEAP_SIZE - h,
                          extra, base, stree, overflow, optBits, staticBits)
    {
      ghost var i := HEAP_SIZE - 1 - h;
      var n := heap[h];
      LeafOrInner(order, leaves, elems, t, maxCode, i);
      FatherDone(dl[..], dad, blCount[..], f, order, leaves, elems, t, maxLength, i, extra, base, stree,
                 overflow, optBits, staticBits);
      overflow, optBits, staticBits := PassNode(fc, dl, blCount, n, maxCode, maxLength, extra, base, stree,
          overflow, optBits, staticBits, dl[..], blCount[..], f, dad, order, leaves, elems, t, i);
      h := h + 1;
    }
  }

  lemma FatherDone(dl: seq<int>, dad: seq<int>, cnt: seq<int>, fc: seq<int>, order: seq<int>, leaves: seq<int>,
                   elems: int,
                   t: nat, top: nat, i: nat, extra: seq<int>, base: int, stree: seq<int>, overflow: int, optBits: int,
                   staticBits: int)
    requires Order(order, leaves, elems, t) && i < 2 * t
    requires PassState(dl, dad, cnt, fc, order, elems, t, top, i + 1, extra, base, stree, overflow, optBits, staticBits)
    ensures 0 <= order[i] < |dl| && 0 <= dl[order[i]] < |dl| && dl[dl[order[i]]] >= 0
    ensures |dl| == |dad|
  {
    CutStep(dl, dad, order, leaves, elems, t, top, i);
    var p := FatherLater(order, leaves, elems, t, i);
  }

  // ----- the length limit

  /** Lengths counted by b, with the space they overfill and the leaves they stand for. */
  ghost predicate Overfull(cnt: seq<int>, top: nat, excess: int, n: int) {
    && |cnt| == MAX_BITS + 1 && 1 <= top <= MAX_BITS && excess >= 0
    && (forall b :: 0 <= b <= MAX_BITS ==> cnt[b] >= 0)
    && (forall b :: top < b <= MAX_BITS ==> cnt[b] == 0)
    && Used(cnt, top) == Pow2(top) + excess
    && Used(cnt, top - 1) <= Pow2(top - 1)
    && Total(cnt, top) == n && n <= Pow2(top)
  }

  lemma {:induction false} UsedSame(cnt: seq<int>, cnt': seq<int>, b: nat)
    requires |cnt'| == |cnt| && b < |cnt| && forall i :: 0 < i <= b ==> cnt'[i] == cnt[i]
    ensures Used(cnt', b) == Used(cnt, b) && Total(cnt', b) == Total(cnt, b)
  {
    if b > 0 {
      UsedSame(cnt, cnt', b - 1);
    }
  }

  /** A leaf of length `bits` moved one level down beside a new brother fills the same space. */
  lemma {:induction false} UsedSplit(cnt: seq<int>, cnt': seq<int>, bits: nat, b: nat)
    requires 0 < bits < b < |cnt| == |cnt'|
    requires cnt'[bits] == cnt[bits] - 1 && cnt'[bits + 1] == cnt[bits + 1] + 2
    requires forall i :: 0 < i <= b && i != bits && i != bits + 1 ==> cnt'[i] == cnt[i]
    ensures Used(cnt', b) == Used(cnt, b) && Total(cnt', b) == Total(cnt, b) + 1
    decreases b
  {
    UsedSame(cnt, cnt', bits - 1);
    if b > bits + 1 {
      UsedSplit(cnt, cnt', bits, b - 1);
    }
  }

  /** The counts after one round of the repair loop. */
  function Moved(cnt: seq<int>, bits: int, top: int): (r: seq<int>)
    requires 0 <= bits < top < |cnt|
    ensures |r| == |cnt|
  {
    var c := cnt[bits := cnt[bits] - 1];
    var d := c[bits + 1 := c[bits + 1] + 2];
    d[top := d[top] - 1]
  }

  lemma {:induction false} EmptyBelow(cnt: seq<int>, bits: nat, b: nat)
    requires b < |cnt| && bits <= b && forall i :: bits < i <= b ==> cnt[i] == 0
    requires Used(cnt, bits) == 0 && Total(cnt, bits) == 0
    ensures Used(cnt, b) == 0 && Total(cnt, b) == 0
    decreases b
  {
    if bits < b {
      EmptyBelow(cnt, bits, b - 1);
    }
  }

  /** While the space is overfull, some leaf is shorter than the limit. */
  lemma ShorterLeaf(cnt: seq<int>, top: nat, excess: int, n: int)
    requires Overfull(cnt, top, excess, n) && excess > 0
    ensures exists b :: 0 < b < top && cnt[b] != 0
  {
    if forall b :: 0 < b < top ==> cnt[b] == 0 {
      EmptyBelow(cnt, 0, top - 1);
    }
  }

  /** One round moves one unit of excess out and keeps the number of leaves. */
  lemma MoveKeeps(cnt: seq<int>, top: nat, excess: int, n: int, bits: nat)
    requires Overfull(cnt, top, excess, n) && excess > 0
    requires 0 < bits < top && cnt[bits] > 0 && forall b :: bits < b < top ==> cnt[b] == 0
    ensures Overfull(Moved(cnt, bits, top), top, excess - 1, n)
  {
    var c := cnt[bits := cnt[bits] - 1];
    var d := c[bits + 1 := c[bits + 1] + 2];
    var r := Moved(cnt, bits, top);
    UsedSplit(cnt, d, bits, top);
    UsedSame(d, r, top - 1);
    if bits + 1 < top {
      UsedSplit(cnt, d, bits, top - 1);
    } else {
      UsedSame(cnt, d, bits - 1);
    }
    assert r[top] == d[top] - 1;
  }

  /** Every leaf is a son, so its depth is positive. */
  lemma LeafDepths(dad: seq<int>, order: seq<int>, leaves: seq<int>, elems: int, t: nat, s: seq<int>)
    requires Order(order, leaves, elems, t) && Fathers(dad, order, elems, t) && multiset(s) == multiset(leaves)
    ensures forall k :: 0 <= k < |s| ==> 0 <= s[k] < elems && DepthOf(dad, elems, t, s[k]) >= 1
  {
    forall k | 0 <= k < |s| ensures 0 <= s[k] < elems && DepthOf(dad, elems, t, s[k]) >= 1 {
      assert s[k] in multiset(s);
      assert s[k] in leaves;
      assert s[k] in multiset(order);
      assert s[k] in order;
      var i :| 0 <= i < |order| && order[i] == s[k];
      SonDepth(dad, order, elems, t, i);
    }
  }

  lemma CutLengths(dad: seq<int>, order: seq<int>, leaves: seq<int>, elems: int, t: nat, top: nat, s: seq<int>,
                   cnt: seq<int>)
    requires Order(order, leaves, elems, t) && Fathers(dad, order, elems, t) && multiset(s) == multiset(leaves)
    requires 1 <= top <= MAX_BITS && Histogram(cnt, Cut(dad, elems, t, top), s)
    ensures forall k :: 0 <= k < |s| ==> 1 <= Cut(dad, elems, t, top)[s[k]] <= top
    ensures Counts(Pick(Cut(dad, elems, t, top), s), cnt)
  {
    LeafDepths(dad, order, leaves, elems, t, s);
  }

  lemma CutSpaceTop(dad: seq<int>, order: seq<int>, leaves: seq<int>, elems: int, t: nat, top: nat, s: seq<int>,
                    cnt: seq<int>)
    requires Order(order, leaves, elems, t) && Fathers(dad, order, elems, t) && multiset(s) == multiset(leaves)
    requires 1 <= top <= MAX_BITS && Histogram(cnt, Cut(dad, elems, t, top), s)
    ensures Used(cnt, top) == Pow2(top) + Sum(Deep(dad, elems, t, top))
  {
    CutLengths(dad, order, leaves, elems, t, top, s, cnt);
    var l, u := Pick(Cut(dad, elems, t, top), s), Units(dad, elems, t, top);
    hide Order, Histogram;
    SpaceIsUsed(l, cnt, top);
    assert Picks(u, s);
    SpaceSum(l, Pick(u, s), top);
    hide Cut, Units;
    SumOver(u, s, leaves);
    LeafSpace(dad, order, leaves, elems, t, top);
  }

  lemma CutSpaceBelow(dad: seq<int>, order: seq<int>, leaves: seq<int>, elems: int, t: nat, top: nat, s: seq<int>,
                      cnt: seq<int>)
    requires Order(order, leaves, elems, t) && Fathers(dad, order, elems, t) && multiset(s) == multiset(leaves)
    requires 1 <= top <= MAX_BITS && Histogram(cnt, Cut(dad, elems, t, top), s)
    ensures Used(cnt, top - 1) <= Pow2(top - 1)
  {
    CutLengths(dad, order, leaves, elems, t, top, s, cnt);
    var l, v := Pick(Cut(dad, elems, t, top), s), Shallow(dad, elems, t, top - 1);
    hide Order, Histogram;
    SpaceIsUsed(l, cnt, top - 1);
    assert Picks(v, s);
    SpaceSum(l, Pick(v, s), top - 1);
    hide Cut, Shallow;
    SumOver(v, s, leaves);
    ShallowSpace(dad, order, leaves, elems, t, top - 1);
  }

  lemma SumOver(g: seq<int>, s: seq<int>, leaves: seq<int>)
    requires multiset(s) == multiset(leaves) && Picks(g, s)
    ensures Picks(g, leaves) && Sum(Pick(g, s)) == Sum(Pick(g, leaves))
  {
    PicksPermuted(g, s, leaves);
    PickPermuted(g, s, leaves);
    SumPermuted(Pick(g, s), Pick(g, leaves));
  }

  lemma {:induction false} SumBinary(s: seq<int>)
    requires forall i :: 0 <= i < |s| ==> 0 <= s[i]
    ensures Sum(s) >= 0
  {
    if s != [] {
      SumBinary(s[1..]);
    }
  }

  lemma HistogramTotals(cnt: seq<int>, len: seq<int>, s: seq<int>, top: nat)
    requires Histogram(cnt, len, s) && 1 <= top <= MAX_BITS
    requires forall k :: 0 <= k < |s| ==> 1 <= len[s[k]] <= top
    ensures Total(cnt, top) == |s| && cnt[0] == 0
    ensures forall b :: 0 <= b <= MAX_BITS ==> cnt[b] >= 0
    ensures forall b :: top < b <= MAX_BITS ==> cnt[b] == 0
  {
    var l := Pick(len, s);
    CountUpToAll(l, top);
    TotalIsCountUpTo(l, cnt, top);
    CountNone(l, 0);
    forall b | top < b <= MAX_BITS ensures cnt[b] == 0 {
      CountNone(l, b);
    }
  }

  /** The first pass leaves the code space overfull by half the overflow count. */
  lemma PassOverfull(dl: seq<int>, dad: seq<int>, cnt: seq<int>, fc: seq<int>, order: seq<int>, leaves: seq<int>,
                     elems: int,
                     t: nat, top: nat, extra: seq<int>, base: int, stree: seq<int>, overflow: int, optBits: int,
                     staticBits: int)
    requires Order(order, leaves, elems, t) && 1 <= top <= MAX_BITS && |leaves| <= Pow2(top)
    requires PassState(dl, dad, cnt, fc, order, elems, t, top, 0, extra, base, stree, overflow, optBits, staticBits)
    ensures overflow % 2 == 0 && overflow >= 0 && cnt[0] == 0
    ensures Overfull(cnt, top, overflow / 2, |leaves|)
  {
    ScanIsLeaves(order, leaves, elems, t);
    hide Order, HalfDone, Cut, LeafScan, Bits, Histogram;
    HistogramOverfull(dad, cnt, order, leaves, elems, t, top, LeafScan(order, elems, 0));
  }

  lemma HistogramOverfull(dad: seq<int>, cnt: seq<int>, order: seq<int>, leaves: seq<int>, elems: int, t: nat, top: nat,
                          s: seq<int>)
    requires Order(order, leaves, elems, t) && Fathers(dad, order, elems, t) && multiset(s) == multiset(leaves)
    requires 1 <= top <= MAX_BITS && Histogram(cnt, Cut(dad, elems, t, top), s) && |leaves| <= Pow2(top)
    ensures var o := Overflow(dad, order, elems, t, top, 0);
            o % 2 == 0 && o >= 0 && cnt[0] == 0 && Overfull(cnt, top, o / 2, |leaves|)
  {
    assert |cnt| == MAX_BITS + 1;
    BagSize(s, leaves);
    CutLengths(dad, order, leaves, elems, t, top, s, cnt);
    hide Order, Histogram, Fathers, Cut;
    CutSpaceTop(dad, order, leaves, elems, t, top, s, cnt);
    CutSpaceBelow(dad, order, leaves, elems, t, top, s, cnt);
    HistogramTotals(cnt, Cut(dad, elems, t, top), s, top);
    HalfOverflow(dad, order, elems, t, top);
  }

  lemma HalfOverflow(dad: seq<int>, order: seq<int>, elems: int, t: nat, top: nat)
    requires Fathers(dad, order, elems, t)
    ensures Overflow(dad, order, elems, t, top, 0) == 2 * Sum(Deep(dad, elems, t, top))
    ensures Sum(Deep(dad, elems, t, top)) >= 0
  {
    OverflowIsTwice(dad, order, elems, t, top, 0);
    var d := Deep(dad, elems, t, top);
    assert d[0..] == d;
    SumBinary(d);
  }

  /** The longest length in use below the limit. */
  method LastShorter(blCount: array<int>, maxLength: int, ghost units: int, ghost n: int) returns (bits: int)
    requires units > 0 && maxLength >= 1 && Overfull(blCount[..], maxLength, units, n)
    ensures 0 < bits < maxLength < blCount.Length && blCount[bits] != 0
    ensures forall b :: bits < b < maxLength ==> blCount[b] == 0
  {
    ShorterLeaf(blCount[..], maxLength, units, n);
    ghost var some :| 0 < some < maxLength && blCount[some] != 0;
    bits := maxLength - 1;
    while blCount[bits] == 0
      invariant some <= bits < maxLength
      invariant forall b :: bits < b < maxLength ==> blCount[b] == 0
      decreases bits
    {
      bits := bits - 1;
    }
  }

  /** The do-while loop of `gen_bitlen` that brings overlong leaves back under the limit. */
  method Repair(blCount: array<int>, maxLength: int, overflow0: int, ghost n: int)
    requires overflow0 > 0 && overflow0 % 2 == 0
    requires maxLength >= 1 && Overfull(blCount[..], maxLength, overflow0 / 2, n)
    modifies blCount
    ensures Overfull(blCount[..], maxLength, 0, n)
    ensures blCount[0] == old(blCount[0])
  {
    hide Used, Total, Pow2;
    var overflow := overflow0;
    while true
      invariant overflow > 0 && overflow % 2 == 0
      invariant Overfull(blCount[..], maxLength, overflow / 2, n)
      invariant blCount[0] == old(blCount[0])
      decreases overflow
    {
      ghost var cnt := blCount[..];
      var bits := LastShorter(blCount, maxLength, overflow / 2, n);
      MoveKeeps(cnt, maxLength, overflow / 2, n, bits);
      blCount[bits] := blCount[bits] - 1;
      blCount[bits + 1] := blCount[bits + 1] + 2;
      blCount[maxLength] := blCount[maxLength] - 1;
      assert blCount[..] == Moved(cnt, bits, maxLength);
      overflow := overflow - 2;
      if overflow <= 0 {
        break;
      }
    }
  }

  // ----- dealing the lengths out anew

  /** The leaves among the first i positions, in the order in which they were taken. */
  ghost function LeafUp(order: seq<int>, elems: int, i: nat): (s: seq<int>)
    requires i <= |order|
    ensures |s| <= i
  {
    if i == 0 then []
    else LeafUp(order, elems, i - 1) + (if order[i - 1] < elems then [order[i - 1]] else [])
  }

  lemma {:induction false} LeafUpBag(order: seq<int>, elems: int, i: nat, x: int)
    requires i <= |order|
    ensures Count(LeafUp(order, elems, i), x) == if x < elems then Count(order[..i], x) else 0
  {
    if i > 0 {
      LeafUpBag(order, elems, i - 1, x);
      CountStep(order, i - 1, x);
      CountSnoc(LeafUp(order, elems, i - 1), order[i - 1], x);
      assert order[i - 1] >= elems ==> LeafUp(order, elems, i) == LeafUp(order, elems, i - 1);
    }
  }

  lemma BagSize(s: seq<int>, t: seq<int>)
    requires multiset(s) == multiset(t)
    ensures |s| == |t|
  {
    assert |multiset(s)| == |multiset(t)|;
  }

  lemma InnerBag(leaves: seq<int>, elems: int, t: nat, x: int)
    requires LeavesOk(leaves, elems)
    ensures x < elems ==> multiset(Internals(elems, t))[x] == 0
    ensures x >= elems ==> multiset(leaves)[x] == 0
  {
    if x < elems {
      assert x !in Internals(elems, t);
    } else {
      assert x !in leaves;
    }
  }

  lemma UpIsLeaves(order: seq<int>, leaves: seq<int>, elems: int, t: nat)
    requires Order(order, leaves, elems, t)
    ensures multiset(LeafUp(order, elems, |order|)) == multiset(leaves)
    ensures |LeafUp(order, elems, |order|)| == |leaves|
  {
    forall x: int
      ensures multiset(LeafUp(order, elems, |order|))[x] == multiset(leaves)[x]
    {
      LeafUpBag(order, elems, |order|, x);
      assert order[..|order|] == order;
      CountIsMultiplicity(LeafUp(order, elems, |order|), x);
      CountIsMultiplicity(order, x);
      InnerBag(leaves, elems, t, x);
    }
    BagSize(LeafUp(order, elems, |order|), leaves);
  }

  lemma {:induction false} LeafUpMembers(order: seq<int>, leaves: seq<int>, elems: int, t: nat, i: nat, k: nat)
    requires Order(order, leaves, elems, t) && i <= |order| && k < |LeafUp(order, elems, i)|
    ensures exists j :: 0 <= j < i && order[j] == LeafUp(order, elems, i)[k]
    ensures 0 <= LeafUp(order, elems, i)[k] < elems
  {
    if k < |LeafUp(order, elems, i - 1)| {
      LeafUpMembers(order, leaves, elems, t, i - 1, k);
      assert LeafUp(order, elems, i)[k] == LeafUp(order, elems, i - 1)[k];
    } else {
      assert order[i - 1] == LeafUp(order, elems, i)[k];
    }
  }

  /** Lengths above b are dealt out; n of length b are still to come. */
  ghost predicate Dealt(cnt: seq<int>, l: seq<int>, b: int, n: int) {
    && |cnt| == MAX_BITS + 1 && 0 <= b <= MAX_BITS && 0 <= n <= cnt[b]
    && forall c :: 0 <= c <= MAX_BITS ==> Count(l, c) == if c > b then cnt[c] else if c == b then cnt[b] - n else 0
  }

  lemma DealtSnoc(cnt: seq<int>, l: seq<int>, b: int, n: int)
    requires Dealt(cnt, l, b, n) && n > 0
    ensures Dealt(cnt, l + [b], b, n - 1)
  {
    forall c | 0 <= c <= MAX_BITS
      ensures Count(l + [b], c) == if c > b then cnt[c] else if c == b then cnt[b] - (n - 1) else 0
    {
      CountSnoc(l, b, c);
    }
  }

  /** One length changed at one leaf. */
  lemma {:induction false} BitsUpdate(fc: seq<int>, len: seq<int>, len': seq<int>, extra: seq<int>, base: int,
                                      s: seq<int>, m: int)
    requires Picks(fc, s) && Picks(len, s) && |len'| == |len| && 0 <= m < |len| && m < |fc|
    requires forall n :: 0 <= n < |len| && n != m ==> len'[n] == len[n]
    ensures Picks(len', s)
    ensures Bits(fc, len', extra, base, s) == Bits(fc, len, extra, base, s)
              + multiset(s)[m] * (SymbolBits(fc[m], len'[m],
                                             XBits(extra, base, m)) - SymbolBits(fc[m], len[m], XBits(extra, base, m)))
  {
    if s != [] {
      var u, n := s[..|s| - 1], s[|s| - 1];
      assert s == u + [n];
      BitsUpdate(fc, len, len', extra, base, u, m);
      var gain := SymbolBits(fc[m], len'[m], XBits(extra, base, m)) - SymbolBits(fc[m], len[m], XBits(extra, base, m));
      hide SymbolBits, XBits;
      if n == m {
        assert multiset(s)[m] == multiset(u)[m] + 1;
        Distribute(multiset(u)[m], gain);
      }
    }
  }

  lemma Distribute(k: int, g: int)
    ensures (k + 1) * g == k * g + g
  {
  }

  /** What changing a length from l to b costs over f occurrences. */
  function Change(b: int, l: int, f: int): int {
    (b - l) * f
  }

  lemma BitsUpdateOnce(fc: seq<int>, len: seq<int>, extra: seq<int>, base: int, s: seq<int>, m: int, b: int)
    requires Picks(fc, s) && Picks(len, s) && 0 <= m < |len| && m < |fc| && multiset(s)[m] == 1
    ensures Picks(len[m := b], s)
    ensures Bits(fc, len[m := b], extra, base, s) == Bits(fc, len, extra, base, s) + Change(b, len[m], fc[m])
  {
    BitsUpdate(fc, len, len[m := b], extra, base, s, m);
    var x := XBits(extra, base, m);
    assert SymbolBits(fc[m], b, x) - SymbolBits(fc[m], len[m], x) == (b - len[m]) * fc[m];
  }

  /** Lengths dealt out to the leaves among the first i positions; the rest as before. */
  ghost predicate DealState(dl: seq<int>, d0: seq<int>, cnt: seq<int>, order: seq<int>, elems: int, n0: int,
                            i: int, b: int, n: int) {
    && 0 <= i <= |order| && |dl| == |d0|
    && Picks(dl, LeafUp(order, elems, i)) && Dealt(cnt, Pick(dl, LeafUp(order, elems, i)), b, n)
    && (forall x :: 0 <= x < |dl| && x !in LeafUp(order, elems, i) ==> dl[x] == d0[x])
    && b >= 1 && |LeafUp(order, elems, i)| + n + Total(cnt, b - 1) == n0
    && Falling(dl, LeafUp(order, elems, i), b)
  }

  /** Along s the lengths do not grow, and none is below b. */
  ghost predicate Falling(dl: seq<int>, s: seq<int>, b: int) {
    && Picks(dl, s) && (forall k :: 0 <= k < |s| ==> dl[s[k]] >= b)
    && forall k, m :: 0 <= k < m < |s| ==> dl[s[k]] >= dl[s[m]]
  }

  lemma FallingSnoc(dl: seq<int>, s: seq<int>, b: int, m: int)
    requires Falling(dl, s, b) && 0 <= m < |dl| && m !in s
    ensures Falling(dl[m := b], s + [m], b)
  {
    forall k | 0 <= k < |s| + 1
      ensures dl[m := b][(s + [m])[k]] == if k < |s| then dl[s[k]] else b
    {
      assert k < |s| ==> s[k] in s;
    }
  }

  lemma FallingNext(dl: seq<int>, s: seq<int>, b: int)
    requires Falling(dl, s, b)
    ensures Falling(dl, s, b - 1)
  {
  }

  lemma {:induction false} TotalNonNegative(cnt: seq<int>, b: nat)
    requires b < |cnt| && forall i :: 0 <= i < |cnt| ==> cnt[i] >= 0
    ensures Total(cnt, b) >= 0
  {
    if b > 0 {
      TotalNonNegative(cnt, b - 1);
    }
  }

  /** While lengths remain to be dealt, positions remain to be looked at. */
  lemma DealMore(dl: seq<int>, d0: seq<int>, cnt: seq<int>, order: seq<int>, leaves: seq<int>, elems: int, t: nat,
                 i: int, b: int, n: int)
    requires Order(order, leaves, elems, t) && DealState(dl, d0, cnt, order, elems, |leaves|, i, b, n)
    requires n > 0 && forall k :: 0 <= k < |cnt| ==> cnt[k] >= 0
    ensures i < |order|
  {
    TotalNonNegative(cnt, b - 1);
    UpIsLeaves(order, leaves, elems, t);
  }

  lemma NotYetDealt(order: seq<int>, leaves: seq<int>, elems: int, t: nat, i: nat)
    requires Order(order, leaves, elems, t) && i < |order|
    ensures order[i] !in LeafUp(order, elems, i)
  {
    OrderDistinct(order, leaves, elems, t);
    if order[i] in LeafUp(order, elems, i) {
      var k :| 0 <= k < |LeafUp(order, elems, i)| && LeafUp(order, elems, i)[k] == order[i];
      LeafUpMembers(order, leaves, elems, t, i, k);
    }
  }

  lemma DealLeaf(dl: seq<int>, d0: seq<int>, cnt: seq<int>, order: seq<int>, leaves: seq<int>, elems: int, t: nat,
                 n0: int,
                 i: int, b: int, n: int)
    requires Order(order, leaves, elems, t) && DealState(dl, d0, cnt, order, elems, n0, i, b, n)
    requires n > 0 && i < |order| && 0 <= order[i] < elems && order[i] < |dl|
    ensures DealState(dl[order[i] := b], d0, cnt, order, elems, n0, i + 1, b, n - 1)
  {
    var u, m := LeafUp(order, elems, i), order[i];
    NotYetDealt(order, leaves, elems, t, i);
    assert LeafUp(order, elems, i + 1) == u + [m];
    var dl' := dl[m := b];
    assert Pick(dl', u + [m]) == Pick(dl, u) + [b];
    DealtSnoc(cnt, Pick(dl, u), b, n);
    FallingSnoc(dl, u, b, m);
    hide Falling;
  }

  lemma DealSkip(dl: seq<int>, d0: seq<int>, cnt: seq<int>, order: seq<int>, elems: int, n0: int, i: int, b: int,
                 n: int)
    requires DealState(dl, d0, cnt, order, elems, n0, i, b, n)
    requires i < |order| && order[i] >= elems
    ensures DealState(dl, d0, cnt, order, elems, n0, i + 1, b, n)
  {
    assert LeafUp(order, elems, i + 1) == LeafUp(order, elems, i);
  }

  lemma DealNext(dl: seq<int>, d0: seq<int>, cnt: seq<int>, order: seq<int>, elems: int, n0: int, i: int, b: int)
    requires DealState(dl, d0, cnt, order, elems, n0, i, b, 0) && b >= 2
    requires forall k :: 0 <= k < |cnt| ==> cnt[k] >= 0
    ensures DealState(dl, d0, cnt, order, elems, n0, i, b - 1, cnt[b - 1])
  {
    FallingNext(dl, LeafUp(order, elems, i), b);
    hide Falling;
  }

  lemma DealStart(dl: seq<int>, cnt: seq<int>, order: seq<int>, elems: int, n0: int, top: nat)
    requires |cnt| == MAX_BITS + 1 && 1 <= top <= MAX_BITS && Total(cnt, top) == n0
    requires forall k :: 0 <= k < |cnt| ==> cnt[k] >= 0
    requires forall b :: top < b <= MAX_BITS ==> cnt[b] == 0
    ensures DealState(dl, dl, cnt, order, elems, n0, 0, top, cnt[top])
  {
  }

  /** All dealt: the lengths of the leaves are counted by cnt. */
  lemma DealDone(dl: seq<int>, d0: seq<int>, cnt: seq<int>, order: seq<int>, leaves: seq<int>, elems: int, t: nat,
                 i: int)
    requires Order(order, leaves, elems, t) && DealState(dl, d0, cnt, order, elems, |leaves|, i, 1, 0)
    requires cnt[0] == 0 && |dl| >= elems
    ensures var s := LeafUp(order, elems, |order|);
            && multiset(s) == multiset(leaves) && Histogram(cnt, dl, s) && Falling(dl, s, 1)
    ensures forall x :: 0 <= x < |dl| && x !in leaves ==> dl[x] == d0[x]
  {
    hide Falling;
    UpIsLeaves(order, leaves, elems, t);
    LeafUpGrows(order, elems, i, |order|);
    var s, u := LeafUp(order, elems, |order|), LeafUp(order, elems, i);
    assert |u| == |s| && u == s;
    forall x | 0 <= x < |dl| && x !in leaves ensures dl[x] == d0[x] {
      assert x !in multiset(leaves);
      assert x !in multiset(s);
    }
  }

  lemma {:induction false} LeafUpGrows(order: seq<int>, elems: int, i: nat, j: nat)
    requires i <= j <= |order|
    ensures LeafUp(order, elems, i) <= LeafUp(order, elems, j)
    decreases j
  {
    if i < j {
      LeafUpGrows(order, elems, i, j - 1);
    }
  }

  /** A leaf occurs once among the leaves scanned. */
  lemma LeafOnce(order: seq<int>, leaves: seq<int>, elems: int, t: nat, i: nat)
    requires Order(order, leaves, elems, t) && i < |order| && order[i] < elems
    ensures multiset(LeafScan(order, elems, 0))[order[i]] == 1
  {
    ScanIsLeaves(order, leaves, elems, t);
    assert order[i] in multiset(order);
    InnerBag(leaves, elems, t, order[i]);
    DistinctCount(leaves, order[i]);
  }

  lemma ChangeNothing(b: int, f: int)
    ensures Change(b, b, f) == 0
  {
  }

  /** Give leaf m the length `bits` and account for the change. */
  method DealOne(fc: array<int>, dl: array<int>, m: int, bits: int, optBits0: int, ghost extra: seq<int>,
                 ghost base: int,
                 ghost d: seq<int>, ghost d0: seq<int>, ghost f: seq<int>, ghost cnt: seq<int>, ghost order: seq<int>,
                 ghost leaves: seq<int>, ghost elems: int, ghost t: nat, ghost i: int, ghost n: int)
    returns (optBits: int)
    requires dl != fc && d == dl[..] && f == fc[..] && elems <= |d| == |f|
    requires Order(order, leaves, elems, t) && 0 <= i < |order| && m == order[i] && 0 <= m < elems && n > 0
    requires Dealing(d, d0, f, cnt, order, leaves, elems, extra, base, optBits0, i, bits, n)
    modifies dl
    ensures Dealing(dl[..], d0, f, cnt, order, leaves, elems, extra, base, optBits, i + 1, bits, n - 1)
  {
    hide *;
    DealingOne(d, d0, f, cnt, order, leaves, elems, t, extra, base, optBits0, i, bits, n);
    ChangeNothing(bits, fc[m]);
    optBits := optBits0;
    if dl[m] != bits {
      optBits := optBits + Change(bits, dl[m], fc[m]);
      dl[m] := bits;
    }
    assert dl[..] == d[m := bits];
  }

  lemma DealingOne(d: seq<int>, d0: seq<int>, f: seq<int>, cnt: seq<int>, order: seq<int>, leaves: seq<int>, elems: int,
                   t: nat, extra: seq<int>, base: int, optBits: int, i: int, b: int, n: int)
    requires Order(order, leaves, elems, t) && 0 <= i < |order| && 0 <= order[i] < elems <= |d| == |f| && n > 0
    requires Dealing(d, d0, f, cnt, order, leaves, elems, extra, base, optBits, i, b, n)
    ensures Dealing(d[order[i] := b], d0, f, cnt, order, leaves, elems, extra, base,
                    optBits + Change(b, d[order[i]], f[order[i]]), i + 1, b, n - 1)
  {
    DealLeaf(d, d0, cnt, order, leaves, elems, t, |leaves|, i, b, n);
    LeafOnce(order, leaves, elems, t, i);
    BitsUpdateOnce(f, d, extra, base, LeafScan(order, elems, 0), order[i], b);
    hide DealState, Order, Bits, LeafScan, Change;
  }

  /** What stays fixed while lengths are dealt out. */
  ghost predicate Deck(hs: seq<int>, f: seq<int>, cnt: seq<int>, maxCode: int, maxLength: int,
                       order: seq<int>, leaves: seq<int>, elems: int, t: nat)
  {
    && Order(order, leaves, elems, t) && Coded(leaves, elems, maxCode)
    && |hs| == HEAP_SIZE && |order| <= HEAP_SIZE && (forall i :: 0 <= i < |order| ==> hs[HEAP_SIZE - 1 - i] == order[i])
    && elems <= |f| && 1 <= maxLength <= MAX_BITS && Overfull(cnt, maxLength, 0, |leaves|) && cnt[0] == 0
    && Picks(f, LeafScan(order, elems, 0))
  }

  /** The lengths dealt so far and the bit count that goes with them. */
  ghost predicate Dealing(dl: seq<int>, d0: seq<int>, f: seq<int>, cnt: seq<int>, order: seq<int>, leaves: seq<int>,
                          elems: int,
                          extra: seq<int>, base: int, optBits: int, i: int, b: int, n: int) {
    && DealState(dl, d0, cnt, order, elems, |leaves|, i, b, n) && |dl| == |f|
    && Picks(f, LeafScan(order, elems, 0)) && Picks(dl, LeafScan(order, elems, 0))
    && optBits == Bits(f, dl, extra, base, LeafScan(order, elems, 0))
  }

  lemma DeckCard(hs: seq<int>, f: seq<int>, cnt: seq<int>, maxCode: int, maxLength: int, order: seq<int>,
                 leaves: seq<int>,
                 elems: int, t: nat, dl: seq<int>, d0: seq<int>, extra: seq<int>, base: int, optBits: int, i: int,
                 b: int, n: int)
    requires Deck(hs, f, cnt, maxCode, maxLength, order, leaves, elems, t)
    requires Dealing(dl, d0, f, cnt, order, leaves, elems, extra, base, optBits, i, b, n) && n != 0
    ensures Order(order, leaves, elems, t)
    ensures 0 <= i < |order| <= HEAP_SIZE && |hs| == HEAP_SIZE && hs[HEAP_SIZE - 1 - i] == order[i] && n > 0
    ensures 0 <= order[i] && (order[i] <= maxCode <==> order[i] < elems) && elems <= |f| == |dl|
  {
    DealMore(dl, d0, cnt, order, leaves, elems, t, i, b, n);
    LeafOrInner(order, leaves, elems, t, maxCode, i);
  }

  lemma SkipNode(dl: seq<int>, d0: seq<int>, f: seq<int>, cnt: seq<int>, order: seq<int>, leaves: seq<int>, elems: int,
                 extra: seq<int>, base: int, optBits: int, i: int, b: int, n: int)
    requires Dealing(dl, d0, f, cnt, order, leaves, elems, extra, base, optBits, i, b, n)
    requires 0 <= i < |order| && order[i] >= elems
    ensures Dealing(dl, d0, f, cnt, order, leaves, elems, extra, base, optBits, i + 1, b, n)
  {
    DealSkip(dl, d0, cnt, order, elems, |leaves|, i, b, n);
  }

  /** Deal length `bits` to the next blCount[bits] leaves. */
  method DealLength(heap: array<int>, fc: array<int>, dl: array<int>, maxCode: int, maxLength: int, bits: int,
                    count: int, h0: int,
                    optBits0: int, ghost extra: seq<int>, ghost base: int, ghost d0: seq<int>, ghost hs: seq<int>,
                    ghost f: seq<int>,
                    ghost cnt: seq<int>, ghost order: seq<int>, ghost leaves: seq<int>, ghost elems: int, ghost t: nat)
    returns (h: int, optBits: int)
    requires dl != heap && dl != fc && f == fc[..] && hs == heap[..]
    requires Deck(hs, f, cnt, maxCode, maxLength, order, leaves, elems, t)
    requires 0 <= HEAP_SIZE - h0 && Dealing(dl[..], d0, f, cnt, order, leaves, elems, extra, base, optBits0,
                                            HEAP_SIZE - h0, bits, count)
    modifies dl
    ensures Dealing(dl[..], d0, f, cnt, order, leaves, elems, extra, base, optBits, HEAP_SIZE - h, bits, 0)
  {
    hide *;
    h, optBits := h0, optBits0;
    var n := count;
    while n != 0
      invariant f == fc[..] && hs == heap[..] && Deck(hs, f, cnt, maxCode, maxLength, order, leaves, elems, t)
      invariant Dealing(dl[..], d0, f, cnt, order, leaves, elems, extra, base, optBits, HEAP_SIZE - h, bits, n)
      decreases h
    {
      ghost var d, i := dl[..], HEAP_SIZE - h;
      DeckCard(hs, f, cnt, maxCode, maxLength, order, leaves, elems, t, d, d0, extra, base, optBits, i, bits, n);
      h := h - 1;
      var m := heap[h];
      if m > maxCode {
        SkipNode(d, d0, f, cnt, order, leaves, elems, extra, base, optBits, i, bits, n);
        continue;
      }
      optBits := DealOne(fc, dl, m, bits, optBits, extra, base, d, d0, f, cnt, order, leaves, elems, t, i, n);
      n := n - 1;
    }
  }

  /** The last loop of `gen_bitlen`: lengths are dealt out again, longest first, in order of frequency. */
  method DealOut(heap: array<int>, fc: array<int>, dl: array<int>, blCount: array<int>, maxCode: int, maxLength: int,
                 optBits0: int, ghost extra: seq<int>, ghost base: int, ghost d0: seq<int>, ghost hs: seq<int>,
                 ghost f: seq<int>,
                 ghost cnt: seq<int>, ghost order: seq<int>, ghost leaves: seq<int>, ghost elems: int, ghost t: nat)
    returns (optBits: int)
    requires dl != heap && dl != fc && dl != blCount && d0 == dl[..] && hs == heap[..] && f == fc[..]
             && cnt == blCount[..]
    requires Deck(hs, f, cnt, maxCode, maxLength, order, leaves, elems, t)
    requires |d0| == |f| && Picks(d0, LeafScan(order, elems, 0)) && Picks(f, LeafScan(order, elems, 0))
    requires optBits0 == Bits(f, d0, extra, base, LeafScan(order, elems, 0))
    modifies dl
    ensures Picks(dl[..], LeafScan(order, elems, 0))
            && optBits == Bits(f, dl[..], extra, base, LeafScan(order, elems, 0))
    ensures Histogram(cnt, dl[..], LeafUp(order, elems, |order|)) && Falling(dl[..], LeafUp(order, elems, |order|), 1)
    ensures multiset(LeafUp(order, elems, |order|)) == multiset(leaves)
    ensures forall x :: 0 <= x < dl.Length && x !in leaves ==> dl[x] == d0[x]
  {
    hide *;
    optBits := optBits0;
    var h := HEAP_SIZE;
    var bits := maxLength;
    DealBegin(hs, f, cnt, maxCode, maxLength, order, leaves, elems, t, d0, extra, base, optBits);
    while true
      invariant 1 <= bits <= maxLength <= MAX_BITS && hs == heap[..] && f == fc[..] && cnt == blCount[..]
                && |cnt| == MAX_BITS + 1
      invariant h <= HEAP_SIZE && Deck(hs, f, cnt, maxCode, maxLength, order, leaves, elems, t)
      invariant Dealing(dl[..], d0, f, cnt, order, leaves, elems, extra, base, optBits, HEAP_SIZE - h, bits, cnt[bits])
      decreases bits
    {
      h, optBits := DealLength(heap, fc, dl, maxCode, maxLength, bits, blCount[bits], h, optBits,
                               extra, base, d0, hs, f, cnt, order, leaves, elems, t);
      if bits == 1 {
        break;
      }
      NextLength(hs, f, cnt, maxCode, maxLength, order, leaves, elems, t, dl[..], d0, extra, base, optBits,
                 HEAP_SIZE - h, bits);
      bits := bits - 1;
    }
    DealEnd(hs, f, cnt, maxCode, maxLength, order, leaves, elems, t, dl[..], d0, extra, base, optBits, HEAP_SIZE - h);
  }

  lemma DealBegin(hs: seq<int>, f: seq<int>, cnt: seq<int>, maxCode: int, maxLength: int, order: seq<int>,
                  leaves: seq<int>,
                  elems: int, t: nat, d0: seq<int>, extra: seq<int>, base: int, optBits: int)
    requires Deck(hs, f, cnt, maxCode, maxLength, order, leaves, elems, t) && |d0| == |f|
    requires Picks(d0, LeafScan(order, elems, 0))
    requires Picks(f, LeafScan(order, elems, 0)) && optBits == Bits(f, d0, extra, base, LeafScan(order, elems, 0))
    ensures |cnt| == MAX_BITS + 1 && 1 <= maxLength <= MAX_BITS
    ensures Dealing(d0, d0, f, cnt, order, leaves, elems, extra, base, optBits, 0, maxLength, cnt[maxLength])
  {
    DealStart(d0, cnt, order, elems, |leaves|, maxLength);
  }

  lemma DealEnd(hs: seq<int>, f: seq<int>, cnt: seq<int>, maxCode: int, maxLength: int, order: seq<int>,
                leaves: seq<int>,
                elems: int, t: nat, dl: seq<int>, d0: seq<int>, extra: seq<int>, base: int, optBits: int, i: int)
    requires Deck(hs, f, cnt, maxCode, maxLength, order, leaves, elems, t)
    requires Dealing(dl, d0, f, cnt, order, leaves, elems, extra, base, optBits, i, 1, 0)
    ensures Picks(f, LeafScan(order, elems, 0)) && Picks(dl, LeafScan(order, elems, 0))
    ensures optBits == Bits(f, dl, extra, base, LeafScan(order, elems, 0))
    ensures Histogram(cnt, dl, LeafUp(order, elems, |order|)) && Falling(dl, LeafUp(order, elems, |order|), 1)
    ensures multiset(LeafUp(order, elems, |order|)) == multiset(leaves)
    ensures forall x :: 0 <= x < |dl| && x !in leaves ==> dl[x] == d0[x]
  {
    DealDone(dl, d0, cnt, order, leaves, elems, t, i);
  }

  lemma NextLength(hs: seq<int>, f: seq<int>, cnt: seq<int>, maxCode: int, maxLength: int, order: seq<int>,
                   leaves: seq<int>,
                   elems: int, t: nat, dl: seq<int>, d0: seq<int>, extra: seq<int>, base: int, optBits: int, i: int,
                   b: int)
    requires Deck(hs, f, cnt, maxCode, maxLength, order, leaves, elems, t) && b >= 2
    requires Dealing(dl, d0, f, cnt, order, leaves, elems, extra, base, optBits, i, b, 0)
    ensures i >= 0 && b - 1 < |cnt|
            && Dealing(dl, d0, f, cnt, order, leaves, elems, extra, base, optBits, i, b - 1, cnt[b - 1])
  {
    DealNext(dl, d0, cnt, order, elems, |leaves|, i, b);
  }

  // ----- the result

  /** The bits each symbol takes in all. */
  ghost function Loads2(fc: seq<int>, len: seq<int>, extra: seq<int>, base: int): (g: seq<int>) {
    seq(Min(|fc|, |len|), n requires 0 <= n < Min(|fc|, |len|) => SymbolBits(fc[n], len[n], XBits(extra, base, n)))
  }

  lemma {:induction false} BitsIsSum(fc: seq<int>, len: seq<int>, extra: seq<int>, base: int, s: seq<int>)
    requires Picks(fc, s) && Picks(len, s)
    ensures Picks(Loads2(fc, len, extra, base), s)
    ensures Bits(fc, len, extra, base, s) == Sum(Pick(Loads2(fc, len, extra, base), s))
  {
    if s != [] {
      var u, n := s[..|s| - 1], s[|s| - 1];
      BitsIsSum(fc, len, extra, base, u);
      var g := Loads2(fc, len, extra, base);
      assert Pick(g, s) == Pick(g, u) + [g[n]];
      SumSnoc(Pick(g, u), g[n]);
    }
  }

  lemma BitsPermuted(fc: seq<int>, len: seq<int>, extra: seq<int>, base: int, s: seq<int>, leaves: seq<int>)
    requires Picks(fc, s) && Picks(len, s) && multiset(s) == multiset(leaves)
    ensures Picks(fc, leaves) && Picks(len, leaves)
    ensures Bits(fc, len, extra, base, s) == Bits(fc, len, extra, base, leaves)
  {
    PicksPermuted(fc, s, leaves);
    PicksPermuted(len, s, leaves);
    BitsIsSum(fc, len, extra, base, s);
    BitsIsSum(fc, len, extra, base, leaves);
    SumOver(Loads2(fc, len, extra, base), s, leaves);
  }

  lemma HistogramPermuted(cnt: seq<int>, len: seq<int>, s: seq<int>, leaves: seq<int>)
    requires Histogram(cnt, len, s) && multiset(s) == multiset(leaves)
    ensures Histogram(cnt, len, leaves)
  {
    PicksPermuted(len, s, leaves);
    PickPermuted(len, s, leaves);
    forall b | 0 <= b <= MAX_BITS ensures cnt[b] == Count(Pick(len, leaves), b) {
      CountIsMultiplicity(Pick(len, s), b);
      CountIsMultiplicity(Pick(len, leaves), b);
    }
  }

  /** Code lengths for the leaves: none above the limit, counted by cnt, filling the code space exactly. */
  ghost predicate FullLengths(dl: seq<int>, cnt: seq<int>, leaves: seq<int>, top: nat) {
    && Histogram(cnt, dl, leaves) && 1 <= top <= MAX_BITS
    && (forall i :: 0 <= i < |leaves| ==> 1 <= dl[leaves[i]] <= top)
    && (forall b :: top < b <= MAX_BITS ==> cnt[b] == 0) && cnt[0] == 0
    && Used(cnt, top) == Pow2(top)
  }

  lemma FullFromCounts(dl: seq<int>, cnt: seq<int>, s: seq<int>, leaves: seq<int>, top: nat)
    requires Histogram(cnt, dl, s) && multiset(s) == multiset(leaves)
    requires Overfull(cnt, top, 0, |leaves|) && cnt[0] == 0
    ensures FullLengths(dl, cnt, leaves, top)
  {
    HistogramPermuted(cnt, dl, s, leaves);
    var l := Pick(dl, leaves);
    assert Counts(l, cnt);
    TotalIsCountUpTo(l, cnt, top);
    CountUpToRange(l, top);
    assert forall i :: 0 <= i < |l| ==> l[i] == dl[leaves[i]];
  }

  /** Weights and lengths of the leaves as an optimisation problem. */
  function LeafItems(fc: seq<int>, len: seq<int>, leaves: seq<int>): (a: seq<Item>)
    requires Picks(fc, leaves) && Picks(len, leaves)
    requires forall i :: 0 <= i < |leaves| ==> fc[leaves[i]] >= 0 && len[leaves[i]] >= 0
    ensures |a| == |leaves|
  {
    seq(|leaves|, i requires 0 <= i < |leaves| => Item(fc[leaves[i]], len[leaves[i]]))
  }

  /** No leaf of the tree lies deeper than the limit. */
  ghost predicate WithinLimit(dad: seq<int>, elems: int, t: nat, leaves: seq<int>, top: nat)
    requires 0 <= elems && elems + t <= |dad|
  {
    forall i :: 0 <= i < |leaves| && 0 <= leaves[i] < elems ==> DepthOf(dad, elems, t, leaves[i]) <= top
  }

  lemma WithinLimitNoOverflow(dad: seq<int>, order: seq<int>, leaves: seq<int>, elems: int, t: nat, top: nat)
    requires Order(order, leaves, elems, t) && Fathers(dad, order, elems, t) && WithinLimit(dad, elems, t, leaves, top)
    ensures Overflow(dad, order, elems, t, top, 0) == 0
  {
    LeafSpace(dad, order, leaves, elems, t, top);
    ShallowSpace(dad, order, leaves, elems, t, top);
    var u, v := Units(dad, elems, t, top), Shallow(dad, elems, t, top);
    assert Pick(u, leaves) == Pick(v, leaves);
    HalfOverflow(dad, order, elems, t, top);
  }

  lemma {:induction false} CostIsSum(a: seq<Item>, g: seq<int>)
    requires |g| == |a| && forall i :: 0 <= i < |a| ==> g[i] == a[i].weight * a[i].len
    ensures Cost(a) == Sum(g)
  {
    if a != [] {
      CostIsSum(a[1..], g[1..]);
    }
  }

  /** Depths as lengths cost exactly what the internal nodes weigh. */
  lemma DepthCost(fc: seq<int>, dl: seq<int>, dad: seq<int>, order: seq<int>, leaves: seq<int>, elems: int, t: nat)
    requires Order(order, leaves, elems, t) && Fathers(dad, order, elems, t) && elems + t <= |fc| && elems <= |dl|
    requires forall s :: 0 <= s < t ==> fc[elems + s] == fc[order[2 * s]] + fc[order[2 * s + 1]]
    requires forall i :: 0 <= i < |leaves| ==> fc[leaves[i]] >= 0
    requires forall i :: 0 <= i < |leaves| ==> 0 <= dl[leaves[i]] == DepthOf(dad, elems, t, leaves[i])
    ensures Picks(fc, Internals(elems, t))
    ensures Cost(LeafItems(fc, dl, leaves)) == Sum(Pick(fc, Internals(elems, t)))
  {
    LeafCost(fc, dad, order, leaves, elems, t);
    var g := Pick(Loads(fc, dad, elems, t), leaves);
    CostIsSum(LeafItems(fc, dl, leaves), g);
  }

  // ----- gen_bitlen

  /** What `gen_bitlen` finds: the merged tree, its order in the heap, and the leaves' codes. */
  ghost predicate TreeReady(hs: seq<int>, f: seq<int>, dad: seq<int>, maxCode: int, maxLength: int, stree: seq<int>,
                            order: seq<int>, leaves: seq<int>, elems: int, ws: multiset<int>) {
    && Merged(hs, f, dad, elems, leaves, order, ws) && |leaves| >= 2
    && Coded(leaves, elems, maxCode) && elems <= |stree|
    && 1 <= maxLength <= MAX_BITS && elems <= Pow2(maxLength)
    && ws == multiset(Pick(f, leaves)) && forall i :: 0 <= i < |leaves| ==> f[leaves[i]] >= 0
  }

  lemma ReadyFacts(hs: seq<int>, f: seq<int>, dad: seq<int>, maxCode: int, maxLength: int, stree: seq<int>,
                   order: seq<int>, leaves: seq<int>, elems: int, ws: multiset<int>)
    requires TreeReady(hs, f, dad, maxCode, maxLength, stree, order, leaves, elems, ws)
    ensures Order(order, leaves, elems, |leaves| - 1) && Fathers(dad, order, elems, |leaves| - 1)
    ensures Coded(leaves, elems, maxCode) && elems <= |stree| && |f| == |dad| && 0 <= elems <= |f| && |leaves| >= 2
    ensures 1 <= maxLength <= MAX_BITS && |hs| == HEAP_SIZE && |order| <= HEAP_SIZE && |leaves| <= Pow2(maxLength)
    ensures forall i :: 0 <= i < |order| ==> hs[HEAP_SIZE - 1 - i] == order[i]
  {
    var t := |leaves| - 1;
    assert order[..|order| - 1] == order[..2 * t];
  }

  /** The lengths after the first pass, when nothing overflowed. */
  lemma PassComplete(dl: seq<int>, dad: seq<int>, cnt: seq<int>, f: seq<int>, hs: seq<int>, order: seq<int>,
                     leaves: seq<int>,
                     elems: int, maxCode: int, top: nat, extra: seq<int>, base: int, stree: seq<int>, optBits: int,
                     staticBits: int, ws: multiset<int>)
    requires TreeReady(hs, f, dad, maxCode, top, stree, order, leaves, elems, ws)
    requires PassState(dl, dad, cnt, f, order, elems, |leaves| - 1, top, 0, extra, base, stree, 0, optBits, staticBits)
    ensures 0 <= elems <= |dl| && elems + |leaves| - 1 <= |dad| == |dl|
    ensures forall i :: 0 <= i < |leaves| ==> 0 <= leaves[i] < elems && leaves[i] < |dl|
    ensures FullLengths(dl, cnt, leaves, top)
    ensures forall i :: 0 <= i < |leaves| ==> dl[leaves[i]] == DepthOf(dad, elems, |leaves| - 1, leaves[i])
  {
    hide *;
    var t := |leaves| - 1;
    ReadyFacts(hs, f, dad, maxCode, top, stree, order, leaves, elems, ws);
    ScanIsLeaves(order, leaves, elems, t);
    PassParts(dl, dad, cnt, f, order, elems, t, top, extra, base, stree, 0, optBits, staticBits);
    PassOverfull(dl, dad, cnt, f, order, leaves, elems, t, top, extra, base, stree, 0, optBits, staticBits);
    LeavesDone(dl, dad, order, leaves, elems, t, top);
    HistogramCongruent(cnt, Cut(dad, elems, t, top), dl, LeafScan(order, elems, 0), leaves, elems);
    FullFromCounts(dl, cnt, LeafScan(order, elems, 0), leaves, top);
    ExactDepths(dl, dad, order, leaves, elems, t, top);
  }

  lemma PassParts(dl: seq<int>, dad: seq<int>, cnt: seq<int>, f: seq<int>, order: seq<int>, elems: int, t: nat,
                  top: nat,
                  extra: seq<int>, base: int, stree: seq<int>, overflow: int, optBits: int, staticBits: int)
    requires PassState(dl, dad, cnt, f, order, elems, t, top, 0, extra, base, stree, overflow, optBits, staticBits)
    ensures Fathers(dad, order, elems, t) && HalfDone(dl, dad, order, elems, t, top, 0)
    ensures 0 <= elems && elems + t <= |dad| == |dl|
    ensures Histogram(cnt, Cut(dad, elems, t, top), LeafScan(order, elems, 0))
    ensures overflow == Overflow(dad, order, elems, t, top, 0)
    ensures Picks(f, LeafScan(order, elems, 0)) && Picks(Cut(dad, elems, t, top), LeafScan(order, elems, 0))
    ensures Picks(stree, LeafScan(order, elems, 0))
    ensures optBits == Bits(f, Cut(dad, elems, t, top), extra, base, LeafScan(order, elems, 0))
    ensures staticBits == Bits(f, stree, extra, base, LeafScan(order, elems, 0))
  {
  }

  lemma ExactDepths(dl: seq<int>, dad: seq<int>, order: seq<int>, leaves: seq<int>, elems: int, t: nat, top: nat)
    requires Order(order, leaves, elems, t) && Fathers(dad, order, elems, t)
             && HalfDone(dl, dad, order, elems, t, top, 0)
    requires Overflow(dad, order, elems, t, top, 0) == 0
    ensures forall i :: 0 <= i < |leaves| ==> 0 <= leaves[i] < elems && leaves[i] < |dl|
    ensures forall i :: 0 <= i < |leaves| ==> dl[leaves[i]] == DepthOf(dad, elems, t, leaves[i])
  {
    LeavesDone(dl, dad, order, leaves, elems, t, top);
    forall i | 0 <= i < |leaves| ensures dl[leaves[i]] == DepthOf(dad, elems, t, leaves[i]) {
      assert leaves[i] in multiset(leaves);
      assert leaves[i] in multiset(order);
      assert leaves[i] in order;
      var j :| 0 <= j < |order| && order[j] == leaves[i];
      NoOverflow(dad, order, elems, t, top, 0, j);
    }
  }

  /** After the first pass every leaf holds its depth, cut off. */
  lemma LeavesDone(dl: seq<int>, dad: seq<int>, order: seq<int>, leaves: seq<int>, elems: int, t: nat, top: nat)
    requires Order(order, leaves, elems, t) && HalfDone(dl, dad, order, elems, t, top, 0)
    ensures forall i :: 0 <= i < |leaves| ==>
      0 <= leaves[i] < elems && leaves[i] < |dl| && dl[leaves[i]] == Cut(dad, elems, t, top)[leaves[i]]
  {
    forall i | 0 <= i < |leaves| ensures 0 <= leaves[i] < elems && leaves[i] < |dl|
    && dl[leaves[i]] == Cut(dad, elems, t, top)[leaves[i]] {
      assert leaves[i] in multiset(leaves);
      assert leaves[i] in multiset(order);
      assert leaves[i] in order;
    }
  }

  lemma HistogramCongruent(cnt: seq<int>, len: seq<int>, dl: seq<int>, s: seq<int>, leaves: seq<int>, elems: int)
    requires Histogram(cnt, len, s) && multiset(s) == multiset(leaves)
    requires forall i :: 0 <= i < |leaves| ==>
             0 <= leaves[i] < |dl| && leaves[i] < |len| && dl[leaves[i]] == len[leaves[i]]
    ensures Histogram(cnt, dl, s)
  {
    forall i | 0 <= i < |s| ensures 0 <= s[i] < |dl| && dl[s[i]] == len[s[i]] {
      assert s[i] in multiset(s);
      assert s[i] in leaves;
    }
    assert Pick(dl, s) == Pick(len, s);
  }

  /** The outcome of `gen_bitlen`: full code lengths, and the bits they come to. */
  ghost predicate BitlenDone(dl: seq<int>, cnt: seq<int>, f: seq<int>, leaves: seq<int>, maxLength: int,
                             extra: seq<int>, base: int, stree: seq<int>, optBits: int, staticBits: int) {
    && maxLength >= 0 && FullLengths(dl, cnt, leaves, maxLength)
    && Picks(f, leaves) && Picks(dl, leaves) && Picks(stree, leaves) && Graded(dl, f, leaves)
    && optBits == Bits(f, dl, extra, base, leaves)
    && staticBits == Bits(f, stree, extra, base, leaves)
  }

  // ----- more frequent leaves have lengths no greater

  ghost predicate Graded(dl: seq<int>, f: seq<int>, leaves: seq<int>) {
    && Picks(f, leaves) && Picks(dl, leaves)
    && forall i, j :: 0 <= i < |leaves| && 0 <= j < |leaves| && f[leaves[i]] > f[leaves[j]] ==>
      dl[leaves[i]] <= dl[leaves[j]]
  }

  lemma {:induction false} LeafUpAscends(f: seq<int>, order: seq<int>, elems: int, i: nat)
    requires i <= |order| && Ascending(f, order)
    ensures
      var s := LeafUp(order, elems, i);
      && Picks(f, s) && (forall k, m :: 0 <= k < |s| && i <= m < |order| ==> f[s[k]] <= f[order[m]])
      && forall k, m :: 0 <= k < m < |s| ==> f[s[k]] <= f[s[m]]
  {
    if i > 0 {
      LeafUpAscends(f, order, elems, i - 1);
      UpStep(order, elems, i);
      hide LeafUp;
    }
  }

  lemma UpStep(order: seq<int>, elems: int, i: nat)
    requires 0 < i <= |order|
    ensures
      LeafUp(order, elems, i)
      == if order[i - 1] < elems then LeafUp(order, elems, i - 1) + [order[i - 1]] else LeafUp(order, elems, i - 1)
  {
  }

  /** Lengths that fall along the leaves in order of frequency. */
  lemma GradedFromFalling(dl: seq<int>, f: seq<int>, s: seq<int>, leaves: seq<int>, b: int)
    requires Falling(dl, s, b) && Picks(f, s) && multiset(s) == multiset(leaves)
    requires forall k, m :: 0 <= k < m < |s| ==> f[s[k]] <= f[s[m]]
    ensures Graded(dl, f, leaves)
  {
    PicksPermuted(f, s, leaves);
    PicksPermuted(dl, s, leaves);
    forall i, j | 0 <= i < |leaves| && 0 <= j < |leaves| && f[leaves[i]] > f[leaves[j]]
      ensures dl[leaves[i]] <= dl[leaves[j]]
    {
      assert leaves[i] in multiset(s) && leaves[j] in multiset(s);
      var k :| 0 <= k < |s| && s[k] == leaves[i];
      var m :| 0 <= m < |s| && s[m] == leaves[j];
      assert m < k;
    }
  }

  lemma GradedAfterDeal(dl: seq<int>, f: seq<int>, order: seq<int>, leaves: seq<int>, elems: int, t: nat)
    requires Falling(dl, LeafUp(order, elems, |order|), 1) && Weighs(f, order, elems, t)
    requires multiset(LeafUp(order, elems, |order|)) == multiset(leaves)
    ensures Graded(dl, f, leaves)
  {
    LeafUpAscends(f, order, elems, |order|);
    GradedFromFalling(dl, f, LeafUp(order, elems, |order|), leaves, 1);
  }

  /** Of nodes in different pairs the heavier one has the heavier father. */
  lemma HeavierFather(f: seq<int>, order: seq<int>, elems: int, t: nat, i: nat, j: nat)
    requires Weighs(f, order, elems, t) && i < 2 * t && j < 2 * t && f[order[i]] > f[order[j]]
    ensures j < i && (i / 2 == j / 2 || f[elems + i / 2] > f[elems + j / 2])
  {
    var s, r := i / 2, j / 2;
    assert j < i;
    if r < s {
      assert f[order[2 * r]] <= f[order[2 * r + 1]] <= f[order[2 * s]] <= f[order[2 * s + 1]];
      assert f[elems + s] == f[order[2 * s]] + f[order[2 * s + 1]];
      assert f[elems + r] == f[order[2 * r]] + f[order[2 * r + 1]];
    }
  }

  /** A heavier node lies no deeper. */
  lemma {:induction false} HeavierIsHigher(f: seq<int>, dad: seq<int>, order: seq<int>, leaves: seq<int>, elems: int,
                                           t: nat, i: nat, j: nat)
    requires Order(order, leaves, elems, t) && Fathers(dad, order, elems, t) && Weighs(f, order, elems, t)
    requires i <= 2 * t && j <= 2 * t && f[order[i]] > f[order[j]]
    ensures 0 <= order[i] < elems + t <= |dad| && 0 <= order[j] < elems + t
    ensures DepthOf(dad, elems, t, order[i]) <= DepthOf(dad, elems, t, order[j])
    decreases 2 * t - j
  {
    hide DepthOf;
    assert j < i;
    SonDepth(dad, order, elems, t, j);
    if i == 2 * t {
      RootDepth(dad, elems, t);
      return;
    }
    SonDepth(dad, order, elems, t, i);
    HeavierFather(f, order, elems, t, i, j);
    if i / 2 != j / 2 {
      var p := FatherLater(order, leaves, elems, t, i);
      var q := FatherLater(order, leaves, elems, t, j);
      HeavierIsHigher(f, dad, order, leaves, elems, t, p, q);
    }
  }

  /** Depths as lengths. */
  lemma GradedDepths(dl: seq<int>, f: seq<int>, dad: seq<int>, order: seq<int>, leaves: seq<int>, elems: int, t: nat)
    requires Order(order, leaves, elems, t) && Fathers(dad, order, elems, t) && Weighs(f, order, elems, t)
    requires Picks(f, leaves) && Picks(dl, leaves)
    requires forall i :: 0 <= i < |leaves| ==>
             0 <= leaves[i] < elems && dl[leaves[i]] == DepthOf(dad, elems, t, leaves[i])
    ensures Graded(dl, f, leaves)
  {
    hide DepthOf, Weighs;
    forall i, j | 0 <= i < |leaves| && 0 <= j < |leaves| && f[leaves[i]] > f[leaves[j]]
      ensures dl[leaves[i]] <= dl[leaves[j]]
    {
      var k := PlaceOf(order, leaves, elems, t, i);
      var m := PlaceOf(order, leaves, elems, t, j);
      HeavierIsHigher(f, dad, order, leaves, elems, t, k, m);
    }
  }

  lemma PlaceOf(order: seq<int>, leaves: seq<int>, elems: int, t: nat, i: nat) returns (k: nat)
    requires Order(order, leaves, elems, t) && i < |leaves|
    ensures k <= 2 * t && order[k] == leaves[i]
  {
    assert leaves[i] in multiset(leaves);
    assert leaves[i] in multiset(order);
    assert leaves[i] in order;
    k :| 0 <= k < |order| && order[k] == leaves[i];
  }

  /** When the tree stays within the limit, no feasible lengths cost less. */
  ghost predicate Optimal(dl: seq<int>, f: seq<int>, dad: seq<int>, leaves: seq<int>, elems: int, maxLength: int,
                          ws: multiset<int>) {
    && |leaves| >= 1 && 0 <= elems && elems + |leaves| - 1 <= |dad| && maxLength >= 0
    && Picks(f, leaves) && Picks(dl, leaves)
    && (forall i :: 0 <= i < |leaves| ==> f[leaves[i]] >= 0 && dl[leaves[i]] >= 0)
    && (WithinLimit(dad, elems, |leaves| - 1, leaves, maxLength) ==> LowerBound(ws, Cost(LeafItems(f, dl, leaves))))
  }

  /** Case one: the first pass already fits. */
  lemma DoneWithoutRepair(dl: seq<int>, dad: seq<int>, cnt: seq<int>, f: seq<int>, hs: seq<int>, order: seq<int>,
                          leaves: seq<int>,
                          elems: int, maxCode: int, top: nat, extra: seq<int>, base: int, stree: seq<int>, optBits: int,
                          staticBits: int, ws: multiset<int>)
    requires TreeReady(hs, f, dad, maxCode, top, stree, order, leaves, elems, ws)
    requires PassState(dl, dad, cnt, f, order, elems, |leaves| - 1, top, 0, extra, base, stree, 0, optBits, staticBits)
    ensures BitlenDone(dl, cnt, f, leaves, top, extra, base, stree, optBits, staticBits)
    ensures Optimal(dl, f, dad, leaves, elems, top, ws)
  {
    hide *;
    PassComplete(dl, dad, cnt, f, hs, order, leaves, elems, maxCode, top, extra, base, stree, optBits, staticBits, ws);
    PassBits(dl, dad, cnt, f, hs, order, leaves, elems, maxCode, top, extra, base, stree, 0, optBits, staticBits, ws);
    DepthsOptimal(dl, dad, cnt, f, hs, order, leaves, elems, maxCode, top, stree, ws);
    ReadyFacts(hs, f, dad, maxCode, top, stree, order, leaves, elems, ws);
    ReadyWeighs(hs, f, dad, maxCode, top, stree, order, leaves, elems, ws);
    GradedDepths(dl, f, dad, order, leaves, elems, |leaves| - 1);
    DoneFrom(dl, cnt, f, leaves, top, extra, base, stree, optBits, staticBits);
  }

  lemma DoneFrom(dl: seq<int>, cnt: seq<int>, f: seq<int>, leaves: seq<int>, top: nat, extra: seq<int>, base: int,
                 stree: seq<int>, optBits: int, staticBits: int)
    requires FullLengths(dl, cnt, leaves, top) && Graded(dl, f, leaves)
    requires Picks(f, leaves) && Picks(dl, leaves) && Picks(stree, leaves)
    requires optBits == Bits(f, dl, extra, base, leaves) && staticBits == Bits(f, stree, extra, base, leaves)
    ensures BitlenDone(dl, cnt, f, leaves, top, extra, base, stree, optBits, staticBits)
  {
  }

  lemma {:induction false} BitsCongruent(f: seq<int>, len: seq<int>, len': seq<int>, extra: seq<int>, base: int,
                                         s: seq<int>)
    requires Picks(f, s) && Picks(len, s) && Picks(len', s)
    requires forall i :: 0 <= i < |s| ==> len[s[i]] == len'[s[i]]
    ensures Bits(f, len, extra, base, s) == Bits(f, len', extra, base, s)
  {
    if s != [] {
      BitsCongruent(f, len, len', extra, base, s[..|s| - 1]);
    }
  }

  /** The bits counted in the first pass, over the leaves in their own order. */
  lemma PassBits(dl: seq<int>, dad: seq<int>, cnt: seq<int>, f: seq<int>, hs: seq<int>, order: seq<int>,
                 leaves: seq<int>,
                 elems: int, maxCode: int, top: nat, extra: seq<int>, base: int, stree: seq<int>, overflow: int,
                 optBits: int,
                 staticBits: int, ws: multiset<int>)
    requires TreeReady(hs, f, dad, maxCode, top, stree, order, leaves, elems, ws)
    requires PassState(dl, dad, cnt, f, order, elems, |leaves| - 1, top, 0, extra, base, stree, overflow, optBits,
                       staticBits)
    ensures Picks(f, leaves) && Picks(dl, leaves) && Picks(stree, leaves)
    ensures optBits == Bits(f, dl, extra, base, leaves) && staticBits == Bits(f, stree, extra, base, leaves)
  {
    var t, s := |leaves| - 1, LeafScan(order, elems, 0);
    ReadyFacts(hs, f, dad, maxCode, top, stree, order, leaves, elems, ws);
    ScanIsLeaves(order, leaves, elems, t);
    PassParts(dl, dad, cnt, f, order, elems, t, top, extra, base, stree, overflow, optBits, staticBits);
    LeavesDone(dl, dad, order, leaves, elems, t, top);
    hide TreeReady, PassState, Order, LeafScan, HalfDone, Histogram, Bits, Cut, Fathers;
    var len := Cut(dad, elems, t, top);
    BitsPermuted(f, len, extra, base, s, leaves);
    BitsPermuted(f, stree, extra, base, s, leaves);
    BitsCongruent(f, len, dl, extra, base, leaves);
  }

  lemma DepthsOptimal(dl: seq<int>, dad: seq<int>, cnt: seq<int>, f: seq<int>, hs: seq<int>, order: seq<int>,
                      leaves: seq<int>,
                      elems: int, maxCode: int, top: nat, stree: seq<int>, ws: multiset<int>)
    requires TreeReady(hs, f, dad, maxCode, top, stree, order, leaves, elems, ws)
    requires FullLengths(dl, cnt, leaves, top)
    requires 0 <= elems && elems + |leaves| - 1 <= |dad|
    requires forall i :: 0 <= i < |leaves| ==> 0 <= leaves[i] < elems && leaves[i] < |dl|
    requires |dl| >= elems && forall i ::
             0 <= i < |leaves| ==> dl[leaves[i]] == DepthOf(dad, elems, |leaves| - 1, leaves[i])
    ensures Optimal(dl, f, dad, leaves, elems, top, ws)
  {
    hide *;
    var t := |leaves| - 1;
    ReadyFacts(hs, f, dad, maxCode, top, stree, order, leaves, elems, ws);
    ReadyWeights(hs, f, dad, maxCode, top, stree, order, leaves, elems, ws);
    LengthsNonNegative(dl, cnt, leaves, top);
    DepthCost(f, dl, dad, order, leaves, elems, t);
    OptimalFrom(dl, f, dad, leaves, elems, top, ws);
  }

  lemma LengthsNonNegative(dl: seq<int>, cnt: seq<int>, leaves: seq<int>, top: nat)
    requires FullLengths(dl, cnt, leaves, top)
    ensures Picks(dl, leaves) && forall i :: 0 <= i < |leaves| ==> dl[leaves[i]] >= 0
  {
  }

  lemma ReadyWeights(hs: seq<int>, f: seq<int>, dad: seq<int>, maxCode: int, maxLength: int, stree: seq<int>,
                     order: seq<int>, leaves: seq<int>, elems: int, ws: multiset<int>)
    requires TreeReady(hs, f, dad, maxCode, maxLength, stree, order, leaves, elems, ws)
    ensures |leaves| >= 2 && |order| == 2 * |leaves| - 1 && 0 <= elems && elems + |leaves| - 1 <= |f|
    ensures forall i :: 0 <= i < |order| ==> 0 <= order[i] < |f|
    ensures forall s :: 0 <= s < |leaves| - 1 ==> f[elems + s] == f[order[2 * s]] + f[order[2 * s + 1]]
    ensures Picks(f, leaves) && forall i :: 0 <= i < |leaves| ==> f[leaves[i]] >= 0
    ensures Picks(f, Internals(elems, |leaves| - 1)) && LowerBound(ws, Sum(Pick(f, Internals(elems, |leaves| - 1))))
    ensures ws == multiset(Pick(f, leaves))
  {
    var t := |leaves| - 1;
    var o := order[..|order| - 1];
    forall s | 0 <= s < t ensures f[elems + s] == f[order[2 * s]] + f[order[2 * s + 1]] {
      assert o[2 * s] == order[2 * s] && o[2 * s + 1] == order[2 * s + 1];
    }
  }

  lemma OptimalFrom(dl: seq<int>, f: seq<int>, dad: seq<int>, leaves: seq<int>, elems: int, top: nat, ws: multiset<int>)
    requires |leaves| >= 1 && 0 <= elems && elems + |leaves| - 1 <= |dad| && Picks(f, leaves) && Picks(dl, leaves)
    requires forall i :: 0 <= i < |leaves| ==> f[leaves[i]] >= 0
    requires forall i :: 0 <= i < |leaves| ==> dl[leaves[i]] >= 0
    requires LowerBound(ws, Cost(LeafItems(f, dl, leaves)))
    ensures Optimal(dl, f, dad, leaves, elems, top, ws)
  {
    hide LowerBound;
  }

  /** Case two: leaves were moved and the lengths dealt out anew; the tree was over the limit. */
  lemma DoneAfterRepair(dl: seq<int>, d1: seq<int>, dad: seq<int>, cnt1: seq<int>, cnt: seq<int>, f: seq<int>,
                        hs: seq<int>,
                        order: seq<int>, leaves: seq<int>, elems: int, maxCode: int, top: nat, extra: seq<int>,
                        base: int,
                        stree: seq<int>, overflow: int, opt1: int, optBits: int, staticBits: int, ws: multiset<int>)
    requires TreeReady(hs, f, dad, maxCode, top, stree, order, leaves, elems, ws) && overflow > 0
    requires PassState(d1, dad, cnt1, f, order, elems, |leaves| - 1, top, 0, extra, base, stree, overflow, opt1,
                       staticBits)
    requires Overfull(cnt, top, 0, |leaves|) && cnt[0] == 0 && |dl| == |d1|
    requires Histogram(cnt, dl, LeafUp(order, elems, |order|))
             && multiset(LeafUp(order, elems, |order|)) == multiset(leaves)
    requires Falling(dl, LeafUp(order, elems, |order|), 1)
    requires Picks(f, LeafScan(order, elems, 0)) && Picks(dl, LeafScan(order, elems, 0))
    requires optBits == Bits(f, dl, extra, base, LeafScan(order, elems, 0))
    ensures BitlenDone(dl, cnt, f, leaves, top, extra, base, stree, optBits, staticBits)
    ensures Optimal(dl, f, dad, leaves, elems, top, ws)
  {
    hide *;
    var t := |leaves| - 1;
    ReadyFacts(hs, f, dad, maxCode, top, stree, order, leaves, elems, ws);
    ReadyWeights(hs, f, dad, maxCode, top, stree, order, leaves, elems, ws);
    ScanIsLeaves(order, leaves, elems, t);
    FullFromCounts(dl, cnt, LeafUp(order, elems, |order|), leaves, top);
    LengthsNonNegative(dl, cnt, leaves, top);
    BitsPermuted(f, dl, extra, base, LeafScan(order, elems, 0), leaves);
    PassBits(d1, dad, cnt1, f, hs, order, leaves, elems, maxCode, top, extra, base, stree, overflow, opt1, staticBits,
             ws);
    ReadyWeighs(hs, f, dad, maxCode, top, stree, order, leaves, elems, ws);
    GradedAfterDeal(dl, f, order, leaves, elems, t);
    DoneFrom(dl, cnt, f, leaves, top, extra, base, stree, optBits, staticBits);
    PassParts(d1, dad, cnt1, f, order, elems, t, top, extra, base, stree, overflow, opt1, staticBits);
    OverLimit(dl, f, dad, order, leaves, elems, top, ws);
  }

  lemma OverLimit(dl: seq<int>, f: seq<int>, dad: seq<int>, order: seq<int>, leaves: seq<int>, elems: int, top: nat,
                  ws: multiset<int>)
    requires |leaves| >= 1 && 0 <= elems && elems + |leaves| - 1 <= |dad| && Picks(f, leaves) && Picks(dl, leaves)
    requires forall i :: 0 <= i < |leaves| ==> f[leaves[i]] >= 0
    requires forall i :: 0 <= i < |leaves| ==> dl[leaves[i]] >= 0
    requires Order(order, leaves, elems, |leaves| - 1) && Fathers(dad, order, elems, |leaves| - 1)
    requires Overflow(dad, order, elems, |leaves| - 1, top, 0) != 0
    ensures Optimal(dl, f, dad, leaves, elems, top, ws)
  {
    if WithinLimit(dad, elems, |leaves| - 1, leaves, top) {
      WithinLimitNoOverflow(dad, order, leaves, elems, |leaves| - 1, top);
    }
  }

  lemma DeckReady(hs: seq<int>, f: seq<int>, dad: seq<int>, maxCode: int, top: nat, stree: seq<int>, order: seq<int>,
                  leaves: seq<int>, elems: int, ws: multiset<int>, d1: seq<int>, cnt1: seq<int>, cnt: seq<int>,
                  extra: seq<int>, base: int, overflow: int, optBits: int, staticBits: int)
    requires TreeReady(hs, f, dad, maxCode, top, stree, order, leaves, elems, ws)
    requires PassState(d1, dad, cnt1, f, order, elems, |leaves| - 1, top, 0, extra, base, stree, overflow, optBits,
                       staticBits)
    requires Overfull(cnt, top, 0, |leaves|) && cnt[0] == 0
    ensures Deck(hs, f, cnt, maxCode, top, order, leaves, elems, |leaves| - 1)
    ensures |d1| == |f| && Picks(d1, LeafScan(order, elems, 0)) && Picks(f, LeafScan(order, elems, 0))
    ensures optBits == Bits(f, d1, extra, base, LeafScan(order, elems, 0))
  {
    var t, s := |leaves| - 1, LeafScan(order, elems, 0);
    ReadyFacts(hs, f, dad, maxCode, top, stree, order, leaves, elems, ws);
    ScanIsLeaves(order, leaves, elems, t);
    PassParts(d1, dad, cnt1, f, order, elems, t, top, extra, base, stree, overflow, optBits, staticBits);
    LeavesDone(d1, dad, order, leaves, elems, t, top);
    hide TreeReady, PassState, Order, LeafScan, HalfDone, Histogram, Bits, Cut, Fathers, Overfull;
    ScanValues(d1, Cut(dad, elems, t, top), s, leaves);
    BitsCongruent(f, Cut(dad, elems, t, top), d1, extra, base, s);
  }

  lemma ScanValues(d: seq<int>, len: seq<int>, s: seq<int>, leaves: seq<int>)
    requires multiset(s) == multiset(leaves) && Picks(len, s)
    requires forall i :: 0 <= i < |leaves| ==>
             0 <= leaves[i] < |d| && leaves[i] < |len| && d[leaves[i]] == len[leaves[i]]
    ensures Picks(d, s) && forall i :: 0 <= i < |s| ==> d[s[i]] == len[s[i]]
  {
    forall i | 0 <= i < |s| ensures 0 <= s[i] < |d| && d[s[i]] == len[s[i]] {
      assert s[i] in multiset(s);
      assert s[i] in leaves;
    }
  }

  /** Entries of symbols that are not leaves are left alone. */
  ghost predicate Spared(d: seq<int>, d': seq<int>, elems: int, leaves: seq<int>) {
    |d'| == |d| && forall n :: 0 <= n < elems && n < |d| && n !in leaves ==> d'[n] == d[n]
  }

  lemma PassSpares(dl: seq<int>, dad: seq<int>, cnt: seq<int>, fc: seq<int>, order: seq<int>, leaves: seq<int>,
                   elems: int, t: nat,
                   top: nat, extra: seq<int>, base: int, stree: seq<int>, overflow: int, optBits: int, staticBits: int)
    requires Order(order, leaves, elems, t)
    requires PassState(dl, dad, cnt, fc, order, elems, t, top, 0, extra, base, stree, overflow, optBits, staticBits)
    ensures Spared(dad, dl, elems, leaves)
  {
    hide Tallied, Fathers, Cut, Overflow;
    forall n | n in order && n < elems ensures n in leaves {
      assert n in multiset(order);
      assert n in multiset(leaves) || n in Internals(elems, t);
    }
  }

  lemma DealSpares(dad: seq<int>, d1: seq<int>, dl: seq<int>, elems: int, leaves: seq<int>)
    requires Spared(dad, d1, elems, leaves) && |dl| == |d1|
    requires forall x :: 0 <= x < |dl| && x !in leaves ==> dl[x] == d1[x]
    ensures Spared(dad, dl, elems, leaves)
  {
  }

  // ----- when no depth exceeds the limit

  function Fib(n: nat): (f: nat) {
    if n < 2 then n else Fib(n - 2) + Fib(n - 1)
  }

  lemma {:induction false} FibMono(m: nat, n: nat)
    requires m <= n
    ensures Fib(m) <= Fib(n)
    decreases n
  {
    if m < n {
      FibMono(m, n - 1);
    }
  }

  /** Each internal node weighs what its sons weigh. */
  ghost predicate Weighs(f: seq<int>, order: seq<int>, elems: int, t: nat) {
    && |order| == 2 * t + 1 && 0 <= elems && elems + t <= |f| && Ascending(f, order)
    && forall s :: 0 <= s < t ==> f[elems + s] == f[order[2 * s]] + f[order[2 * s + 1]]
  }

  lemma FatherWeighs(f: seq<int>, order: seq<int>, elems: int, t: nat, i: nat, a: int, b: int)
    requires Weighs(f, order, elems, t) && i < 2 * t && f[order[i]] >= a
    requires forall j :: 2 * (i / 2) <= j <= 2 * t ==> f[order[j]] >= b
    ensures f[elems + i / 2] >= a + b
  {
    var s := i / 2;
    assert f[elems + s] == f[order[2 * s]] + f[order[2 * s + 1]];
    assert f[order[2 * s]] >= b && f[order[2 * s + 1]] >= b;
  }

  /** From a node upwards the weights grow at least as the Fibonacci numbers do. */
  lemma {:induction false} Climb(f: seq<int>, dad: seq<int>, order: seq<int>, leaves: seq<int>, elems: int, t: nat,
                                 i: nat, k: nat)
    requires Order(order, leaves, elems, t) && Fathers(dad, order, elems, t) && Weighs(f, order, elems, t) && i <= 2 * t
    requires f[order[i]] >= Fib(k + 2) && forall j :: 2 * (i / 2) <= j <= 2 * t ==> f[order[j]] >= Fib(k + 1)
    ensures 0 <= order[i] < elems + t <= |dad| && f[order[2 * t]] >= Fib(k + 2 + DepthOf(dad, elems, t, order[i]))
    decreases 2 * t - i
  {
    hide Depth;
    if i == 2 * t {
      RootDepth(dad, elems, t);
      return;
    }
    var p := FatherLater(order, leaves, elems, t, i);
    SonDepth(dad, order, elems, t, i);
    FatherWeighs(f, order, elems, t, i, Fib(k + 2), Fib(k + 1));
    FatherPair(order, leaves, elems, t, i, p);
    forall j | 2 * (p / 2) <= j <= 2 * t ensures f[order[j]] >= Fib(k + 2) {
      assert f[order[i]] <= f[order[j]];
    }
    hide Order, Fathers, Weighs, DepthOf;
    assert Fib(k + 3) == Fib(k + 1) + Fib(k + 2);
    Climb(f, dad, order, leaves, elems, t, p, k + 1);
  }

  /** A father is taken in a later pair than its sons. */
  lemma FatherPair(order: seq<int>, leaves: seq<int>, elems: int, t: nat, i: nat, p: nat)
    requires Order(order, leaves, elems, t) && i < 2 * t && i < p <= 2 * t && order[p] == elems + i / 2
    ensures i < 2 * (p / 2)
  {
    if p < 2 * t {
      assert order[p] < elems + p / 2;
    }
  }

  /** A tree of small total weight is not deep. */
  lemma LightIsShallow(f: seq<int>, dad: seq<int>, order: seq<int>, leaves: seq<int>, elems: int, t: nat, top: nat)
    requires Order(order, leaves, elems, t) && Fathers(dad, order, elems, t) && Weighs(f, order, elems, t)
    requires forall i :: 0 <= i < |leaves| ==> 0 <= leaves[i] < |f| && f[leaves[i]] >= 1
    requires f[elems + t - 1] < Fib(top + 3)
    ensures WithinLimit(dad, elems, t, leaves, top)
  {
    AllPositive(f, order, leaves, elems, t);
    forall i | 0 <= i < |leaves| && 0 <= leaves[i] < elems ensures DepthOf(dad, elems, t, leaves[i]) <= top {
      assert leaves[i] in multiset(leaves);
      assert leaves[i] in multiset(order);
      assert leaves[i] in order;
      var j :| 0 <= j < |order| && order[j] == leaves[i];
      Climb(f, dad, order, leaves, elems, t, j, 0);
      var d := DepthOf(dad, elems, t, leaves[i]);
      if d > top {
        FibMono(top + 3, d + 2);
      }
    }
  }

  /** The first node taken is a leaf, and no node weighs less. */
  lemma AllPositive(f: seq<int>, order: seq<int>, leaves: seq<int>, elems: int, t: nat)
    requires Order(order, leaves, elems, t) && Weighs(f, order, elems, t)
    requires forall i :: 0 <= i < |leaves| ==> 0 <= leaves[i] < |f| && f[leaves[i]] >= 1
    ensures forall j :: 0 <= j <= 2 * t ==> f[order[j]] >= 1
  {
    assert order[0] in multiset(order);
    assert order[0] in leaves || order[0] in Internals(elems, t);
    assert f[order[0]] >= 1;
    forall j | 0 <= j <= 2 * t ensures f[order[j]] >= 1 {
      assert j == 0 || f[order[0]] <= f[order[j]];
    }
  }

  /** The root weighs what the leaves weigh together. */
  lemma RootWeighs(f: seq<int>, order: seq<int>, leaves: seq<int>, elems: int, t: nat)
    requires Order(order, leaves, elems, t) && Weighs(f, order, elems, t)
    ensures Picks(f, leaves) && f[elems + t - 1] == Sum(Pick(f, leaves))
  {
    LeafSum(f, order, leaves, elems, t);
    var g := Gains(f, order, elems, t);
    forall s | 0 <= s < t ensures g[s] == 0 {
      assert f[elems + s] == f[order[2 * s]] + f[order[2 * s + 1]];
    }
    SumOfZeros(g);
  }

  lemma {:induction false} SumOfZeros(s: seq<int>)
    requires forall i :: 0 <= i < |s| ==> s[i] == 0
    ensures Sum(s) == 0
  {
    if s != [] {
      SumOfZeros(s[1..]);
    }
  }

  /** The tree that the heap built, and how many of its nodes lie too deep. */
  ghost predicate HuffmanTree(f: seq<int>, dad: seq<int>, order: seq<int>, leaves: seq<int>, elems: int, top: int,
                              overflow: int) {
    && |leaves| >= 2 && top >= 0
    && Order(order, leaves, elems, |leaves| - 1) && Fathers(dad, order, elems, |leaves| - 1)
    && Weighs(f, order, elems, |leaves| - 1)
    && overflow == Overflow(dad, order, elems, |leaves| - 1, top, 0)
  }

  lemma ReadyWeighs(hs: seq<int>, f: seq<int>, dad: seq<int>, maxCode: int, maxLength: int, stree: seq<int>,
                    order: seq<int>, leaves: seq<int>, elems: int, ws: multiset<int>)
    requires TreeReady(hs, f, dad, maxCode, maxLength, stree, order, leaves, elems, ws)
    ensures |leaves| >= 2 && Weighs(f, order, elems, |leaves| - 1)
  {
    ReadyWeights(hs, f, dad, maxCode, maxLength, stree, order, leaves, elems, ws);
    hide LowerBound, Sons, Order, Coded;
  }

  /** No node lies too deep exactly when no leaf does. */
  lemma OverflowWithin(f: seq<int>, dad: seq<int>, order: seq<int>, leaves: seq<int>, elems: int, top: int,
                       overflow: int)
    requires HuffmanTree(f, dad, order, leaves, elems, top, overflow)
    ensures 0 <= elems && elems + |leaves| - 1 <= |dad| && overflow >= 0
    ensures overflow == 0 <==> WithinLimit(dad, elems, |leaves| - 1, leaves, top)
  {
    var t := |leaves| - 1;
    if WithinLimit(dad, elems, t, leaves, top) {
      WithinLimitNoOverflow(dad, order, leaves, elems, t, top);
    }
    if overflow == 0 {
      forall i | 0 <= i < |leaves| && 0 <= leaves[i] < elems ensures DepthOf(dad, elems, t, leaves[i]) <= top {
        assert leaves[i] in multiset(leaves);
        assert leaves[i] in multiset(order);
        assert leaves[i] in order;
        var j :| 0 <= j < |order| && order[j] == leaves[i];
        NoOverflow(dad, order, elems, t, top, 0, j);
      }
    }
  }

  /** Frequencies whose sum is below a Fibonacci number leave nothing too deep. */
  lemma LightFits(f: seq<int>, dad: seq<int>, order: seq<int>, leaves: seq<int>, elems: int, top: int, overflow: int)
    requires HuffmanTree(f, dad, order, leaves, elems, top, overflow)
    requires forall i :: 0 <= i < |leaves| ==> 0 <= leaves[i] < |f| && f[leaves[i]] >= 1
    ensures Picks(f, leaves) && (Sum(Pick(f, leaves)) < Fib(top + 3) ==> overflow == 0)
  {
    var t := |leaves| - 1;
    OverflowWithin(f, dad, order, leaves, elems, top, overflow);
    RootWeighs(f, order, leaves, elems, t);
    hide Order, Fathers, Weighs, WithinLimit, Overflow, Fib;
    if Sum(Pick(f, leaves)) < Fib(top + 3) {
      LightIsShallow(f, dad, order, leaves, elems, t, top);
    }
  }

  /**
   Compute the code lengths of the merged tree, as `gen_bitlen` does.  `stree`
   gives the static code lengths (zeros when the tree has none).
   */
  method GenBitlen(heap: array<int>, fc: array<int>, dl: array<int>, blCount: array<int>, heapMax: int, maxCode: int,
                   maxLength: int, extra: seq<int>, base: int, stree: seq<int>, ghost hs: seq<int>, ghost f: seq<int>,
                   ghost dad: seq<int>,
                   ghost order: seq<int>, ghost leaves: seq<int>, ghost elems: int, ghost ws: multiset<int>)
    returns (overflow: int, optBits: int, staticBits: int)
    requires dl != heap && dl != fc && dl != blCount && blCount != heap && blCount != fc
    requires blCount.Length == MAX_BITS + 1 && hs == heap[..] && f == fc[..] && dad == dl[..]
    requires TreeReady(hs, f, dad, maxCode, maxLength, stree, order, leaves, elems, ws)
    requires heapMax == HEAP_SIZE - |order|
    modifies dl, blCount
    ensures BitlenDone(dl[..], blCount[..], f, leaves, maxLength, extra, base, stree, optBits, staticBits)
    ensures Optimal(dl[..], f, dad, leaves, elems, maxLength, ws)
    ensures Spared(dad, dl[..], elems, leaves) && HuffmanTree(f, dad, order, leaves, elems, maxLength, overflow)
  {
    hide *;
    ghost var t := |leaves| - 1;
    ReadyFacts(hs, f, dad, maxCode, maxLength, stree, order, leaves, elems, ws);
    overflow, optBits, staticBits := FirstPass(heap, fc, dl, blCount, heapMax, maxCode, maxLength, extra, base, stree,
                                               dad, order, leaves, elems, t);
    ghost var d1, cnt1 := dl[..], blCount[..];
    PassOverfull(d1, dad, cnt1, f, order, leaves, elems, t, maxLength, extra, base, stree, overflow, optBits,
                 staticBits);
    PassParts(d1, dad, cnt1, f, order, elems, t, maxLength, extra, base, stree, overflow, optBits, staticBits);
    ReadyWeighs(hs, f, dad, maxCode, maxLength, stree, order, leaves, elems, ws);
    MakeTree(f, dad, order, leaves, elems, maxLength, overflow);
    PassSpares(d1, dad, cnt1, f, order, leaves, elems, t, maxLength, extra, base, stree, overflow, optBits, staticBits);
    if overflow == 0 {
      DoneWithoutRepair(d1, dad, cnt1, f, hs, order, leaves, elems, maxCode, maxLength, extra, base, stree, optBits,
                        staticBits, ws);
      return;
    }
    Repair(blCount, maxLength, overflow, |leaves|);
    ghost var cnt, opt1 := blCount[..], optBits;
    DeckReady(hs, f, dad, maxCode, maxLength, stree, order, leaves, elems, ws, d1, cnt1, cnt, extra, base, overflow,
              optBits, staticBits);
    optBits := DealOut(heap, fc, dl, blCount, maxCode, maxLength, optBits, extra, base, d1, hs, f, cnt, order, leaves,
                       elems, t);
    DoneAfterRepair(dl[..], d1, dad, cnt1, cnt, f, hs, order, leaves, elems, maxCode, maxLength, extra, base, stree,
                    overflow, opt1, optBits, staticBits, ws);
    DealSpares(dad, d1, dl[..], elems, leaves);
  }

  lemma MakeTree(f: seq<int>, dad: seq<int>, order: seq<int>, leaves: seq<int>, elems: int, top: nat, overflow: int)
    requires |leaves| >= 2 && Order(order, leaves, elems, |leaves| - 1) && Fathers(dad, order, elems, |leaves| - 1)
    requires Weighs(f, order, elems, |leaves| - 1) && overflow == Overflow(dad, order, elems, |leaves| - 1, top, 0)
    ensures HuffmanTree(f, dad, order, leaves, elems, top, overflow)
  {
    hide Order, Fathers, Weighs, Overflow;
  }
}
