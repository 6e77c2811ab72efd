/**
 `build_tree`: the symbols in use are gathered into the heap, at least two of
 them, the tree is merged, and lengths and codes are assigned.
 */
module BuildTree {
  import opened Arith
  import opened OptimalLengths
  import opened HuffmanOrder
  import opened HuffmanDepths
  import opened Heap
  import opened HuffmanMerge
  import opened HuffmanLengths
  import opened Canonical
  import opened BitOrder
  import opened HuffmanBuild

  /** The symbols below n with nonzero frequency, in order. */
  ghost function InUse(f: seq<int>, n: nat): (s: seq<int>)
    requires n <= |f|
  {
    if n == 0 then []
    else if f[n - 1] != 0 then InUse(f, n - 1) + [n - 1]
    else InUse(f, n - 1)
  }

  lemma InUseNext(f: seq<int>, n: nat)
    requires n < |f|
    ensures InUse(f, n + 1) == if f[n] != 0 then InUse(f, n) + [n] else InUse(f, n)
  {
  }

  lemma {:induction false} InUseFacts(f: seq<int>, n: nat)
    requires n <= |f|
    ensures Distinct(InUse(f, n)) && |InUse(f, n)| <= n
    ensures forall i :: 0 <= i < |InUse(f, n)| ==> 0 <= InUse(f, n)[i] < n
    ensures forall x :: 0 <= x < n ==> (x in InUse(f, n) <==> f[x] != 0)
  {
    if n > 0 {
      InUseFacts(f, n - 1);
    }
  }

  /** Bits for the first n symbols: frequency times code length and extra bits. */
  ghost function TreeBits(f: seq<int>, len: seq<int>, extra: seq<int>, base: int, n: nat): int
    requires n <= |f| && n <= |len|
  {
    if n == 0 then 0
    else TreeBits(f, len, extra, base, n - 1) + SymbolBits(f[n - 1], len[n - 1], XBits(extra, base, n - 1))
  }

  lemma {:induction false} SameMembers(s: seq<int>, t: seq<int>)
    requires Distinct(s) && Distinct(t) && forall x :: x in s <==> x in t
    ensures multiset(s) == multiset(t)
  {
    forall x ensures multiset(s)[x] == multiset(t)[x] {
      DistinctCount(s, x);
      DistinctCount(t, x);
      assert x in s <==> x in multiset(s);
      assert x in t <==> x in multiset(t);
    }
  }

  // ----- sums over the symbols in use

  lemma PickSnoc(f: seq<int>, s: seq<int>, n: nat)
    requires Picks(f, s) && n < |f|
    ensures Picks(f, s + [n]) && Pick(f, s + [n]) == Pick(f, s) + [f[n]]
  {
  }

  lemma {:induction false} InUseSum(f: seq<int>, n: nat)
    requires n <= |f|
    ensures Picks(f, InUse(f, n)) && Sum(Pick(f, InUse(f, n))) == Sum(f[..n])
  {
    if n == 0 {
      return;
    }
    InUseSum(f, n - 1);
    var s := InUse(f, n - 1);
    assert f[..n] == f[..n - 1] + [f[n - 1]];
    assert InUse(f, n) == if f[n - 1] != 0 then s + [n - 1] else s;
    hide *;
    SumSnoc(f[..n - 1], f[n - 1]);
    PickSnoc(f, s, n - 1);
    SumSnoc(Pick(f, s), f[n - 1]);
  }

  lemma {:induction false} InUseBits(f: seq<int>, len: seq<int>, extra: seq<int>, base: int, n: nat)
    requires n <= |f| && n <= |len|
    ensures Picks(f, InUse(f, n)) && Picks(len, InUse(f, n))
    ensures Bits(f, len, extra, base, InUse(f, n)) == TreeBits(f, len, extra, base, n)
  {
    if n == 0 {
      return;
    }
    InUseBits(f, len, extra, base, n - 1);
    var s := InUse(f, n - 1);
    var bits := SymbolBits(f[n - 1], len[n - 1], XBits(extra, base, n - 1));
    assert TreeBits(f, len, extra, base, n) == TreeBits(f, len, extra, base, n - 1) + bits;
    if f[n - 1] != 0 {
      assert InUse(f, n) == s + [n - 1];
      BitsSnoc(f, len, extra, base, s, n - 1);
    } else {
      ZeroBits(len[n - 1], XBits(extra, base, n - 1));
    }
    hide *;
  }

  lemma ZeroBits(l: int, x: int)
    ensures SymbolBits(0, l, x) == 0
  {
  }

  /** Counting lengths over the symbols in use is counting them over all symbols. */
  lemma {:induction false} InUseCount(f: seq<int>, dl: seq<int>, n: nat, b: int)
    requires n <= |f| && n <= |dl| && b > 0
    requires forall i :: 0 <= i < n && f[i] == 0 ==> dl[i] == 0
    ensures Picks(dl, InUse(f, n)) && Count(Pick(dl, InUse(f, n)), b) == Count(dl[..n], b)
  {
    if n == 0 {
      assert dl[..0] == [];
      return;
    }
    InUseCount(f, dl, n - 1, b);
    InUseStep(f, n);
    var s := InUse(f, n - 1);
    hide *;
    CountStep(dl, n - 1, b);
    PickSnoc(dl, s, n - 1);
    CountSnoc(Pick(dl, s), dl[n - 1], b);
  }

  lemma InUseStep(f: seq<int>, n: nat)
    requires 0 < n <= |f|
    ensures InUse(f, n) == if f[n - 1] != 0 then InUse(f, n - 1) + [n - 1] else InUse(f, n - 1)
  {
  }

  // ----- forcing two codes

  /** Frequencies after the listed symbols have been forced to occur once. */
  ghost function Patch(f: seq<int>, forced: seq<int>): (g: seq<int>)
    ensures |g| == |f|
  {
    if forced == [] then f
    else var g, x := Patch(f, forced[..|forced| - 1]), forced[|forced| - 1];
         if 0 <= x < |f| then g[x := 1] else g
  }

  /** The forced symbols were not in use, and carry no extra bits. */
  ghost predicate Fresh(f: seq<int>, forced: seq<int>, elems: nat, extra: seq<int>, base: int) {
    && elems <= |f|
    && (forall i :: 0 <= i < |forced| ==>
          0 <= forced[i] < elems && Patch(f, forced[..i])[forced[i]] == 0 && XBits(extra, base, forced[i]) == 0)
  }

  lemma FreshSnoc(f: seq<int>, forced: seq<int>, elems: nat, extra: seq<int>, base: int, x: int)
    requires Fresh(f, forced, elems, extra, base)
    requires 0 <= x < elems && Patch(f, forced)[x] == 0 && XBits(extra, base, x) == 0
    ensures Fresh(f, forced + [x], elems, extra, base)
    ensures Patch(f, forced + [x]) == Patch(f, forced)[x := 1]
  {
    var g := forced + [x];
    assert g[..|forced|] == forced;
    forall i | 0 <= i < |g|
      ensures 0 <= g[i] < elems && Patch(f, g[..i])[g[i]] == 0 && XBits(extra, base, g[i]) == 0
    {
      if i < |forced| {
        assert g[..i] == forced[..i];
      }
    }
  }

  lemma {:induction false} TreeBitsUpdate(f: seq<int>, len: seq<int>, extra: seq<int>, base: int, n: nat, x: nat)
    requires n <= |f| && n <= |len| && x < |f| && f[x] == 0 && XBits(extra, base, x) == 0
    ensures TreeBits(f[x := 1], len, extra, base, n) == TreeBits(f, len, extra, base, n) + (if x < n then len[x] else 0)
  {
    if n > 0 {
      TreeBitsUpdate(f, len, extra, base, n - 1, x);
      if x == n - 1 {
        ZeroBits(len[x], 0);
      }
    }
  }

  lemma FreshLess(f: seq<int>, forced: seq<int>, elems: nat, extra: seq<int>, base: int)
    requires Fresh(f, forced, elems, extra, base) && forced != []
    ensures Fresh(f, forced[..|forced| - 1], elems, extra, base)
  {
    var u := forced[..|forced| - 1];
    assert forall i :: 0 <= i < |u| ==> u[..i] == forced[..i];
  }

  /** Forcing symbols adds their code lengths to the bit count, and nothing else. */
  lemma {:induction false} PatchBits(f: seq<int>, forced: seq<int>, len: seq<int>, extra: seq<int>, base: int,
                                     elems: nat)
    requires Fresh(f, forced, elems, extra, base) && elems <= |len|
    ensures Picks(len, forced)
    ensures TreeBits(Patch(f, forced), len, extra, base, elems)
         == TreeBits(f, len, extra, base, elems) + Sum(Pick(len, forced))
    decreases |forced|
  {
    if forced != [] {
      var u, x := forced[..|forced| - 1], forced[|forced| - 1];
      FreshLess(f, forced, elems, extra, base);
      PatchBits(f, u, len, extra, base, elems);
      TreeBitsUpdate(Patch(f, u), len, extra, base, elems, x);
      assert Pick(len, forced) == Pick(len, u) + [len[x]];
      SumSnoc(Pick(len, u), len[x]);
    }
  }

  lemma {:induction false} PatchSum(f: seq<int>, forced: seq<int>, elems: nat, extra: seq<int>, base: int)
    requires Fresh(f, forced, elems, extra, base)
    ensures Sum(Patch(f, forced)[..elems]) == Sum(f[..elems]) + |forced|
    decreases |forced|
  {
    if forced != [] {
      var u, x := forced[..|forced| - 1], forced[|forced| - 1];
      FreshLess(f, forced, elems, extra, base);
      PatchSum(f, u, elems, extra, base);
      var g := Patch(f, u);
      assert g[x := 1][..elems] == g[..elems][x := 1];
      SumUpdate(g[..elems], x, 1);
    }
  }

  lemma TwoHalves(top: nat, a: nat, b: nat)
    requires 1 <= a <= top && 1 <= b <= top && Pow2(top - a) + Pow2(top - b) == Pow2(top)
    ensures a == 1 && b == 1
  {
    assert Pow2(top) == 2 * Pow2(top - 1);
    Pow2Mono(top - a, top - 1);
    Pow2Mono(top - b, top - 1);
    if a > 1 {
      Pow2Mono(top - a, top - 2);
    }
    if b > 1 {
      Pow2Mono(top - b, top - 2);
    }
  }

  /** Two leaves have codes of one bit each. */
  lemma TwoLeaves(dl: seq<int>, cnt: seq<int>, leaves: seq<int>, top: nat)
    requires FullLengths(dl, cnt, leaves, top) && |leaves| == 2
    ensures dl[leaves[0]] == 1 && dl[leaves[1]] == 1
  {
    var l := Pick(dl, leaves);
    var a, b := l[0], l[1];
    assert Counts(l, cnt);
    SpaceIsUsed(l, cnt, top);
    assert l[1..] == [b] && [b][1..] == [];
    assert Space(l[1..], top) == Pow2(top - b);
    TwoHalves(top, a, b);
  }

  // ----- filling the heap

  /** The first n symbols have been looked at; those in use are in the heap, in the order of leaves. */
  ghost predicate Gathered(h: seq<int>, f: seq<int>, dl: seq<int>, len: int, n: int, leaves: seq<int>, maxCode: int) {
    && |h| == HEAP_SIZE && 0 <= n <= |f| && n <= |dl| && len == |leaves| < HEAP_SIZE && h[1..len + 1] == leaves
    && LeavesOk(leaves, n) && -1 <= maxCode < n
    && (forall x :: 0 <= x < n ==> (x in leaves <==> f[x] != 0))
    && (forall x :: 0 <= x < n && x !in leaves ==> dl[x] == 0)
    && (forall i :: 0 <= i < |leaves| ==> leaves[i] <= maxCode)
    && (if leaves == [] then maxCode == -1 else maxCode in leaves)
  }

  lemma WithoutLast(s: seq<int>, i: nat, n: nat)
    requires LeavesOk(s, n) && i < |s| && s[i] == n - 1
    ensures LeavesOk(Without(s, i), n - 1)
  {
    var u := Without(s, i);
    forall k | 0 <= k < |u| ensures u[k] == s[if k < i then k else k + 1] {
    }
  }

  /** Distinct numbers below n are at most n many. */
  lemma {:induction false} DistinctFit(s: seq<int>, n: nat)
    requires LeavesOk(s, n)
    ensures |s| <= n
    decreases n
  {
    if n > 0 {
      if n - 1 in s {
        var i :| 0 <= i < |s| && s[i] == n - 1;
        WithoutLast(s, i, n);
        DistinctFit(Without(s, i), n - 1);
      } else {
        assert forall k :: 0 <= k < |s| ==> s[k] in s;
        DistinctFit(s, n - 1);
      }
    } else if s != [] {
      LeafBelow(s, n, 0);
    }
  }

  lemma LeafBelow(s: seq<int>, n: int, k: nat)
    requires LeavesOk(s, n) && k < |s|
    ensures 0 <= s[k] < n
  {
  }

  lemma SnocMember(s: seq<int>, y: int)
    ensures forall x :: x in s + [y] <==> x in s || x == y
  {
  }

  lemma GatherUsed(h: seq<int>, f: seq<int>, dl: seq<int>, len: int, n: int, leaves: seq<int>, maxCode: int)
    requires Gathered(h, f, dl, len, n, leaves, maxCode) && n < |f| && n < |dl| && f[n] != 0 && n + 1 < HEAP_SIZE
    ensures 0 <= len <= n && len + 1 < |h| && Gathered(h[len + 1 := n], f, dl, len + 1, n + 1, leaves + [n], n)
  {
    DistinctFit(leaves, n);
    SnocMember(leaves, n);
    assert h[len + 1 := n][1..len + 2] == h[1..len + 1] + [n];
  }

  lemma GatheredNone(h: seq<int>, f: seq<int>, dl: seq<int>)
    requires |h| == HEAP_SIZE
    ensures Gathered(h, f, dl, 0, 0, InUse(f, 0), -1)
  {
  }

  lemma GatherUnused(h: seq<int>, f: seq<int>, dl: seq<int>, len: int, n: int, leaves: seq<int>, maxCode: int)
    requires Gathered(h, f, dl, len, n, leaves, maxCode) && n < |f| && n < |dl| && f[n] == 0
    ensures Gathered(h, f, dl[n := 0], len, n + 1, leaves, maxCode)
  {
  }

  /** A symbol forced into use. */
  lemma GatherForced(h: seq<int>, f: seq<int>, dl: seq<int>, len: int, n: int, leaves: seq<int>, maxCode: int, x: int)
    requires Gathered(h, f, dl, len, n, leaves, maxCode) && len < 2 && 3 <= n
    requires x == if maxCode < 2 then maxCode + 1 else 0
    ensures 0 <= x < 3 && f[x] == 0
    ensures Gathered(h[len + 1 := x], f[x := 1], dl, len + 1, n, leaves + [x], if maxCode < 2 then x else maxCode)
  {
    assert x !in leaves;
    SnocMember(leaves, x);
    assert h[len + 1 := x][1..len + 2] == h[1..len + 1] + [x];
  }

  /** Everything constant about a tree: its arrays, its alphabet and its static lengths. */
  class TreeDesc {
    const fc: array<int>       // frequency, later code
    const dl: array<int>       // father, later code length
    const elems: int           // size of the alphabet
    const extra: seq<int>      // extra bits of the symbols from extraBase on
    const extraBase: int
    const maxLength: int       // length limit
    const stree: seq<int>      // static code lengths, zeros when there is no static tree
    const hasStatic: bool
    var maxCode: int           // largest symbol in use

    constructor (fc: array<int>, dl: array<int>, elems: int, extra: seq<int>, extraBase: int, maxLength: int,
                 stree: seq<int>, hasStatic: bool)
      ensures this.fc == fc && this.dl == dl && this.elems == elems && this.extra == extra
              && this.extraBase == extraBase
      ensures this.maxLength == maxLength && this.stree == stree && this.hasStatic == hasStatic && maxCode == 0
    {
      this.fc, this.dl, this.elems, this.extra, this.extraBase := fc, dl, elems, extra, extraBase;
      this.maxLength, this.stree, this.hasStatic, this.maxCode := maxLength, stree, hasStatic, 0;
    }

    /** The descriptor is one that `_tr_init` sets up. */
    ghost predicate Valid() {
      && fc != dl && 3 <= elems <= L_CODES && 2 * elems < fc.Length == dl.Length <= HEAP_SIZE
      && 1 <= maxLength <= MAX_BITS && elems <= Pow2(maxLength) && elems <= |stree|
      && (forall n :: 0 <= n < 3 ==> XBits(extra, extraBase, n) == 0)
    }
  }

  /** The part of the compressor's state that `build_tree` works on. */
  class TreeState {
    const heap: array<int>
    const depth: array<int>
    const blCount: array<int>
    var heapLen: int
    var heapMax: int
    var optLen: int
    var staticLen: int

    constructor ()
      ensures fresh(heap) && fresh(depth) && fresh(blCount) && Valid() && optLen == 0 && staticLen == 0
    {
      heap := new int[HEAP_SIZE];
      depth := new int[HEAP_SIZE](i => 0);
      blCount := new int[MAX_BITS + 1];
      heapLen, heapMax, optLen, staticLen := 0, HEAP_SIZE, 0, 0;
    }

    ghost predicate Valid()
      reads depth
    {
      && heap != depth && heap != blCount && depth != blCount
      && heap.Length == HEAP_SIZE && depth.Length == HEAP_SIZE && blCount.Length == MAX_BITS + 1 && Bytes(depth)
    }

    ghost predicate Shape(desc: TreeDesc) {
      && heap != depth && heap != blCount && depth != blCount
      && heap.Length == HEAP_SIZE && depth.Length == HEAP_SIZE && blCount.Length == MAX_BITS + 1
      && desc.Valid()
      && desc.fc != heap && desc.fc != depth && desc.fc != blCount
      && desc.dl != heap && desc.dl != depth && desc.dl != blCount
    }

    /** The state and a descriptor that it can work on. */
    ghost predicate Fits(desc: TreeDesc)
      reads depth
    {
      Shape(desc) && Bytes(depth)
    }

    /** The first loop of `build_tree`: symbols in use go to the heap, the others get length zero. */
    method Gather(desc: TreeDesc, ghost f: seq<int>) returns (maxCode: int)
      requires Fits(desc) && f == desc.fc[..]
      modifies this`heapLen, this`heapMax, heap, depth, desc.dl
      ensures Fits(desc) && f == desc.fc[..] && heapMax == HEAP_SIZE
      ensures Gathered(heap[..], f, desc.dl[..], heapLen, desc.elems, InUse(f, desc.elems), maxCode)
    {
      hide *;
      FitsSizes(desc);
      heapLen, heapMax := 0, HEAP_SIZE;
      maxCode := -1;
      GatheredNone(heap[..], f, desc.dl[..]);
      for n := 0 to desc.elems
        invariant Fits(desc) && f == desc.fc[..] && heapMax == HEAP_SIZE
        invariant Gathered(heap[..], f, desc.dl[..], heapLen, n, InUse(f, n), maxCode)
      {
        InUseNext(f, n);
        maxCode := GatherOne(desc, f, n, InUse(f, n), maxCode);
      }
    }

    lemma FitsSizes(desc: TreeDesc)
      requires Fits(desc)
      ensures 3 <= desc.elems < HEAP_SIZE == heap.Length && desc.elems < desc.fc.Length == desc.dl.Length
    {
    }

    /** One symbol of the first loop. */
    method GatherOne(desc: TreeDesc, ghost f: seq<int>, n: nat, ghost s: seq<int>, maxCode0: int) returns (maxCode: int)
      requires Fits(desc) && f == desc.fc[..] && n < desc.elems
               && Gathered(heap[..], f, desc.dl[..], heapLen, n, s, maxCode0)
      modifies this`heapLen, heap, depth, desc.dl
      ensures Fits(desc) && f == desc.fc[..]
      ensures Gathered(heap[..], f, desc.dl[..], heapLen, n + 1, if f[n] != 0 then s + [n] else s, maxCode)
    {
      hide Gathered, Pow2, XBits;
      ghost var h, d := heap[..], desc.dl[..];
      maxCode := maxCode0;
      if desc.fc[n] != 0 {
        GatherUsed(h, f, d, heapLen, n, s, maxCode);
        heapLen := heapLen + 1;
        heap[heapLen] := n;
        maxCode := n;
        depth[n] := 0;
        assert heap[..] == h[heapLen := n];
      } else {
        GatherUnused(h, f, d, heapLen, n, s, maxCode);
        desc.dl[n] := 0;
        assert desc.dl[..] == d[n := 0];
      }
    }

    /** Put one unused symbol into use, taking back the bit it will be charged. */
    method ForceOne(desc: TreeDesc, node: int, ghost h: seq<int>, ghost g: seq<int>)
      requires Fits(desc) && 0 <= node < desc.elems && 0 <= heapLen < 2 && h == heap[..] && g == desc.fc[..]
      modifies this`heapLen, this`optLen, this`staticLen, heap, depth, desc.fc
      ensures Fits(desc) && heapLen == old(heapLen) + 1
      ensures |h| == HEAP_SIZE && heap[..] == h[heapLen := node] && node < |g| && desc.fc[..] == g[node := 1]
      ensures optLen == old(optLen) - 1 && node < |desc.stree|
      ensures staticLen == old(staticLen) - (if desc.hasStatic then desc.stree[node] else 0)
    {
      hide XBits, Pow2;
      heapLen := heapLen + 1;
      heap[heapLen] := node;
      desc.fc[node] := 1;
      depth[node] := 0;
      optLen := optLen - 1;
      if desc.hasStatic {
        staticLen := staticLen - desc.stree[node];
      }
    }

    /** Force symbols into use until there are two. */
    method ForceTwo(desc: TreeDesc, maxCode0: int, ghost f: seq<int>, ghost leaves0: seq<int>)
      returns (maxCode: int, ghost forced: seq<int>)
      requires Fits(desc) && f == desc.fc[..]
      requires Gathered(heap[..], f, desc.dl[..], heapLen, desc.elems, leaves0, maxCode0)
      modifies this`heapLen, this`optLen, this`staticLen, heap, depth, desc.fc
      ensures Fits(desc)
      ensures ForcedUpTo(desc, desc.fc[..], f, leaves0, forced, optLen, staticLen, old(optLen), old(staticLen))
      ensures Gathered(heap[..], desc.fc[..], desc.dl[..], heapLen, desc.elems, leaves0 + forced, maxCode)
              && heapLen >= 2
    {
      hide *;
      forced, maxCode := [], maxCode0;
      assert leaves0 + forced == leaves0;
      DescFits(desc);
      ForcedNone(desc, f, leaves0, optLen, staticLen);
      while heapLen < 2
        invariant Fits(desc)
        invariant ForcedUpTo(desc, desc.fc[..], f, leaves0, forced, optLen, staticLen, old(optLen), old(staticLen))
        invariant Gathered(heap[..], desc.fc[..], desc.dl[..], heapLen, desc.elems, leaves0 + forced, maxCode)
        decreases 2 - heapLen
      {
        ghost var h, g, d, len := heap[..], desc.fc[..], desc.dl[..], heapLen;
        var node := if maxCode < 2 then maxCode + 1 else 0;
        DescFits(desc);
        ForcedStep(desc, h, g, d, len, maxCode, f, leaves0, forced, optLen, staticLen, old(optLen), old(staticLen),
                   node);
        ForceOne(desc, node, h, g);
        if maxCode < 2 {
          maxCode := node;
        }
        forced := forced + [node];
      }
    }

    /** Sub-heaps of increasing size are put in order, up to the whole heap. */
    method Heapify(desc: TreeDesc, ghost key: seq<int>)
      requires Fits(desc) && 2 <= heapLen && Nodes(heap[..], key, heapLen) && Keyed(key, desc.fc, depth)
      modifies heap
      ensures Nodes(heap[..], key, heapLen) && HeapFrom(heap[..], key, 1, heapLen)
      ensures Bag(heap[..], heapLen) == old(Bag(heap[..], heapLen))
    {
      var n := heapLen / 2;
      assert forall p :: n + 1 <= p ==> FatherOk(heap[..], key, p, heapLen);
      while n >= 1
        invariant 0 <= n <= heapLen / 2 && Keyed(key, desc.fc, depth)
        invariant Nodes(heap[..], key, heapLen) && HeapFrom(heap[..], key, n + 1, heapLen)
        invariant Bag(heap[..], heapLen) == old(Bag(heap[..], heapLen))
      {
        hide HeapFrom, Bag, Keyed;
        PqDownHeap(heap, desc.fc, depth, heapLen, n, key);
        n := n - 1;
      }
    }

    /** The front part of `build_tree`: the heap holds every symbol in use, at least two. */
    method Fill(desc: TreeDesc, ghost f: seq<int>) returns (ghost leaves: seq<int>, ghost forced: seq<int>)
      requires Fits(desc) && f == desc.fc[..] && Weighted(f, desc.elems)
      modifies this, heap, depth, desc.fc, desc.dl, desc`maxCode
      ensures Fits(desc) && desc.fc[..] == Patch(f, forced)
      ensures ForcedUpTo(desc, Patch(f, forced), f, InUse(f, desc.elems), forced, optLen, staticLen, old(optLen),
                         old(staticLen))
      ensures leaves == InUse(f, desc.elems) + forced
      ensures Started(heap[..], Patch(f, forced), desc.dl[..], heapLen, desc.elems, leaves, desc.maxCode)
      ensures LoopState(heap, desc.fc, desc.dl, depth, heapLen, desc.elems, leaves, [])
    {
      hide *;
      DescFits(desc);
      var maxCode := Gather(desc, f);
      ghost var leaves0 := InUse(f, desc.elems);
      maxCode, forced := ForceTwo(desc, maxCode, f, leaves0);
      leaves := leaves0 + forced;
      desc.maxCode := maxCode;
      ghost var h, g, d, key := heap[..], desc.fc[..], desc.dl[..], Keys(desc.fc[..], depth[..]);
      DescFits(desc);
      KeysKeyed(desc, g);
      GatheredNodes(h, g, d, heapLen, desc.elems, leaves, maxCode, key);
      Heapify(desc, key);
      ForcedPatch(desc, g, f, leaves0, forced, optLen, staticLen, old(optLen), old(staticLen));
      StartLemma(desc, h, heap[..], g, f, forced, d, heapLen, leaves, maxCode);
      StartLoop(desc, heap[..], g, d, heapLen, leaves);
    }

    lemma KeysKeyed(desc: TreeDesc, g: seq<int>)
      requires Fits(desc) && g == desc.fc[..]
      ensures |g| <= |depth[..]| && |Keys(g, depth[..])| == |g| && Keyed(Keys(g, depth[..]), desc.fc, depth)
    {
    }

    lemma StartLoop(desc: TreeDesc, h: seq<int>, g: seq<int>, d: seq<int>, len: int, leaves: seq<int>)
      requires Fits(desc) && h == heap[..] && g == desc.fc[..] && d == desc.dl[..]
      requires Merging(h, g, d, len, desc.elems, leaves, [])
      requires |g| <= |depth[..]| && Nodes(h, Keys(g, depth[..]), len) && HeapFrom(h, Keys(g, depth[..]), 1, len)
      ensures LoopState(heap, desc.fc, desc.dl, depth, len, desc.elems, leaves, [])
    {
      hide Merging, HeapFrom, Keys, Nodes;
    }

    /** The rest of `build_tree` up to the codes: merge the tree and find the lengths. */
    method Grow(desc: TreeDesc, ghost g: seq<int>, ghost leaves: seq<int>)
      returns (overflow: int, optBits: int, staticBits: int, ghost w: seq<int>, ghost dad: seq<int>,
               ghost order: seq<int>)
      requires Fits(desc) && g == desc.fc[..]
      requires Started(heap[..], g, desc.dl[..], heapLen, desc.elems, leaves, desc.maxCode)
      requires LoopState(heap, desc.fc, desc.dl, depth, heapLen, desc.elems, leaves, [])
      modifies this`heapLen, this`heapMax, heap, depth, blCount, desc.fc, desc.dl
      ensures Fits(desc) && LeafSet(g, leaves, desc.elems, desc.maxCode) && desc.elems >= 0 && desc.maxLength >= 0
      ensures Finished(g, desc.fc[..], desc.dl[..], blCount[..], leaves, desc.elems, desc.maxLength)
      ensures Measured(g, desc.dl[..], leaves, desc.extra, desc.extraBase, desc.stree, optBits, staticBits, overflow)
      ensures Grown(g, w, dad, order, leaves, desc.elems, desc.maxLength, overflow)
    {
      hide *;
      DescFits(desc);
      ghost var d1 := desc.dl[..];
      StartedFacts(heap[..], g, d1, heapLen, desc.elems, leaves, desc.maxCode);
      ghost var ws, total := multiset(Pick(g, leaves)), Sum(Pick(g, leaves));
      heapMax, order := MergeAll(heap, desc.fc, desc.dl, depth, heapLen, desc.elems, leaves, total, ws);
      heapLen := 1;
      ghost var f2 := desc.fc[..];
      w, dad := f2, desc.dl[..];
      ReadyLemma(desc, heap[..], g, f2, d1, dad, order, leaves);
      overflow, optBits, staticBits := GenBitlen(heap, desc.fc, desc.dl, blCount, heapMax, desc.maxCode, desc.maxLength,
                                                 desc.extra,
          desc.extraBase, desc.stree, heap[..], f2, dad, order, leaves, desc.elems, ws);
      FinishLemma(desc, g, f2, d1, dad, desc.dl[..], blCount[..], order, leaves, optBits, staticBits, overflow);
      FitsAgain(desc);
    }

    /**
     `build_tree`: lengths and codes for the symbols in use, and the bits they come
     to added to the running counts.  Symbols forced into use leave the counts as
     the original frequencies alone would.  When no node of the tree lies below the
     length limit (overflow is zero), no lengths cost less; frequencies that add up to
     less than a Fibonacci number are always such.
     */
    method Build(desc: TreeDesc, ghost f: seq<int>)
      returns (overflow: int, ghost g: seq<int>, ghost leaves: seq<int>, ghost w: seq<int>, ghost dad: seq<int>,
               ghost order: seq<int>)
      requires Fits(desc) && f == desc.fc[..] && Weighted(f, desc.elems)
      modifies this, heap, depth, blCount, desc.fc, desc.dl, desc`maxCode
      ensures Fits(desc) && InUseAtLeastTwo(f, g, leaves, desc.elems) && desc.maxLength >= 0
      ensures Tree(g, desc.fc[..], desc.dl[..], blCount[..], leaves, desc.elems, desc.maxCode, desc.maxLength)
      ensures OptimalTree(desc.dl[..], g, leaves, overflow)
              && Grown(g, w, dad, order, leaves, desc.elems, desc.maxLength, overflow)
      ensures Sum(f[..desc.elems]) < Fib(desc.maxLength + 3) ==> overflow == 0
      ensures 0 <= desc.elems <= |f| && desc.elems <= |desc.dl[..]| && desc.elems <= |desc.stree|
      ensures optLen == old(optLen) + TreeBits(f, desc.dl[..], desc.extra, desc.extraBase, desc.elems)
      ensures staticLen == old(staticLen)
                        + (if desc.hasStatic then TreeBits(f, desc.stree, desc.extra, desc.extraBase, desc.elems)
                           else 0)
    {
      hide *;
      ghost var opt0, fixed0, forced := optLen, staticLen, [];
      DescFits(desc);
      leaves, forced := Fill(desc, f);
      g := Patch(f, forced);
      ghost var leaves0, opt1, fixed1 := InUse(f, desc.elems), optLen, staticLen;
      var optBits, staticBits;
      overflow, optBits, staticBits, w, dad, order := Grow(desc, g, leaves);
      optLen := optLen + optBits;
      if desc.hasStatic {
        staticLen := staticLen + staticBits;
      }
      ghost var f2, d, cnt := desc.fc[..], desc.dl[..], blCount[..];
      DescFits(desc);
      LeafRange(g, leaves, desc.elems, desc.maxCode);
      ghost var lens := d[..desc.maxCode + 1];
      CodesReady(g, f2, d, cnt, leaves, desc.elems, desc.maxCode, desc.maxLength, lens);
      GenCodes(desc.fc, desc.dl, desc.maxCode, blCount, f2, lens, cnt);
      TreeLemma(g, f2, desc.fc[..], d, cnt, leaves, desc.elems, desc.maxCode, desc.maxLength);
      AccountLemma(desc, g, f, forced, d, cnt, leaves, f2, optBits, staticBits, opt0, fixed0, opt1, fixed1, overflow);
      LightBuild(desc, f, g, forced, leaves, w, dad, order, overflow, opt1, fixed1, opt0, fixed0);
      FitsAgain(desc);
    }

    lemma FitsAgain(desc: TreeDesc)
      requires Shape(desc) && Bytes(depth)
      ensures Fits(desc)
    {
    }

    lemma DescFits(desc: TreeDesc)
      requires Fits(desc)
      ensures Shape(desc) && Bytes(depth) && 0 <= desc.elems <= desc.fc.Length
      ensures desc.Valid() && desc.elems >= 3 && desc.dl != heap && desc.dl != depth && desc.dl != desc.fc
      ensures heap.Length == depth.Length == HEAP_SIZE && desc.fc.Length == desc.dl.Length <= HEAP_SIZE
      ensures blCount.Length == MAX_BITS + 1 && blCount != heap && blCount != desc.fc && blCount != desc.dl
      ensures Apart(heap, desc.fc, desc.dl, depth) && desc.maxLength >= 1
      ensures desc.fc != heap && desc.fc != depth && heap != depth
    {
    }
  }

  lemma ForcedNone(desc: TreeDesc, f: seq<int>, leaves0: seq<int>, opt: int, fixed: int)
    requires desc.Valid() && |f| == desc.fc.Length
    ensures ForcedUpTo(desc, f, f, leaves0, [], opt, fixed, opt, fixed)
  {
    assert Pick(desc.stree, []) == [];
  }

  /** What has been forced, and the bits taken back for it. */
  ghost predicate ForcedUpTo(desc: TreeDesc, g: seq<int>, f: seq<int>, leaves0: seq<int>, forced: seq<int>,
                             opt: int, fixed: int, opt0: int, fixed0: int) {
    && g == Patch(f, forced) && 0 <= desc.elems && Fresh(f, forced, desc.elems, desc.extra, desc.extraBase)
    && (forced == [] || |leaves0| + |forced| <= 2)
    && Picks(desc.stree, forced)
    && opt == opt0 - |forced|
    && fixed == fixed0 - (if desc.hasStatic then Sum(Pick(desc.stree, forced)) else 0)
  }

  lemma ForcedStep(desc: TreeDesc, h: seq<int>, g: seq<int>, d: seq<int>, len: int, maxCode: int, f: seq<int>,
                   leaves0: seq<int>, forced: seq<int>, opt: int, fixed: int, opt0: int, fixed0: int, x: int)
    requires desc.Valid() && ForcedUpTo(desc, g, f, leaves0, forced, opt, fixed, opt0, fixed0)
    requires Gathered(h, g, d, len, desc.elems, leaves0 + forced, maxCode) && len < 2
    requires desc.elems >= 3 && x == if maxCode < 2 then maxCode + 1 else 0
    ensures 0 <= len && 0 <= x < desc.elems && x < |g| && len + 1 < |h| && x < |desc.stree|
    ensures ForcedUpTo(desc, g[x := 1], f, leaves0, forced + [x],
                       opt - 1, fixed - (if desc.hasStatic then desc.stree[x] else 0), opt0, fixed0)
    ensures Gathered(h[len + 1 := x], g[x := 1], d, len + 1, desc.elems, leaves0 + (forced + [x]),
                     if maxCode < 2 then x else maxCode)
  {
    hide *;
    GatherForced(h, g, d, len, desc.elems, leaves0 + forced, maxCode, x);
    DescSmall(desc, h, g, d, len, desc.elems, leaves0 + forced, maxCode, x);
    assert leaves0 + (forced + [x]) == (leaves0 + forced) + [x];
    ForcedBits(desc, g, f, leaves0, forced, opt, fixed, opt0, fixed0, x);
  }

  lemma DescSmall(desc: TreeDesc, h: seq<int>, g: seq<int>, d: seq<int>, len: int, n: int, s: seq<int>, maxCode: int,
                  x: int)
    requires desc.Valid() && Gathered(h, g, d, len, n, s, maxCode) && n == desc.elems && 0 <= x < 3 && len < 2
    ensures 0 <= len == |s| && len + 1 < |h| && x < desc.elems <= |g| && x < |desc.stree|
            && XBits(desc.extra, desc.extraBase, x) == 0
  {
  }

  lemma ForcedBits(desc: TreeDesc, g: seq<int>, f: seq<int>, leaves0: seq<int>, forced: seq<int>,
                   opt: int, fixed: int, opt0: int, fixed0: int, x: int)
    requires ForcedUpTo(desc, g, f, leaves0, forced, opt, fixed, opt0, fixed0)
    requires |leaves0 + forced| < 2 && 0 <= x < desc.elems && x < |g| && g[x] == 0 && x < |desc.stree|
    requires XBits(desc.extra, desc.extraBase, x) == 0
    ensures ForcedUpTo(desc, g[x := 1], f, leaves0, forced + [x],
                       opt - 1, fixed - (if desc.hasStatic then desc.stree[x] else 0), opt0, fixed0)
  {
    FreshSnoc(f, forced, desc.elems, desc.extra, desc.extraBase, x);
    hide Fresh, Patch, XBits;
    PickSnoc(desc.stree, forced, x);
    SumSnoc(Pick(desc.stree, forced), desc.stree[x]);
    hide Picks, Pick, Sum;
  }

  // ----- what the merging loop starts from

  lemma GatheredNodes(h: seq<int>, f: seq<int>, dl: seq<int>, len: int, n: int, leaves: seq<int>, maxCode: int,
                      key: seq<int>)
    requires Gathered(h, f, dl, len, n, leaves, maxCode) && |key| == |f|
    ensures Nodes(h, key, len) && Bag(h, len) == multiset(leaves) && len == |leaves|
  {
    forall i | 1 <= i <= len ensures 0 <= h[i] < |key| {
      assert h[i] == h[1..len + 1][i - 1];
    }
  }

  lemma MergingStart(h: seq<int>, f: seq<int>, dl: seq<int>, len: int, elems: int, leaves: seq<int>)
    requires 2 <= len == |leaves| < |h| == HEAP_SIZE && Bag(h, len) == multiset(leaves)
    requires LeavesOk(leaves, elems) && elems <= L_CODES && 2 * elems <= |f| <= HEAP_SIZE && |dl| == |f|
    ensures Merging(h, f, dl, len, elems, leaves, [])
  {
    DistinctFit(leaves, elems);
    forall i | 1 <= i <= len ensures 0 <= h[i] < elems {
      assert h[i] == h[1..len + 1][i - 1];
      assert h[i] in Bag(h, len);
    }
    assert multiset(Internals(elems, 0)) == multiset{};
  }

  lemma ProblemStart(h: seq<int>, f: seq<int>, len: int, elems: int, leaves: seq<int>, total: int, ws: multiset<int>)
    requires 0 <= len == |leaves| < |h| && Bag(h, len) == multiset(leaves) && Picks(f, leaves)
    requires total == Sum(Pick(f, leaves)) && ws == multiset(Pick(f, leaves))
    requires forall i :: 0 <= i < |leaves| ==> f[leaves[i]] >= 0
    ensures Problem(h, f, len, elems, [], total, ws)
  {
    var a := Active(h, len);
    PicksPermuted(f, leaves, a);
    PickPermuted(f, leaves, a);
    SumPermuted(Pick(f, leaves), Pick(f, a));
    forall i | 0 <= i < |a| ensures 0 <= f[a[i]] {
      assert a[i] in multiset(leaves);
      assert a[i] in leaves;
    }
    assert Pick(f, Internals(elems, 0)) == [];
  }

  // ----- the finished tree

  /** The leaves are the symbols in use, all of them at most maxCode. */
  ghost predicate LeafSet(f: seq<int>, leaves: seq<int>, elems: int, maxCode: int) {
    && 0 <= elems <= |f| && LeavesOk(leaves, elems) && |leaves| >= 2
    && 0 <= maxCode < elems && maxCode in leaves && (forall i :: 0 <= i < |leaves| ==> leaves[i] <= maxCode)
    && (forall x :: 0 <= x < elems ==> (x in leaves <==> f[x] != 0))
  }

  /** The lengths d and codes c of a finished tree over frequencies f. */
  ghost predicate Tree(f: seq<int>, c: seq<int>, d: seq<int>, cnt: seq<int>, leaves: seq<int>, elems: int, maxCode: int,
                       top: nat) {
    && |c| == |d| == |f| && LeafSet(f, leaves, elems, maxCode) && FullLengths(d, cnt, leaves, top)
    && Graded(d, f, leaves) && (forall x :: 0 <= x < elems && x !in leaves ==> d[x] == 0)
    && |cnt| == MAX_BITS + 1 && Counts(d[..maxCode + 1], cnt) && Canonical.Fits(cnt)
    && Used(cnt, MAX_BITS) == Pow2(MAX_BITS)
    && (forall x :: 0 <= x <= maxCode && d[x] != 0 ==>
          0 < d[x] < |cnt| && Code(d[..maxCode + 1], cnt, x) >= 0 && c[x] == Rev(Code(d[..maxCode + 1], cnt, x), d[x]))
  }

  lemma UsedSymbols(f: seq<int>, leaves: seq<int>, n: nat)
    requires n <= |f| && LeavesOk(leaves, n) && forall x :: 0 <= x < n ==> (x in leaves <==> f[x] != 0)
    ensures multiset(leaves) == multiset(InUse(f, n))
  {
    InUseFacts(f, n);
    hide InUse;
    SameMembers(leaves, InUse(f, n));
  }

  lemma LeavesInOrder(f: seq<int>, leaves: seq<int>, elems: int, maxCode: int)
    requires LeafSet(f, leaves, elems, maxCode)
    ensures multiset(leaves) == multiset(InUse(f, elems)) == multiset(InUse(f, maxCode + 1))
  {
    UsedSymbols(f, leaves, elems);
    UsedSymbols(f, leaves, maxCode + 1);
  }

  /** Lengths for all symbols: zero for those not in use. */
  lemma LengthsOfAll(f: seq<int>, d: seq<int>, cnt: seq<int>, leaves: seq<int>, elems: int, maxCode: int, top: nat)
    requires LeafSet(f, leaves, elems, maxCode) && FullLengths(d, cnt, leaves, top) && |d| == |f|
    requires forall x :: 0 <= x < elems && x !in leaves ==> d[x] == 0
    ensures |cnt| == MAX_BITS + 1 && cnt[0] == 0 && Counts(d[..maxCode + 1], cnt)
    ensures Canonical.Fits(cnt) && Used(cnt, MAX_BITS) == Pow2(MAX_BITS)
    ensures forall x :: 0 <= x <= maxCode ==> 0 <= d[x] <= MAX_BITS
  {
    hide *;
    FullFits(d, cnt, leaves, top);
    LeavesInOrder(f, leaves, elems, maxCode);
    LengthRange(f, d, cnt, leaves, elems, maxCode, top);
    LengthCounts(f, d, cnt, leaves, maxCode + 1);
  }

  lemma LengthCounts(f: seq<int>, d: seq<int>, cnt: seq<int>, leaves: seq<int>, n: nat)
    requires n <= |f| == |d| && Histogram(cnt, d, leaves)
    requires multiset(leaves) == multiset(InUse(f, n)) && forall x :: 0 <= x < n && f[x] == 0 ==> d[x] == 0
    ensures Counts(d[..n], cnt)
  {
    hide Histogram, InUse, Count;
    forall b | 0 < b < |cnt| ensures cnt[b] == Count(d[..n], b) {
      LengthCount(f, d, cnt, leaves, n, b);
    }
  }

  lemma LengthRange(f: seq<int>, d: seq<int>, cnt: seq<int>, leaves: seq<int>, elems: int, maxCode: int, top: nat)
    requires LeafSet(f, leaves, elems, maxCode) && FullLengths(d, cnt, leaves, top) && |d| == |f|
    requires forall x :: 0 <= x < elems && x !in leaves ==> d[x] == 0
    ensures forall x :: 0 <= x < elems ==> 0 <= d[x] <= top <= MAX_BITS
    ensures 0 <= maxCode < elems <= |f| && Histogram(cnt, d, leaves)
    ensures forall x :: 0 <= x <= maxCode && f[x] == 0 ==> d[x] == 0
  {
    hide Used, Pow2, Histogram;
    forall x | 0 <= x < elems ensures 0 <= d[x] <= top <= MAX_BITS {
      if x in leaves {
        var i :| 0 <= i < |leaves| && leaves[i] == x;
      }
    }
  }

  lemma LengthCount(f: seq<int>, d: seq<int>, cnt: seq<int>, leaves: seq<int>, n: nat, b: int)
    requires n <= |f| == |d| && 0 < b < |cnt| && Histogram(cnt, d, leaves)
    requires multiset(leaves) == multiset(InUse(f, n)) && forall x :: 0 <= x < n && f[x] == 0 ==> d[x] == 0
    ensures cnt[b] == Count(d[..n], b)
  {
    var s := InUse(f, n);
    HistogramPermuted(cnt, d, leaves, s);
    InUseCount(f, d, n, b);
  }

  /** The bits counted for the leaves are those of all symbols with their original frequencies. */
  lemma BitsOfAll(f: seq<int>, forced: seq<int>, g: seq<int>, len: seq<int>, extra: seq<int>, base: int,
                  leaves: seq<int>, elems: int, maxCode: int)
    requires g == Patch(f, forced) && LeafSet(g, leaves, elems, maxCode) && Fresh(f, forced, elems, extra, base)
    requires elems <= |len|
    ensures Picks(g, leaves) && Picks(len, leaves) && Picks(len, forced)
    ensures Bits(g, len, extra, base, leaves) == TreeBits(f, len, extra, base, elems) + Sum(Pick(len, forced))
  {
    LeavesInOrder(g, leaves, elems, maxCode);
    InUseBits(g, len, extra, base, elems);
    hide *;
    BitsPermuted(g, len, extra, base, InUse(g, elems), leaves);
    PatchBits(f, forced, len, extra, base, elems);
  }

  lemma {:induction false} SumOnes(s: seq<int>)
    requires forall i :: 0 <= i < |s| ==> s[i] == 1
    ensures Sum(s) == |s|
  {
    if s != [] {
      SumOnes(s[1..]);
    }
  }

  /** A forced symbol is one of two leaves, so it is charged exactly the bit taken back. */
  lemma ForcedCharge(d: seq<int>, cnt: seq<int>, leaves0: seq<int>, forced: seq<int>, top: nat)
    requires FullLengths(d, cnt, leaves0 + forced, top) && |leaves0 + forced| >= 2
    requires forced == [] || |leaves0| + |forced| <= 2
    ensures Picks(d, forced) && Sum(Pick(d, forced)) == |forced|
  {
    var leaves := leaves0 + forced;
    forall i | 0 <= i < |forced| ensures 0 <= forced[i] < |d| && d[forced[i]] == 1 {
      assert forced[i] == leaves[|leaves0| + i];
      TwoLeaves(d, cnt, leaves, top);
    }
    SumOnes(Pick(d, forced));
  }

  /** Frequencies small enough that their sum fits the 16-bit field of a node. */
  ghost predicate Weighted(f: seq<int>, elems: int) {
    && 0 <= elems <= |f| && (forall x :: 0 <= x < elems ==> f[x] >= 0)
    && Sum(f[..elems]) + 2 < 0x1_0000
  }

  /** What the merging loop starts from. */
  ghost predicate Started(h: seq<int>, f: seq<int>, d: seq<int>, len: int, elems: int, leaves: seq<int>, maxCode: int) {
    && LeafSet(f, leaves, elems, maxCode) && len == |leaves| && Picks(f, leaves)
    && (forall i :: 0 <= i < |leaves| ==> f[leaves[i]] >= 0)
    && Problem(h, f, len, elems, [], Sum(Pick(f, leaves)), multiset(Pick(f, leaves))) && Sum(Pick(f, leaves)) < 0x1_0000
    && elems <= |d| && (forall x :: 0 <= x < elems && x !in leaves ==> d[x] == 0)
  }

  lemma ForcedPatch(desc: TreeDesc, g: seq<int>, f: seq<int>, leaves0: seq<int>, forced: seq<int>,
                    opt: int, fixed: int, opt0: int, fixed0: int)
    requires ForcedUpTo(desc, g, f, leaves0, forced, opt, fixed, opt0, fixed0) && |leaves0 + forced| >= 2
    ensures g == Patch(f, forced) && 0 <= desc.elems && Fresh(f, forced, desc.elems, desc.extra, desc.extraBase)
            && |forced| <= 2
  {
  }

  lemma {:induction false} PatchNonNegative(f: seq<int>, forced: seq<int>, n: nat)
    requires n <= |f| && forall x :: 0 <= x < n ==> f[x] >= 0
    ensures forall x :: 0 <= x < n ==> Patch(f, forced)[x] >= 0
    decreases |forced|
  {
    if forced != [] {
      PatchNonNegative(f, forced[..|forced| - 1], n);
    }
  }

  /** The frequencies of the leaves add up to those of all symbols, and fit. */
  lemma StartTotal(f: seq<int>, forced: seq<int>, leaves: seq<int>, elems: int, maxCode: int, extra: seq<int>,
                   base: int)
    requires Weighted(f, elems) && Fresh(f, forced, elems, extra, base) && |forced| <= 2
    requires LeafSet(Patch(f, forced), leaves, elems, maxCode)
    ensures Picks(Patch(f, forced), leaves) && Sum(Pick(Patch(f, forced), leaves)) < 0x1_0000
    ensures forall i :: 0 <= i < |leaves| ==> Patch(f, forced)[leaves[i]] >= 0
  {
    var g := Patch(f, forced);
    PatchNonNegative(f, forced, elems);
    PatchSum(f, forced, elems, extra, base);
    LeavesInOrder(g, leaves, elems, maxCode);
    InUseSum(g, elems);
    hide Patch, InUse, Fresh;
    PicksPermuted(g, InUse(g, elems), leaves);
    PickPermuted(g, InUse(g, elems), leaves);
    SumPermuted(Pick(g, InUse(g, elems)), Pick(g, leaves));
  }

  lemma GatheredLeafSet(h: seq<int>, f: seq<int>, dl: seq<int>, len: int, n: int, leaves: seq<int>, maxCode: int)
    requires Gathered(h, f, dl, len, n, leaves, maxCode) && len >= 2
    ensures LeafSet(f, leaves, n, maxCode) && len == |leaves| && n <= |dl|
    ensures forall x :: 0 <= x < n && x !in leaves ==> dl[x] == 0
  {
  }

  lemma StartLemma(desc: TreeDesc, h0: seq<int>, h: seq<int>, g: seq<int>, f: seq<int>, forced: seq<int>, d: seq<int>,
                   len: int,
                   leaves: seq<int>, maxCode: int)
    requires desc.Valid() && |g| == |d| == desc.fc.Length && |h| == |h0| == HEAP_SIZE
    requires Gathered(h0, g, d, len, desc.elems, leaves, maxCode) && 2 <= len < HEAP_SIZE && Weighted(f, desc.elems)
    requires g == Patch(f, forced) && Fresh(f, forced, desc.elems, desc.extra, desc.extraBase) && |forced| <= 2
    requires Bag(h, len) == Bag(h0, len) == multiset(leaves)
    ensures Started(h, g, d, len, desc.elems, leaves, maxCode) && Merging(h, g, d, len, desc.elems, leaves, [])
  {
    GatheredLeafSet(h0, g, d, len, desc.elems, leaves, maxCode);
    StartTotal(f, forced, leaves, desc.elems, maxCode, desc.extra, desc.extraBase);
    hide Gathered, Patch, Fresh, Weighted, Bag, Pick, Sum, XBits;
    ProblemStart(h, g, len, desc.elems, leaves, Sum(Pick(g, leaves)), multiset(Pick(g, leaves)));
    MergingStart(h, g, d, len, desc.elems, leaves);
    hide Merging, Problem;
  }

  lemma StartedFacts(h: seq<int>, f: seq<int>, d: seq<int>, len: int, elems: int, leaves: seq<int>, maxCode: int)
    requires Started(h, f, d, len, elems, leaves, maxCode)
    ensures LeafSet(f, leaves, elems, maxCode) && Picks(f, leaves) && len == |leaves| >= 2
    ensures Problem(h, f, len, elems, [], Sum(Pick(f, leaves)), multiset(Pick(f, leaves)))
            && Sum(Pick(f, leaves)) < 0x1_0000
    ensures forall i :: 0 <= i < |leaves| ==> f[leaves[i]] >= 0
    ensures 0 <= elems <= |d| && forall x :: 0 <= x < elems && x !in leaves ==> d[x] == 0
  {
    hide Problem, Pick, Sum;
  }

  lemma ReadyLemma(desc: TreeDesc, hs: seq<int>, g: seq<int>, f2: seq<int>, d1: seq<int>, dad: seq<int>,
                   order: seq<int>, leaves: seq<int>)
    requires desc.Valid() && LeafSet(g, leaves, desc.elems, desc.maxCode) && Picks(g, leaves)
    requires Merged(hs, f2, dad, desc.elems, leaves, order, multiset(Pick(g, leaves)))
    requires Kept(g, f2, d1, dad, desc.elems, leaves) && forall i :: 0 <= i < |leaves| ==> g[leaves[i]] >= 0
    ensures TreeReady(hs, f2, dad, desc.maxCode, desc.maxLength, desc.stree, order, leaves, desc.elems,
                      multiset(Pick(g, leaves)))
  {
    hide Merged, XBits;
    assert Pick(f2, leaves) == Pick(g, leaves);
  }

  /** Lengths are found: full for the leaves, zero for the rest; leaf frequencies are still there. */
  ghost predicate Finished(g: seq<int>, f2: seq<int>, d: seq<int>, cnt: seq<int>, leaves: seq<int>, elems: int,
                           top: nat) {
    && |d| == |f2| == |g| && FullLengths(d, cnt, leaves, top) && Graded(d, g, leaves)
    && (forall x :: 0 <= x < elems && x < |d| && x !in leaves ==> d[x] == 0)
  }

  /** The bits the lengths come to, and how good they are. */
  ghost predicate Measured(g: seq<int>, d: seq<int>, leaves: seq<int>, extra: seq<int>, base: int, stree: seq<int>,
                           optBits: int, staticBits: int, overflow: int) {
    && Picks(g, leaves) && Picks(d, leaves) && Picks(stree, leaves)
    && optBits == Bits(g, d, extra, base, leaves) && staticBits == Bits(g, stree, extra, base, leaves)
    && OptimalTree(d, g, leaves, overflow)
  }

  /** When no node overflowed, the lengths d cost no more than any feasible lengths for these frequencies. */
  ghost predicate OptimalTree(d: seq<int>, g: seq<int>, leaves: seq<int>, overflow: int) {
    && overflow >= 0 && Picks(g, leaves) && Picks(d, leaves)
    && (forall i :: 0 <= i < |leaves| ==> g[leaves[i]] >= 0 && d[leaves[i]] >= 0)
    && (overflow == 0 ==> LowerBound(multiset(Pick(g, leaves)), Cost(LeafItems(g, d, leaves))))
  }

  /** The tree that was built: each father weighs what its sons weigh, and overflow counts the nodes below the limit. */
  ghost predicate Grown(g: seq<int>, w: seq<int>, dad: seq<int>, order: seq<int>, leaves: seq<int>, elems: int,
                        top: int, overflow: int) {
    && HuffmanTree(w, dad, order, leaves, elems, top, overflow)
    && Picks(w, leaves) && Picks(g, leaves) && Pick(w, leaves) == Pick(g, leaves)
  }

  lemma {:induction false} BitsSameWeights(f: seq<int>, g: seq<int>, len: seq<int>, extra: seq<int>, base: int,
                                           s: seq<int>)
    requires Picks(f, s) && Picks(g, s) && Picks(len, s) && forall i :: 0 <= i < |s| ==> f[s[i]] == g[s[i]]
    ensures Bits(f, len, extra, base, s) == Bits(g, len, extra, base, s)
  {
    if s != [] {
      BitsSameWeights(f, g, len, extra, base, s[..|s| - 1]);
    }
  }

  lemma OptimalSameWeights(f: seq<int>, g: seq<int>, d: seq<int>, dad: seq<int>, order: seq<int>, leaves: seq<int>,
                           elems: int, top: int,
                           overflow: int)
    requires Picks(g, leaves) && Optimal(d, f, dad, leaves, elems, top, multiset(Pick(g, leaves)))
    requires HuffmanTree(f, dad, order, leaves, elems, top, overflow)
    requires forall i :: 0 <= i < |leaves| ==> f[leaves[i]] == g[leaves[i]]
    ensures OptimalTree(d, g, leaves, overflow) && Grown(g, f, dad, order, leaves, elems, top, overflow)
  {
    OverflowWithin(f, dad, order, leaves, elems, top, overflow);
    hide WithinLimit, LowerBound, Cost, HuffmanTree;
    assert LeafItems(f, d, leaves) == LeafItems(g, d, leaves);
    assert Pick(f, leaves) == Pick(g, leaves);
  }

  lemma GradedSameWeights(d: seq<int>, f: seq<int>, g: seq<int>, leaves: seq<int>)
    requires Graded(d, f, leaves) && Picks(g, leaves)
    requires forall i :: 0 <= i < |leaves| ==> f[leaves[i]] == g[leaves[i]]
    ensures Graded(d, g, leaves)
  {
  }

  lemma FinishLemma(desc: TreeDesc, g: seq<int>, f2: seq<int>, d1: seq<int>, dad: seq<int>, d: seq<int>, cnt: seq<int>,
                    order: seq<int>, leaves: seq<int>, optBits: int, staticBits: int, overflow: int)
    requires desc.Valid() && LeafSet(g, leaves, desc.elems, desc.maxCode) && Picks(g, leaves) && |g| == |d1|
    requires desc.elems <= |d1| && forall x :: 0 <= x < desc.elems && x !in leaves ==> d1[x] == 0
    requires Kept(g, f2, d1, dad, desc.elems, leaves) && Spared(dad, d, desc.elems, leaves)
    requires BitlenDone(d, cnt, f2, leaves, desc.maxLength, desc.extra, desc.extraBase, desc.stree, optBits, staticBits)
    requires Optimal(d, f2, dad, leaves, desc.elems, desc.maxLength, multiset(Pick(g, leaves)))
    requires HuffmanTree(f2, dad, order, leaves, desc.elems, desc.maxLength, overflow)
    ensures Finished(g, f2, d, cnt, leaves, desc.elems, desc.maxLength)
    ensures Measured(g, d, leaves, desc.extra, desc.extraBase, desc.stree, optBits, staticBits, overflow)
    ensures Grown(g, f2, dad, order, leaves, desc.elems, desc.maxLength, overflow)
  {
    hide FullLengths, Optimal, Bits, XBits, HuffmanTree, OptimalTree, Grown, Graded;
    assert forall i :: 0 <= i < |leaves| ==> f2[leaves[i]] == g[leaves[i]];
    GradedSameWeights(d, f2, g, leaves);
    BitsSameWeights(f2, g, d, desc.extra, desc.extraBase, leaves);
    BitsSameWeights(f2, g, desc.stree, desc.extra, desc.extraBase, leaves);
    OptimalSameWeights(f2, g, d, dad, order, leaves, desc.elems, desc.maxLength, overflow);
  }

  /** The frequencies the tree is built for: those given, unless fewer than two symbols occur. */
  ghost predicate InUseAtLeastTwo(f: seq<int>, g: seq<int>, leaves: seq<int>, elems: int) {
    && 0 <= elems <= |f| == |g|
    && (forall x :: 0 <= x < |f| && f[x] != 0 ==> g[x] == f[x])
    && (forall x :: 0 <= x < |f| && f[x] == 0 ==> g[x] == 0 || g[x] == 1)
    && (if |InUse(f, elems)| >= 2 then g == f else |leaves| == 2)
  }

  /** Two leaves make a tree of depth one. */
  lemma TwoFit(w: seq<int>, dad: seq<int>, order: seq<int>, leaves: seq<int>, elems: int, top: int, overflow: int)
    requires HuffmanTree(w, dad, order, leaves, elems, top, overflow) && |leaves| == 2 && top >= 1
    ensures overflow == 0
  {
    RootDepth(dad, elems, 1);
    SonDepth(dad, order, elems, 1, 0);
    SonDepth(dad, order, elems, 1, 1);
    assert Overflow(dad, order, elems, 1, top, 2) == 0;
    hide DepthOf;
    assert Overflow(dad, order, elems, 1, top, 1) == 0;
  }

  /** Small frequencies cannot make the tree too deep. */
  lemma LightBuild(desc: TreeDesc, f: seq<int>, g: seq<int>, forced: seq<int>, leaves: seq<int>, w: seq<int>,
                   dad: seq<int>,
                   order: seq<int>, overflow: int, opt1: int, fixed1: int, opt0: int, fixed0: int)
    requires desc.Valid() && 0 <= desc.elems <= |f| && g == Patch(f, forced) && leaves == InUse(f, desc.elems) + forced
    requires ForcedUpTo(desc, g, f, InUse(f, desc.elems), forced, opt1, fixed1, opt0, fixed0) && Weighted(f, desc.elems)
    requires LeafSet(g, leaves, desc.elems, desc.maxCode)
             && Grown(g, w, dad, order, leaves, desc.elems, desc.maxLength, overflow)
    ensures desc.maxLength >= 0 && (Sum(f[..desc.elems]) < Fib(desc.maxLength + 3) ==> overflow == 0)
  {
    hide *;
    LightParts(desc, f, g, forced, leaves, w, dad, order, overflow, opt1, fixed1, opt0, fixed0);
    if |leaves| == 2 {
      TwoFit(w, dad, order, leaves, desc.elems, desc.maxLength, overflow);
    } else {
      InUseSum(f, desc.elems);
      assert leaves == InUse(f, desc.elems) + [] == InUse(f, desc.elems);
      LightFits(w, dad, order, leaves, desc.elems, desc.maxLength, overflow);
    }
  }

  lemma LightParts(desc: TreeDesc, f: seq<int>, g: seq<int>, forced: seq<int>, leaves: seq<int>, w: seq<int>,
                   dad: seq<int>,
                   order: seq<int>, overflow: int, opt1: int, fixed1: int, opt0: int, fixed0: int)
    requires desc.Valid() && 0 <= desc.elems <= |f| && g == Patch(f, forced) && leaves == InUse(f, desc.elems) + forced
    requires ForcedUpTo(desc, g, f, InUse(f, desc.elems), forced, opt1, fixed1, opt0, fixed0) && Weighted(f, desc.elems)
    requires LeafSet(g, leaves, desc.elems, desc.maxCode)
             && Grown(g, w, dad, order, leaves, desc.elems, desc.maxLength, overflow)
    ensures desc.maxLength >= 1 && |leaves| >= 2 && (|leaves| > 2 ==> forced == [] && g == f)
    ensures HuffmanTree(w, dad, order, leaves, desc.elems, desc.maxLength, overflow)
    ensures Picks(w, leaves) && Picks(g, leaves) && Pick(w, leaves) == Pick(g, leaves)
    ensures |leaves| > 2 ==> forall i :: 0 <= i < |leaves| ==> 0 <= leaves[i] < |w| && w[leaves[i]] >= 1
  {
    hide HuffmanTree, Fresh, Sum, InUse, XBits;
    forall i | 0 <= i < |leaves| ensures 0 <= leaves[i] < |w| && w[leaves[i]] == g[leaves[i]] && g[leaves[i]] != 0 {
      assert Pick(w, leaves)[i] == Pick(g, leaves)[i];
      assert leaves[i] in leaves;
    }
  }

  lemma LeafRange(f: seq<int>, leaves: seq<int>, elems: int, maxCode: int)
    requires LeafSet(f, leaves, elems, maxCode)
    ensures 0 <= maxCode < elems <= |f| && |leaves| >= 2
  {
  }

  lemma CodesReady(g: seq<int>, f2: seq<int>, d: seq<int>, cnt: seq<int>, leaves: seq<int>, elems: int, maxCode: int,
                   top: nat,
                   lens: seq<int>)
    requires LeafSet(g, leaves, elems, maxCode) && Finished(g, f2, d, cnt, leaves, elems, top)
    requires maxCode < |d| && lens == d[..maxCode + 1]
    ensures 0 <= maxCode < |d| == |f2| && |cnt| == MAX_BITS + 1 && cnt[0] == 0
    ensures Counts(lens, cnt) && Canonical.Fits(cnt)
    ensures forall n :: 0 <= n < |lens| ==> 0 <= lens[n] <= MAX_BITS
  {
    hide FullLengths, Canonical.Fits, Counts, Graded;
    LengthsOfAll(g, d, cnt, leaves, elems, maxCode, top);
  }

  lemma TreeLemma(g: seq<int>, f2: seq<int>, c: seq<int>, d: seq<int>, cnt: seq<int>, leaves: seq<int>, elems: int,
                  maxCode: int, top: nat)
    requires LeafSet(g, leaves, elems, maxCode) && Finished(g, f2, d, cnt, leaves, elems, top) && 0 <= maxCode < |d|
    requires Coding(c, f2, d[..maxCode + 1], cnt, maxCode + 1)
    ensures Tree(g, c, d, cnt, leaves, elems, maxCode, top)
  {
    hide FullLengths, Canonical.Fits, Counts, Code, Rev, Used, Pow2, Graded;
    LengthsOfAll(g, d, cnt, leaves, elems, maxCode, top);
  }

  lemma {:induction false} PatchKeeps(f: seq<int>, forced: seq<int>, elems: nat, extra: seq<int>, base: int)
    requires Fresh(f, forced, elems, extra, base)
    ensures forall x :: 0 <= x < |f| && f[x] != 0 ==> Patch(f, forced)[x] == f[x]
    ensures forall x :: 0 <= x < |f| && f[x] == 0 ==> Patch(f, forced)[x] == 0 || Patch(f, forced)[x] == 1
    decreases |forced|
  {
    if forced != [] {
      FreshLess(f, forced, elems, extra, base);
      PatchKeeps(f, forced[..|forced| - 1], elems, extra, base);
    }
  }

  lemma AccountLemma(desc: TreeDesc, g: seq<int>, f: seq<int>, forced: seq<int>, d: seq<int>, cnt: seq<int>,
                     leaves: seq<int>,
                     f2: seq<int>, optBits: int, staticBits: int, opt0: int, fixed0: int, opt1: int, fixed1: int,
                     overflow: int)
    requires desc.Valid() && |f| == desc.fc.Length && g == Patch(f, forced) && leaves == InUse(f, desc.elems) + forced
    requires ForcedUpTo(desc, g, f, InUse(f, desc.elems), forced, opt1, fixed1, opt0, fixed0)
    requires LeafSet(g, leaves, desc.elems, desc.maxCode) && Finished(g, f2, d, cnt, leaves, desc.elems, desc.maxLength)
    requires Measured(g, d, leaves, desc.extra, desc.extraBase, desc.stree, optBits, staticBits, overflow)
    ensures 0 <= desc.elems <= |f| && desc.elems <= |d| && desc.elems <= |desc.stree|
    ensures opt1 + optBits == opt0 + TreeBits(f, d, desc.extra, desc.extraBase, desc.elems)
    ensures desc.hasStatic ==> fixed1 + staticBits
                               == fixed0 + TreeBits(f, desc.stree, desc.extra, desc.extraBase, desc.elems)
    ensures !desc.hasStatic ==> fixed1 == fixed0
    ensures InUseAtLeastTwo(f, g, leaves, desc.elems)
    ensures OptimalTree(d, g, leaves, overflow)
  {
    var elems, extra, base := desc.elems, desc.extra, desc.extraBase;
    AccountFacts(desc, g, f, forced, d, cnt, leaves, f2, opt0, fixed0, opt1, fixed1);
    MeasuredFacts(g, d, leaves, extra, base, desc.stree, optBits, staticBits, overflow);
    hide *;
    BitsOfAll(f, forced, g, d, extra, base, leaves, elems, desc.maxCode);
    BitsOfAll(f, forced, g, desc.stree, extra, base, leaves, elems, desc.maxCode);
    ForcedCharge(d, cnt, InUse(f, elems), forced, desc.maxLength);
  }

  lemma MeasuredFacts(g: seq<int>, d: seq<int>, leaves: seq<int>, extra: seq<int>, base: int, stree: seq<int>,
                      optBits: int, staticBits: int, overflow: int)
    requires Measured(g, d, leaves, extra, base, stree, optBits, staticBits, overflow)
    ensures Picks(g, leaves) && Picks(d, leaves) && Picks(stree, leaves)
    ensures optBits == Bits(g, d, extra, base, leaves) && staticBits == Bits(g, stree, extra, base, leaves)
    ensures OptimalTree(d, g, leaves, overflow)
  {
    hide Bits, OptimalTree, Pick;
  }

  lemma AccountFacts(desc: TreeDesc, g: seq<int>, f: seq<int>, forced: seq<int>, d: seq<int>, cnt: seq<int>,
                     leaves: seq<int>, f2: seq<int>, opt0: int, fixed0: int, opt1: int, fixed1: int)
    requires desc.Valid() && |f| == desc.fc.Length && g == Patch(f, forced) && leaves == InUse(f, desc.elems) + forced
    requires ForcedUpTo(desc, g, f, InUse(f, desc.elems), forced, opt1, fixed1, opt0, fixed0)
    requires LeafSet(g, leaves, desc.elems, desc.maxCode) && Finished(g, f2, d, cnt, leaves, desc.elems, desc.maxLength)
    ensures 0 <= desc.elems <= |f| && desc.elems <= |d| && desc.elems <= |desc.stree| && desc.maxLength >= 0
    ensures Fresh(f, forced, desc.elems, desc.extra, desc.extraBase) && FullLengths(d, cnt, leaves, desc.maxLength)
    ensures forced == [] || |InUse(f, desc.elems)| + |forced| <= 2
    ensures |leaves| >= 2 && Picks(desc.stree, forced)
    ensures opt1 == opt0 - |forced|
    ensures fixed1 == fixed0 - (if desc.hasStatic then Sum(Pick(desc.stree, forced)) else 0)
    ensures InUseAtLeastTwo(f, g, leaves, desc.elems)
  {
    hide FullLengths, XBits, Sum, Pick, InUse;
    PatchKeeps(f, forced, desc.elems, desc.extra, desc.extraBase);
  }

  /** When nothing overflowed, no prefix-free code spends fewer bits on the symbols in use. */
  lemma NoPrefixCodeIsShorter(d: seq<int>, g: seq<int>, leaves: seq<int>, overflow: int, ws: seq<nat>,
                              code: seq<seq<bool>>)
    requires OptimalTree(d, g, leaves, overflow) && overflow == 0
    requires |leaves| >= 1 && ws == Pick(g, leaves) && |code| == |leaves| && PrefixFree(code)
    ensures Picks(d, leaves) && forall i :: 0 <= i < |leaves| ==> g[leaves[i]] >= 0 && d[leaves[i]] >= 0
    ensures Cost(LeafItems(g, d, leaves)) <= Cost(CodeItems(ws, code))
  {
    hide LowerBound, PrefixFree, Cost, LeafItems;
    assert Weights(CodeItems(ws, code)) == Pick(g, leaves);
    PrefixCodesObeyBound(ws, code, Cost(LeafItems(g, d, leaves)));
  }

  /**
   Whether or not the limit was met at once: of all ways to give the leaves the lengths that were found, none
   costs less.
   */
  lemma NoDealCostsLess(f: seq<int>, c: seq<int>, d: seq<int>, cnt: seq<int>, leaves: seq<int>, elems: int,
                        maxCode: int, top: nat, len: seq<int>)
    requires Tree(f, c, d, cnt, leaves, elems, maxCode, top) && Picks(len, leaves)
    requires forall i :: 0 <= i < |leaves| ==> f[leaves[i]] >= 0
    requires multiset(Pick(len, leaves)) == multiset(Pick(d, leaves))
    ensures forall i :: 0 <= i < |leaves| ==> len[leaves[i]] >= 0 && d[leaves[i]] >= 0
    ensures Cost(LeafItems(f, d, leaves)) <= Cost(LeafItems(f, len, leaves))
  {
    hide Canonical.Fits, Counts, Code, Rev, Used, Pow2, Cost;
    forall i | 0 <= i < |leaves|
      ensures len[leaves[i]] >= 0
    {
      assert Pick(len, leaves)[i] in multiset(Pick(d, leaves));
      assert Pick(len, leaves)[i] in Pick(d, leaves);
    }
    var a, b := LeafItems(f, d, leaves), LeafItems(f, len, leaves);
    assert Lengths(a) == Pick(d, leaves) && Lengths(b) == Pick(len, leaves);
    hide Tree, FullLengths, Graded, Lengths;
    NoDealIsCheaper(a, b);
  }
}
