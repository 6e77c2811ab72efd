/**
 The priority queue of tree nodes that the Huffman construction uses: a binary
 heap in heap[1..len], the sons of heap[n] being heap[2n] and heap[2n+1].
 Nodes are compared by frequency, then by depth.
 */
module Heap {
  import opened Arith

  /** Comparison of two nodes by frequency, the subtree depth breaking ties. */
  predicate Smaller(fn: int, dn: int, fm: int, dm: int) {
    fn < fm || (fn == fm && dn <= dm)
  }

  /** A single number that orders nodes as Smaller does; depths fit in a byte. */
  function Key(f: int, d: int): int {
    f * 256 + d
  }

  /** key lists, node by node, what Smaller compares; depths fit in a byte. */
  ghost predicate Keyed(key: seq<int>, fc: array<int>, depth: array<int>)
    reads fc, depth
  {
    && |key| <= fc.Length && |key| <= depth.Length
    && forall n :: 0 <= n < |key| ==> 0 <= depth[n] < 256 && key[n] == Key(fc[n], depth[n])
  }

  /** Heap cells 1..len hold nodes whose keys are known. */
  ghost predicate Nodes(h: seq<int>, key: seq<int>, len: int) {
    0 <= len < |h| && forall i :: 1 <= i <= len ==> 0 <= h[i] < |key|
  }

  /** The father at p is not greater than either of its sons. */
  ghost predicate FatherOk(h: seq<int>, key: seq<int>, p: int, len: int)
    requires Nodes(h, key, len) && 1 <= p
  {
    && (2 * p <= len ==> key[h[p]] <= key[h[2 * p]])
    && (2 * p + 1 <= len ==> key[h[p]] <= key[h[2 * p + 1]])
  }

  ghost predicate HeapFrom(h: seq<int>, key: seq<int>, lo: int, len: int)
    requires Nodes(h, key, len) && 1 <= lo
  {
    forall p :: lo <= p ==> FatherOk(h, key, p, len)
  }

  /** Every father but the one at k is in order, and k's father is below k's sons. */
  ghost predicate Sifting(h: seq<int>, key: seq<int>, lo: int, k: int, len: int)
    requires Nodes(h, key, len) && 1 <= lo <= k
  {
    && (forall p :: lo <= p && p != k ==> FatherOk(h, key, p, len))
    && (lo <= k / 2 ==>
          && (2 * k <= len ==> key[h[k / 2]] <= key[h[2 * k]])
          && (2 * k + 1 <= len ==> key[h[k / 2]] <= key[h[2 * k + 1]]))
  }

  function Swap(h: seq<int>, k: int, j: int): (r: seq<int>)
    requires 0 <= k < |h| && 0 <= j < |h|
    ensures |r| == |h|
  {
    h[k := h[j]][j := h[k]]
  }

  lemma SiftStep(h: seq<int>, key: seq<int>, lo: int, k: int, j: int, len: int)
    requires Nodes(h, key, len) && 1 <= lo <= k && Sifting(h, key, lo, k, len)
    requires j == 2 * k || j == 2 * k + 1
    requires j <= len
    requires 2 * k + 1 <= len ==> key[h[j]] <= key[h[2 * k]] && key[h[j]] <= key[h[2 * k + 1]]
    requires key[h[j]] <= key[h[k]]
    ensures Nodes(Swap(h, k, j), key, len) && Sifting(Swap(h, k, j), key, lo, j, len)
  {
    var r := Swap(h, k, j);
    forall p | lo <= p && p != j ensures FatherOk(r, key, p, len) {
      if p != k {
        assert FatherOk(h, key, p, len);
      }
    }
    assert j / 2 == k;
    assert FatherOk(h, key, j, len);
  }

  lemma SiftDone(h: seq<int>, key: seq<int>, lo: int, k: int, len: int)
    requires Nodes(h, key, len) && 1 <= lo <= k && Sifting(h, key, lo, k, len)
    requires FatherOk(h, key, k, len)
    ensures HeapFrom(h, key, lo, len)
  {
  }

  lemma {:induction false} RootIsSmallest(h: seq<int>, key: seq<int>, len: int, i: int)
    requires Nodes(h, key, len) && HeapFrom(h, key, 1, len) && 1 <= i <= len
    ensures key[h[1]] <= key[h[i]]
    decreases i
  {
    if i > 1 {
      assert FatherOk(h, key, i / 2, len);
      RootIsSmallest(h, key, len, i / 2);
    }
  }

  /** The nodes in the heap, as a bag. */
  ghost function Bag(h: seq<int>, len: int): (b: multiset<int>)
    requires 0 <= len < |h|
  {
    multiset(h[1..len + 1])
  }

  lemma SwapBag(h: seq<int>, k: int, j: int, len: int)
    requires 1 <= k <= len < |h| && 1 <= j <= len
    ensures Bag(Swap(h, k, j), len) == Bag(h, len)
  {
    var s := h[1..len + 1];
    assert Swap(h, k, j)[1..len + 1] == s[k - 1 := s[j - 1]][j - 1 := s[k - 1]];
    SwapMultiset(s, k - 1, j - 1);
  }

  method IsSmaller(fc: array<int>, depth: array<int>, n: int, m: int, ghost key: seq<int>) returns (b: bool)
    requires Keyed(key, fc, depth) && 0 <= n < |key| && 0 <= m < |key|
    ensures b == (key[n] <= key[m])
  {
    b := Smaller(fc[n], depth[n], fc[m], depth[m]);
  }

  /** The smaller of the two sons at j and j + 1; the only one when j is last. */
  method SmallerSon(heap: array<int>, fc: array<int>, depth: array<int>, len: int, j: int, ghost key: seq<int>)
    returns (s: int)
    requires Nodes(heap[..], key, len) && Keyed(key, fc, depth) && 1 <= j <= len
    ensures s == j || (s == j + 1 <= len)
    ensures key[heap[s]] <= key[heap[j]] && (j + 1 <= len ==> key[heap[s]] <= key[heap[j + 1]])
  {
    s := j;
    if j < len {
      var right := IsSmaller(fc, depth, heap[j + 1], heap[j], key);
      if right {
        s := j + 1;
      }
    }
  }

  /** The heap during a sift: the hole at k holds the node that moves down. */
  ghost predicate Hole(h: seq<int>, key: seq<int>, lo: int, k: int, len: int, bag: multiset<int>) {
    && 1 <= lo <= k <= len && Nodes(h, key, len)
    && Sifting(h, key, lo, k, len) && Bag(h, len) == bag
  }

  lemma HoleStep(h: seq<int>, key: seq<int>, lo: int, k: int, j: int, len: int, bag: multiset<int>)
    requires Hole(h, key, lo, k, len, bag)
    requires j == 2 * k || j == 2 * k + 1
    requires j <= len
    requires 2 * k + 1 <= len ==> key[h[j]] <= key[h[2 * k]] && key[h[j]] <= key[h[2 * k + 1]]
    requires key[h[j]] <= key[h[k]]
    ensures Hole(Swap(h, k, j), key, lo, j, len, bag)
  {
    SiftStep(h, key, lo, k, j, len);
    SwapBag(h, k, j, len);
  }

  lemma HoleDone(h: seq<int>, key: seq<int>, lo: int, k: int, len: int, bag: multiset<int>)
    requires Hole(h, key, lo, k, len, bag) && FatherOk(h, key, k, len)
    ensures Nodes(h, key, len) && HeapFrom(h, key, lo, len) && Bag(h, len) == bag
  {
    SiftDone(h, key, lo, k, len);
  }

  lemma NodeAt(h: seq<int>, key: seq<int>, len: int, i: int)
    requires Nodes(h, key, len) && 1 <= i <= len
    ensures i <= len < |h| && 0 <= h[i] < |key|
  {
  }

  lemma SwapAt(h: seq<int>, k: int, j: int)
    requires 0 <= k < |h| && 0 <= j < |h| && k != j
    ensures |Swap(h, k, j)| == |h| && Swap(h, k, j)[k] == h[j] && Swap(h, k, j)[j] == h[k]
    ensures forall i :: 0 <= i < |h| && i != k && i != j ==> Swap(h, k, j)[i] == h[i]
  {
  }

  lemma HoleStart(h: seq<int>, key: seq<int>, k: int, len: int)
    requires 1 <= k <= len && Nodes(h, key, len) && HeapFrom(h, key, k + 1, len)
    ensures Hole(h, key, k, k, len, Bag(h, len))
  {
    hide FatherOk;
  }

  lemma HoleNodes(h: seq<int>, g: seq<int>, key: seq<int>, lo: int, k: int, len: int, bag: multiset<int>, v: int)
    requires Hole(h, key, lo, k, len, bag) && |g| == |h| && h[k] == v && 0 <= g[k] < |key|
    requires forall i :: 0 <= i < |g| && i != k ==> g[i] == h[i]
    ensures Nodes(g, key, len) && 0 <= v < |key|
    ensures 1 <= k <= len < |h| && forall j :: 1 <= j <= len && j != k ==> g[j] == h[j] && 0 <= h[j] < |key|
  {
    hide Bag, Sifting;
  }

  /** Move the node at k0 down to restore the heap, as `pqdownheap` does. */
  method PqDownHeap(heap: array<int>, fc: array<int>, depth: array<int>, len: int, k0: int, ghost key: seq<int>)
    requires heap != fc && heap != depth
    requires 1 <= k0 <= len && Nodes(heap[..], key, len)
    requires Keyed(key, fc, depth)
    requires HeapFrom(heap[..], key, k0 + 1, len)
    modifies heap
    ensures Nodes(heap[..], key, len) && HeapFrom(heap[..], key, k0, len)
    ensures Bag(heap[..], len) == old(Bag(heap[..], len))
    ensures forall i :: 0 <= i < heap.Length && !(1 <= i <= len) ==> heap[i] == old(heap[i])
  {
    hide *;
    NodeAt(heap[..], key, len, k0);
    var k := k0;
    var v := heap[k];
    var j := 2 * k;
    ghost var bag := Bag(heap[..], len);
    ghost var h := heap[..];
    HoleStart(h, key, k0, len);
    while j <= len
      invariant k0 <= k <= len && j == 2 * k
      invariant |h| == heap.Length && h[k] == v && 0 <= heap[k] < |key|
      invariant forall i :: 0 <= i < heap.Length && i != k ==> heap[i] == h[i]
      invariant Hole(h, key, k0, k, len, bag)
      invariant forall i :: 0 <= i < heap.Length && !(1 <= i <= len) ==> heap[i] == old(heap[i])
      decreases len - k
    {
      HoleNodes(h, heap[..], key, k0, k, len, bag, v);
      j := SmallerSon(heap, fc, depth, len, j, key);
      NodeAt(heap[..], key, len, j);
      var stop := IsSmaller(fc, depth, v, heap[j], key);
      if stop {
        break;
      }
      HoleStep(h, key, k0, k, j, len, bag);
      SwapAt(h, k, j);
      h := Swap(h, k, j);
      heap[k] := heap[j];
      k := j;
      j := 2 * j;
    }
    heap[k] := v;
    assert heap[..] == h;
    HoleDone(h, key, k0, k, len, bag);
  }
}
