/**
 The merging loop of `build_tree`: the two least frequent nodes are taken from
 the heap, recorded in the upper part of the heap array, and replaced by their
 father.
 */
module HuffmanMerge {
  import opened Arith
  import opened OptimalLengths
  import opened HuffmanOrder
  import opened Heap

  const HEAP_SIZE := 573  // 2 * L_CODES + 1
  const L_CODES := 286

  ghost function Active(h: seq<int>, len: int): (s: seq<int>)
    requires 0 <= len < |h|
    ensures |s| == len
  {
    h[1..len + 1]
  }

  /** The tree built so far, |order| / 2 merges into the construction. */
  ghost predicate Merging(h: seq<int>, fc: seq<int>, dl: seq<int>, len: int, elems: int,
                          leaves: seq<int>, order: seq<int>) {
    && |h| == HEAP_SIZE && 0 <= elems <= L_CODES && 2 * elems <= |fc| <= HEAP_SIZE && |dl| == |fc|
    && LeavesOk(leaves, elems) && 2 <= |leaves| <= elems
    && |order| % 2 == 0 && len == |leaves| - |order| / 2 && 1 <= len
    && (forall i :: 1 <= i <= len ==> 0 <= h[i] < elems + |order| / 2)
    && Accounted(Bag(h, len), order, leaves, elems)
    && (forall i :: 0 <= i < |order| ==> h[HEAP_SIZE - 1 - i] == order[i])
    && Sons(fc, dl, elems, order)
  }

  /** Every leaf and every internal node is either in the heap or already taken. */
  ghost predicate Accounted(bag: multiset<int>, order: seq<int>, leaves: seq<int>, elems: int) {
    bag + multiset(order) == multiset(leaves) + multiset(Internals(elems, |order| / 2))
  }

  /** Each internal node weighs what its sons weigh, and its sons point at it. */
  ghost predicate Sons(fc: seq<int>, dl: seq<int>, elems: int, order: seq<int>) {
    && |order| % 2 == 0 && 0 <= elems && elems + |order| / 2 <= |fc| && |dl| == |fc|
    && (forall i :: 0 <= i < |order| ==> 0 <= order[i] < elems + i / 2 && dl[order[i]] == elems + i / 2)
    && (forall s :: 0 <= s < |order| / 2 ==> fc[elems + s] == fc[order[2 * s]] + fc[order[2 * s + 1]])
  }

  /** The weights still in the heap carry the whole optimisation problem. */
  ghost predicate Weighing(fc: seq<int>, active: seq<int>, inner: int, total: int, ws: multiset<int>) {
    && Picks(fc, active)
    && (forall i :: 0 <= i < |active| ==> 0 <= fc[active[i]])
    && Sum(Pick(fc, active)) == total
    && forall c :: LowerBound(multiset(Pick(fc, active)), c) ==> LowerBound(ws, inner + c)
  }

  ghost function Keys(fc: seq<int>, depth: seq<int>): (k: seq<int>)
    requires |fc| <= |depth|
    ensures |k| == |fc|
  {
    seq(|fc|, n requires 0 <= n < |fc| => Key(fc[n], depth[n]))
  }

  ghost predicate Bytes(depth: array<int>)
    reads depth
  {
    forall n :: 0 <= n < depth.Length ==> 0 <= depth[n] < 256
  }

  lemma BagShrink(h: seq<int>, g: seq<int>, len: int)
    requires 2 <= len < |h| && g == h[1 := h[len]]
    ensures Bag(g, len - 1) == Bag(h, len) - multiset{h[1]}
    ensures h[1] in Bag(h, len)
  {
    var s := h[1..len + 1];
    assert s == [s[0]] + s[1..];
    assert s[1..] == h[2..len] + [h[len]];
    assert g[1..len] == [h[len]] + h[2..len];
  }

  /** A node of the bag is no smaller than the root of the heap. */
  lemma RootBelowBag(h: seq<int>, key: seq<int>, len: int)
    requires Nodes(h, key, len) && 1 <= len && HeapFrom(h, key, 1, len)
    ensures forall n :: n in Bag(h, len) ==> 0 <= n < |key| && key[h[1]] <= key[n]
  {
    forall n | n in Bag(h, len) ensures 0 <= n < |key| && key[h[1]] <= key[n] {
      assert n in h[1..len + 1];
      var i :| 0 <= i < len && h[1..len + 1][i] == n;
      RootIsSmallest(h, key, len, i + 1);
    }
  }

  lemma RemoveKeepsFathers(h: seq<int>, g: seq<int>, key: seq<int>, len: int)
    requires 2 <= len && Nodes(h, key, len) && HeapFrom(h, key, 1, len)
    requires g == h[1 := h[len]]
    ensures Nodes(g, key, len - 1) && HeapFrom(g, key, 2, len - 1)
  {
    var l := len - 1;
    forall p | 2 <= p ensures FatherOk(g, key, p, l) {
      assert FatherOk(h, key, p, len);
    }
  }

  /** Remove the least node from the heap, as the `pqremove` macro does. */
  method PqRemove(heap: array<int>, fc: array<int>, depth: array<int>, len: int, ghost key: seq<int>) returns (top: int)
    requires heap != fc && heap != depth
    requires 2 <= len && Nodes(heap[..], key, len) && Keyed(key, fc, depth)
    requires HeapFrom(heap[..], key, 1, len)
    modifies heap
    ensures top == old(heap[1])
    ensures Nodes(heap[..], key, len - 1) && HeapFrom(heap[..], key, 1, len - 1)
    ensures top in old(Bag(heap[..], len))
    ensures Bag(heap[..], len - 1) == old(Bag(heap[..], len)) - multiset{top}
    ensures forall i :: 0 <= i < heap.Length && !(1 <= i < len) ==> heap[i] == old(heap[i])
  {
    hide *;
    NodeAt(heap[..], key, len, len);
    top := heap[1];
    ghost var h := heap[..];
    heap[1] := heap[len];
    assert heap[..] == h[1 := h[len]];
    BagShrink(h, heap[..], len);
    RemoveKeepsFathers(h, heap[..], key, len);
    PqDownHeap(heap, fc, depth, len - 1, 1, key);
  }

  // ----- one merge

  /** Nodes in the heap belong to the tree so far and have not been taken yet. */
  lemma ActiveNodes(h: seq<int>, fc: seq<int>, dl: seq<int>, len: int, elems: int,
                    leaves: seq<int>, order: seq<int>, x: int)
    requires Merging(h, fc, dl, len, elems, leaves, order) && x in Bag(h, len)
    ensures 0 <= x < elems + |order| / 2 && x !in order && Bag(h, len)[x] == 1
  {
    assert x in h[1..len + 1];
    NodeCount(leaves, elems, |order| / 2, x);
    assert (Bag(h, len) + multiset(order))[x] <= 1;
    assert multiset(order)[x] == 0;
  }

  /** The arrays after nodes n and m have been joined under a new father. */
  ghost predicate Joined(h: seq<int>, g: seq<int>, fc: seq<int>, fc': seq<int>, dl: seq<int>, dl': seq<int>,
                         len: int, node: int, order: seq<int>, n: int, m: int) {
    && |g| == |h| == HEAP_SIZE && 2 <= len && len + |order| + 2 < HEAP_SIZE
    && 0 <= n < |fc| && 0 <= m < |fc| && 0 <= node < |fc| && |dl| == |fc|
    && Bag(g, len - 1) == Bag(h, len) - multiset{n} - multiset{m} + multiset{node}
    && (forall i :: HEAP_SIZE - |order| <= i < HEAP_SIZE ==> g[i] == h[i])
    && g[HEAP_SIZE - 1 - |order|] == n && g[HEAP_SIZE - 2 - |order|] == m
    && fc' == fc[node := fc[n] + fc[m]]
    && dl' == dl[n := node][m := node]
  }

  lemma JoinKeepsSons(fc: seq<int>, fc': seq<int>, dl: seq<int>, dl': seq<int>, elems: int, order: seq<int>, n: int,
                      m: int)
    requires Sons(fc, dl, elems, order)
    requires var node := elems + |order| / 2;
             && node < |fc| && 0 <= n < node && 0 <= m < node && n !in order && m !in order
             && fc' == fc[node := fc[n] + fc[m]] && dl' == dl[n := node][m := node]
    ensures Sons(fc', dl', elems, order + [n, m])
  {
    var o := order + [n, m];
    assert |o| / 2 == |order| / 2 + 1;
    forall i | 0 <= i < |o| ensures 0 <= o[i] < elems + i / 2 && dl'[o[i]] == elems + i / 2 {
      if i < |order| {
        assert o[i] == order[i] && order[i] in order;
      }
    }
    forall s | 0 <= s < |o| / 2 ensures fc'[elems + s] == fc'[o[2 * s]] + fc'[o[2 * s + 1]] {
      if s < |order| / 2 {
        assert o[2 * s] == order[2 * s] && o[2 * s + 1] == order[2 * s + 1];
      }
    }
  }

  lemma JoinKeepsMerging(h: seq<int>, g: seq<int>, fc: seq<int>, fc': seq<int>, dl: seq<int>, dl': seq<int>,
                         len: int, elems: int, leaves: seq<int>, order: seq<int>, n: int, m: int)
    requires Merging(h, fc, dl, len, elems, leaves, order)
    requires Joined(h, g, fc, fc', dl, dl', len, elems + |order| / 2, order, n, m)
    requires n in Bag(h, len) && m in Bag(h, len) - multiset{n}
    ensures Merging(g, fc', dl', len - 1, elems, leaves, order + [n, m])
  {
    hide Sons, Accounted, Bag, LeavesOk;
    var o := order + [n, m];
    ActiveNodes(h, fc, dl, len, elems, leaves, order, n);
    ActiveNodes(h, fc, dl, len, elems, leaves, order, m);
    JoinKeepsSons(fc, fc', dl, dl', elems, order, n, m);
    JoinAccounted(Bag(h, len), Bag(g, len - 1), order, leaves, elems, n, m);
    forall i | 1 <= i <= len - 1 ensures 0 <= g[i] < elems + |o| / 2 {
      JoinedRange(h, g, fc, fc', dl, dl', len, elems, leaves, order, n, m, i);
    }
  }

  lemma JoinAccounted(a: multiset<int>, b: multiset<int>, order: seq<int>, leaves: seq<int>, elems: int, n: int, m: int)
    requires Accounted(a, order, leaves, elems) && |order| % 2 == 0
    requires n in a && m in a - multiset{n}
    requires b == a - multiset{n} - multiset{m} + multiset{elems + |order| / 2}
    ensures Accounted(b, order + [n, m], leaves, elems)
  {
    var node := elems + |order| / 2;
    var o := order + [n, m];
    assert multiset(o) == multiset(order) + multiset{n} + multiset{m};
    assert Internals(elems, |o| / 2) == Internals(elems, |order| / 2) + [node];
    assert a - multiset{n} - multiset{m} + multiset{n} + multiset{m} == a;
    assert b + multiset(o) == a + multiset(order) + multiset{node};
  }

  lemma JoinedRange(h: seq<int>, g: seq<int>, fc: seq<int>, fc': seq<int>, dl: seq<int>, dl': seq<int>,
                    len: int, elems: int, leaves: seq<int>, order: seq<int>, n: int, m: int, i: int)
    requires Merging(h, fc, dl, len, elems, leaves, order)
    requires Joined(h, g, fc, fc', dl, dl', len, elems + |order| / 2, order, n, m)
    requires 1 <= i <= len - 1
    ensures 0 <= g[i] <= elems + |order| / 2
  {
    assert g[i] == g[1..len][i - 1];
    assert g[i] in Bag(g, len - 1);
    if g[i] != elems + |order| / 2 {
      assert g[i] in Bag(h, len);
      ActiveNodes(h, fc, dl, len, elems, leaves, order, g[i]);
    }
  }

  // ----- weights

  /** A bag of nodes with one node singled out. */
  lemma PickOne(f: seq<int>, s: seq<int>, n: int) returns (rest: seq<int>)
    requires Picks(f, s) && n in multiset(s)
    ensures Picks(f, rest) && multiset(rest) == multiset(s) - multiset{n} && 0 <= n < |f|
    ensures multiset(Pick(f, s)) == multiset(Pick(f, rest)) + multiset{f[n]}
    ensures Sum(Pick(f, s)) == Sum(Pick(f, rest)) + f[n]
  {
    assert n in s;
    var i :| 0 <= i < |s| && s[i] == n;
    rest := Without(s, i);
    WithoutMultiset(s, i);
    PickWithout(f, s, i);
    SumPickWithout(f, s, i);
  }

  lemma SumPickWithout(f: seq<int>, s: seq<int>, i: nat)
    requires Picks(f, s) && i < |s|
    ensures Picks(f, Without(s, i)) && Sum(Pick(f, s)) == Sum(Pick(f, Without(s, i))) + f[s[i]]
  {
    assert Pick(f, Without(s, i)) == Without(Pick(f, s), i);
    SumWithout(Pick(f, s), i);
  }

  lemma SameNodes(f: seq<int>, f': seq<int>, s: seq<int>, t: seq<int>, node: int)
    requires Picks(f, s) && multiset(s) == multiset(t) && node !in multiset(s)
    requires |f'| == |f| && forall i :: 0 <= i < |f| && i != node ==> f'[i] == f[i]
    ensures Picks(f', t) && multiset(Pick(f', t)) == multiset(Pick(f, s)) && Sum(Pick(f', t)) == Sum(Pick(f, s))
  {
    PicksPermuted(f, s, t);
    PickPermuted(f, s, t);
    forall i | 0 <= i < |t| ensures f'[t[i]] == f[t[i]] {
      assert t[i] in multiset(t);
    }
    assert Pick(f', t) == Pick(f, t);
    SumPermuted(Pick(f, s), Pick(f, t));
  }

  /** The weights in the heap after a join: the two sons' weights become their sum. */
  lemma JoinWeights(f: seq<int>, f': seq<int>, s: seq<int>, s': seq<int>, n: int, m: int, node: int)
    returns (w: multiset<int>)
    requires Picks(f, s) && 0 <= node < |f| && node !in multiset(s)
    requires n in multiset(s) && m in multiset(s) - multiset{n}
    requires multiset(s') == multiset(s) - multiset{n} - multiset{m} + multiset{node}
    requires Picks(f', s')
    requires |f'| == |f| && forall i :: 0 <= i < |f| && i != node ==> f'[i] == f[i]
    ensures 0 <= n < |f| && 0 <= m < |f|
    ensures multiset(Pick(f, s)) == w + multiset{f[n], f[m]}
    ensures multiset(Pick(f', s')) == w + multiset{f'[node]}
    ensures Sum(Pick(f', s')) == Sum(Pick(f, s)) - f[n] - f[m] + f'[node]
  {
    RemovePreserves(multiset(s), n, m, node);
    var rest := PickTwo(f, s, n, m);
    NodeAdded(f, f', rest, s', node);
    w := multiset(Pick(f, rest));
  }

  lemma NodeAdded(f: seq<int>, f': seq<int>, rest: seq<int>, s': seq<int>, node: int)
    requires Picks(f, rest) && Picks(f', s') && 0 <= node < |f| && node !in multiset(rest)
    requires multiset(s') == multiset(rest) + multiset{node}
    requires |f'| == |f| && forall i :: 0 <= i < |f| && i != node ==> f'[i] == f[i]
    ensures multiset(Pick(f', s')) == multiset(Pick(f, rest)) + multiset{f'[node]}
    ensures Sum(Pick(f', s')) == Sum(Pick(f, rest)) + f'[node]
  {
    var r := PickOne(f', s', node);
    Cancel(multiset(rest), node);
    SameNodes(f, f', rest, r, node);
  }

  lemma Cancel(a: multiset<int>, x: int)
    ensures a + multiset{x} - multiset{x} == a
  {
  }

  lemma RemovePreserves(a: multiset<int>, n: int, m: int, x: int)
    requires x !in a
    ensures x !in a - multiset{n} - multiset{m}
  {
  }

  lemma PickTwo(f: seq<int>, s: seq<int>, n: int, m: int) returns (rest: seq<int>)
    requires Picks(f, s) && n in multiset(s) && m in multiset(s) - multiset{n}
    ensures Picks(f, rest) && multiset(rest) == multiset(s) - multiset{n} - multiset{m}
    ensures 0 <= n < |f| && 0 <= m < |f|
    ensures multiset(Pick(f, s)) == multiset(Pick(f, rest)) + multiset{f[n], f[m]}
    ensures Sum(Pick(f, s)) == Sum(Pick(f, rest)) + f[n] + f[m]
  {
    var r1 := PickOne(f, s, n);
    rest := PickOne(f, r1, m);
    Regroup(multiset(Pick(f, s)), multiset(Pick(f, r1)), multiset(Pick(f, rest)), f[n], f[m]);
  }

  lemma Regroup(a: multiset<int>, a1: multiset<int>, a2: multiset<int>, x: int, y: int)
    requires a == a1 + multiset{x} && a1 == a2 + multiset{y}
    ensures a == a2 + multiset{x, y}
  {
    assert multiset{x, y} == multiset{x} + multiset{y};
  }

  /** A smallest key is a smallest frequency. */
  lemma SmallestWeights(fc: seq<int>, key: seq<int>, depth: seq<int>, s: seq<int>, n: int)
    requires |fc| <= |depth| && key == Keys(fc, depth) && Picks(fc, s)
    requires forall i :: 0 <= i < |depth| ==> 0 <= depth[i] < 256
    requires n in multiset(s) && forall x :: x in multiset(s) ==> 0 <= x < |key| && key[n] <= key[x]
    ensures forall w :: w in multiset(Pick(fc, s)) ==> fc[n] <= w
  {
    forall w | w in multiset(Pick(fc, s)) ensures fc[n] <= w {
      assert w in Pick(fc, s);
      var i :| 0 <= i < |s| && Pick(fc, s)[i] == w;
      assert s[i] in multiset(s);
    }
  }

  /** No weight of the bag undercuts the least two nodes taken from it in turn. */
  lemma TwoSmallest(fc: seq<int>, key: seq<int>, depth: seq<int>, s: seq<int>, n: int, m: int)
    requires |fc| <= |depth| && key == Keys(fc, depth) && Picks(fc, s)
    requires forall i :: 0 <= i < |depth| ==> 0 <= depth[i] < 256
    requires n in multiset(s) && forall x :: x in multiset(s) ==> 0 <= x < |key| && key[n] <= key[x]
    requires m in multiset(s) - multiset{n}
    requires forall x :: x in multiset(s) - multiset{n} ==> 0 <= x < |key| && key[m] <= key[x]
    ensures forall w :: w in multiset(Pick(fc, s)) ==> fc[n] <= w
    ensures forall w :: w in multiset(Pick(fc, s)) - multiset{fc[n]} ==> fc[m] <= w
  {
    SmallestWeights(fc, key, depth, s, n);
    var r := PickOne(fc, s, n);
    SmallestWeights(fc, key, depth, r, m);
    Cancel(multiset(Pick(fc, r)), fc[n]);
  }

  lemma {:induction false} SumNonNegative(s: seq<int>)
    requires forall i :: 0 <= i < |s| ==> 0 <= s[i]
    ensures Sum(s) >= 0
  {
    if s != [] {
      SumNonNegative(s[1..]);
    }
  }

  /** Two nodes of the heap never weigh more than the whole heap. */
  lemma PairWithinTotal(fc: seq<int>, s: seq<int>, n: int, m: int)
    requires Picks(fc, s) && n in multiset(s) && m in multiset(s) - multiset{n}
    requires forall i :: 0 <= i < |s| ==> 0 <= fc[s[i]]
    ensures 0 <= n < |fc| && 0 <= m < |fc| && fc[n] >= 0 && fc[m] >= 0
    ensures fc[n] + fc[m] <= Sum(Pick(fc, s))
  {
    assert n in s && m in s by {
      assert m in multiset(s);
    }
    var r := PickTwo(fc, s, n, m);
    forall i | 0 <= i < |r| ensures 0 <= Pick(fc, r)[i] {
      assert r[i] in multiset(r);
      assert r[i] in multiset(s);
      assert r[i] in s;
    }
    SumNonNegative(Pick(fc, r));
  }

  lemma JoinKeepsWeighing(fc: seq<int>, fc': seq<int>, s: seq<int>, s': seq<int>, n: int, m: int, node: int,
                          inner: int, total: int, ws: multiset<int>)
    requires Weighing(fc, s, inner, total, ws)
    requires 0 <= node < |fc| && node !in multiset(s)
    requires n in multiset(s) && m in multiset(s) - multiset{n}
    requires multiset(s') == multiset(s) - multiset{n} - multiset{m} + multiset{node}
    requires 0 <= n < |fc| && 0 <= m < |fc| && fc[n] >= 0 && fc[m] >= 0
    requires fc' == fc[node := fc[n] + fc[m]]
    requires forall w :: w in multiset(Pick(fc, s)) ==> fc[n] <= w
    requires forall w :: w in multiset(Pick(fc, s)) - multiset{fc[n]} ==> fc[m] <= w
    ensures Weighing(fc', s', inner + fc[n] + fc[m], total, ws)
  {
    JoinPicks(fc, fc', s, s', n, m, node);
    var w := JoinWeights(fc, fc', s, s', n, m, node);
    JoinBound(multiset(Pick(fc, s)), multiset(Pick(fc', s')), w, fc[n], fc[m], inner, ws);
  }

  lemma JoinPicks(fc: seq<int>, fc': seq<int>, s: seq<int>, s': seq<int>, n: int, m: int, node: int)
    requires Picks(fc, s) && 0 <= node < |fc|
    requires forall i :: 0 <= i < |s| ==> 0 <= fc[s[i]]
    requires multiset(s') == multiset(s) - multiset{n} - multiset{m} + multiset{node}
    requires 0 <= n < |fc| && 0 <= m < |fc| && fc[n] >= 0 && fc[m] >= 0
    requires fc' == fc[node := fc[n] + fc[m]]
    ensures Picks(fc', s') && forall i :: 0 <= i < |s'| ==> 0 <= fc'[s'[i]]
  {
    forall i | 0 <= i < |s'| ensures 0 <= s'[i] < |fc'| && 0 <= fc'[s'[i]] {
      assert s'[i] in multiset(s');
      if s'[i] != node {
        assert s'[i] in multiset(s);
        assert s'[i] in s;
      }
    }
  }

  lemma JoinBound(a: multiset<int>, b: multiset<int>, w: multiset<int>, x: int, y: int, inner: int, ws: multiset<int>)
    requires x >= 0 && y >= 0 && a == w + multiset{x, y} && b == w + multiset{x + y}
    requires forall v :: v in a ==> x <= v
    requires forall v :: v in a - multiset{x} ==> y <= v
    requires forall c :: LowerBound(a, c) ==> LowerBound(ws, inner + c)
    ensures forall c :: LowerBound(b, c) ==> LowerBound(ws, inner + x + y + c)
  {
    forall c | LowerBound(b, c) ensures LowerBound(ws, inner + x + y + c) {
      GreedyPair(w, x, y, c);
      assert LowerBound(a, c + x + y);
    }
  }

  lemma GreedyPair(w: multiset<int>, x: int, y: int, c: int)
    requires x >= 0 && y >= 0
    requires forall v :: v in w + multiset{x, y} ==> x <= v
    requires forall v :: v in w + multiset{x, y} - multiset{x} ==> y <= v
    requires LowerBound(w + multiset{x + y}, c)
    ensures LowerBound(w + multiset{x, y}, c + x + y)
  {
    assert w + multiset{x, y} - multiset{x, y} == w;
    GreedyStep(w + multiset{x, y}, x, y, c);
  }

  // ----- the loop

  /** Putting the new node on top leaves every other father in order. */
  lemma ReplaceRoot(h: seq<int>, g: seq<int>, key: seq<int>, key': seq<int>, len: int, node: int)
    requires Nodes(h, key, len) && HeapFrom(h, key, 1, len) && 1 <= len
    requires |key'| == |key| && 0 <= node < |key| && forall n :: 0 <= n < |key| && n != node ==> key'[n] == key[n]
    requires forall i :: 1 <= i <= len ==> h[i] < node
    requires |g| == |h| && g[1] == node && forall i :: 2 <= i <= len ==> g[i] == h[i]
    ensures Nodes(g, key', len) && HeapFrom(g, key', 2, len)
    ensures Bag(g, len) == Bag(h, len) - multiset{h[1]} + multiset{node}
  {
    forall p | 2 <= p ensures FatherOk(g, key', p, len) {
      assert FatherOk(h, key, p, len);
    }
    assert h[1..len + 1] == [h[1]] + h[2..len + 1];
    assert g[1..len + 1] == [node] + h[2..len + 1];
  }

  lemma MergingIsNodes(h: seq<int>, fc: seq<int>, dl: seq<int>, len: int, elems: int,
                       leaves: seq<int>, order: seq<int>, key: seq<int>)
    requires Merging(h, fc, dl, len, elems, leaves, order) && |key| == |fc| && elems + |order| / 2 <= |fc|
    ensures Nodes(h, key, len) && len + |order| < HEAP_SIZE && Picks(fc, Active(h, len))
  {
  }

  /** The tree built so far and the heap it is built with. */
  ghost predicate LoopState(heap: array<int>, fc: array<int>, dl: array<int>, depth: array<int>,
                            len: int, elems: int, leaves: seq<int>, order: seq<int>)
    reads heap, fc, dl, depth
  {
    && depth.Length == HEAP_SIZE && Bytes(depth)
    && Merging(heap[..], fc[..], dl[..], len, elems, leaves, order)
    && HeapFrom(heap[..], Keys(fc[..], depth[..]), 1, len)
  }

  /** The optimisation problem that the nodes left in the heap still pose. */
  ghost predicate Problem(h: seq<int>, fc: seq<int>, len: int, elems: int, order: seq<int>, total: int,
                          ws: multiset<int>) {
    && 0 <= len < |h| && Picks(fc, Internals(elems, |order| / 2))
    && Weighing(fc, Active(h, len), Sum(Pick(fc, Internals(elems, |order| / 2))), total, ws)
  }

  ghost predicate Apart(heap: array<int>, fc: array<int>, dl: array<int>, depth: array<int>) {
    heap != fc && heap != dl && heap != depth && fc != dl && fc != depth && dl != depth
  }

  lemma InternalSum(fc: seq<int>, fc': seq<int>, elems: int, t: nat)
    requires 0 <= elems && elems + t < |fc| && |fc'| == |fc|
    requires forall i :: 0 <= i < |fc| && i != elems + t ==> fc'[i] == fc[i]
    ensures Picks(fc, Internals(elems, t)) && Picks(fc', Internals(elems, t + 1))
    ensures Sum(Pick(fc', Internals(elems, t + 1))) == Sum(Pick(fc, Internals(elems, t))) + fc'[elems + t]
  {
    assert Pick(fc', Internals(elems, t + 1)) == Pick(fc, Internals(elems, t)) + [fc'[elems + t]];
    SumSnoc(Pick(fc, Internals(elems, t)), fc'[elems + t]);
  }

  /** n and m are the least two nodes of the bag, in that order. */
  ghost predicate LeastTwo(bag: multiset<int>, key: seq<int>, n: int, m: int) {
    && n in bag && m in bag - multiset{n}
    && (forall x :: x in bag ==> 0 <= x < |key| && 0 <= n < |key| && key[n] <= key[x])
    && (forall x :: x in bag - multiset{n} ==> 0 <= x < |key| && 0 <= m < |key| && key[m] <= key[x])
  }

  /** Take the least node out; the next least is then on top. */
  method PopLeast(heap: array<int>, fc: array<int>, depth: array<int>, len: int, ghost key: seq<int>)
      returns (n: int, m: int)
    requires heap != fc && heap != depth
    requires 2 <= len && Nodes(heap[..], key, len) && Keyed(key, fc, depth)
    requires HeapFrom(heap[..], key, 1, len)
    modifies heap
    ensures LeastTwo(old(Bag(heap[..], len)), key, n, m) && heap[1] == m
    ensures Nodes(heap[..], key, len - 1) && HeapFrom(heap[..], key, 1, len - 1)
    ensures Bag(heap[..], len - 1) == old(Bag(heap[..], len)) - multiset{n}
    ensures forall i :: 0 <= i < heap.Length && !(1 <= i < len) ==> heap[i] == old(heap[i])
  {
    hide *;
    NodeAt(heap[..], key, len, 1);
    RootBelowBag(heap[..], key, len);
    n := PqRemove(heap, fc, depth, len, key);
    m := heap[1];
    RootBelowBag(heap[..], key, len - 1);
    FirstInBag(heap[..], len - 1);
    MakeLeastTwo(old(Bag(heap[..], len)), key, n, m);
  }

  lemma FirstInBag(h: seq<int>, len: int)
    requires 1 <= len < |h|
    ensures h[1] in Bag(h, len)
  {
    assert h[1..len + 1][0] == h[1];
  }

  lemma MakeLeastTwo(bag: multiset<int>, key: seq<int>, n: int, m: int)
    requires n in bag && m in bag - multiset{n} && 0 <= n < |key| && 0 <= m < |key|
    requires forall x :: x in bag ==> 0 <= x < |key| && key[n] <= key[x]
    requires forall x :: x in bag - multiset{n} ==> 0 <= x < |key| && key[m] <= key[x]
    ensures LeastTwo(bag, key, n, m)
  {
  }

  /** The arrays after the two nodes are recorded and their father is created on top. */
  method MakeFather(heap: array<int>, fc: array<int>, dl: array<int>, depth: array<int>,
                    heapMax: int, node: int, n: int, m: int)
    requires Apart(heap, fc, dl, depth) && heap.Length == depth.Length == HEAP_SIZE
             && fc.Length == dl.Length <= HEAP_SIZE
    requires 4 <= heapMax <= HEAP_SIZE
    requires 0 <= node < fc.Length && 0 <= n < node && 0 <= m < node
    requires 0 <= fc[n] && 0 <= fc[m] && fc[n] + fc[m] < 0x1_0000 && Bytes(depth)
    modifies heap, fc, dl, depth
    ensures heap[..] == old(heap[..])[heapMax - 1 := n][heapMax - 2 := m][1 := node]
    ensures fc[..] == old(fc[..])[node := old(fc[n]) + old(fc[m])]
    ensures dl[..] == old(dl[..])[n := node][m := node]
    ensures Bytes(depth) && forall x :: 0 <= x < depth.Length && x != node ==> depth[x] == old(depth[x])
  {
    heap[heapMax - 1] := n;
    heap[heapMax - 2] := m;
    fc[node] := (fc[n] + fc[m]) % 0x1_0000;
    depth[node] := (if depth[n] >= depth[m] then depth[n] + 1 else depth[m] + 1) % 256;
    dl[n] := node;
    dl[m] := node;
    heap[1] := node;
  }

  lemma RemainingBelow(h: seq<int>, h1: seq<int>, f: seq<int>, d: seq<int>, len: int, elems: int,
                       leaves: seq<int>, order: seq<int>, n: int)
    requires Merging(h, f, d, len, elems, leaves, order) && 2 <= len && |h1| == HEAP_SIZE
    requires Bag(h1, len - 1) == Bag(h, len) - multiset{n}
    ensures forall i :: 1 <= i <= len - 1 ==> h1[i] < elems + |order| / 2
  {
    forall i | 1 <= i <= len - 1 ensures h1[i] < elems + |order| / 2 {
      assert h1[i] == h1[1..len][i - 1];
      assert h1[i] in Bag(h1, len - 1);
      ActiveNodes(h, f, d, len, elems, leaves, order, h1[i]);
    }
  }

  /** The two nodes taken out are in the tree and weigh no more than everything. */
  lemma LeastWeights(h: seq<int>, f: seq<int>, d: seq<int>, len: int, elems: int, leaves: seq<int>,
                     order: seq<int>, n: int, m: int, total: int, ws: multiset<int>)
    requires Merging(h, f, d, len, elems, leaves, order) && Problem(h, f, len, elems, order, total, ws)
    requires n in Bag(h, len) && m in Bag(h, len) - multiset{n}
    ensures 0 <= n < elems + |order| / 2 && 0 <= m < elems + |order| / 2
    ensures f[n] >= 0 && f[m] >= 0 && f[n] + f[m] <= total
  {
    ActiveNodes(h, f, d, len, elems, leaves, order, n);
    ActiveNodes(h, f, d, len, elems, leaves, order, m);
    PairWithinTotal(f, Active(h, len), n, m);
  }

  /** Record the two nodes, create their father, and put it into the heap. */
  method PushFather(heap: array<int>, fc: array<int>, dl: array<int>, depth: array<int>, len: int,
                    heapMax: int, node: int, n: int, m: int)
    requires Apart(heap, fc, dl, depth) && heap.Length == depth.Length == HEAP_SIZE
             && fc.Length == dl.Length <= HEAP_SIZE
    requires 1 <= len && len + 2 < heapMax <= HEAP_SIZE && 0 <= n < node && 0 <= m < node && node < fc.Length
    requires 0 <= fc[n] && 0 <= fc[m] && fc[n] + fc[m] < 0x1_0000 && Bytes(depth)
    requires Nodes(heap[..], Keys(fc[..], depth[..]), len) && HeapFrom(heap[..], Keys(fc[..], depth[..]), 1, len)
    requires forall i :: 1 <= i <= len ==> heap[i] < node
    modifies heap, fc, dl, depth
    ensures fc[..] == old(fc[..])[node := old(fc[n]) + old(fc[m])]
    ensures dl[..] == old(dl[..])[n := node][m := node]
    ensures Bytes(depth) && Nodes(heap[..], Keys(fc[..], depth[..]), len)
    ensures HeapFrom(heap[..], Keys(fc[..], depth[..]), 1, len)
    ensures Bag(heap[..], len) == old(Bag(heap[..], len)) - multiset{old(heap[1])} + multiset{node}
    ensures heap[heapMax - 1] == n && heap[heapMax - 2] == m
    ensures forall i :: heapMax <= i < HEAP_SIZE ==> heap[i] == old(heap[i])
  {
    ghost var h, key := heap[..], Keys(fc[..], depth[..]);
    MakeFather(heap, fc, dl, depth, heapMax, node, n, m);
    ghost var key' := Keys(fc[..], depth[..]);
    ReplaceRoot(h, heap[..], key, key', len, node);
    PqDownHeap(heap, fc, depth, len, 1, key');
  }

  lemma Room(h: seq<int>, fc: seq<int>, dl: seq<int>, len: int, elems: int, leaves: seq<int>, order: seq<int>)
    requires Merging(h, fc, dl, len, elems, leaves, order)
    ensures len + |order| < HEAP_SIZE - 1 && (len >= 2 ==> len + |order| + 2 < HEAP_SIZE && elems + |order| / 2 < |fc|)
    ensures |h| == HEAP_SIZE && |dl| == |fc| <= HEAP_SIZE && 0 <= elems
  {
  }

  lemma MakeJoined(h: seq<int>, h1: seq<int>, g: seq<int>, f: seq<int>, f': seq<int>, d: seq<int>, d': seq<int>,
                   len: int, hm: int, node: int, order: seq<int>, n: int, m: int)
    requires |h| == |h1| == |g| == HEAP_SIZE && 2 <= len && len + |order| + 2 < HEAP_SIZE && hm == HEAP_SIZE - |order|
    requires 0 <= n < |f| && 0 <= m < |f| && 0 <= node < |f| && |d| == |f|
    requires Bag(g, len - 1) == Bag(h, len) - multiset{n} - multiset{m} + multiset{node}
    requires forall i :: len < i < HEAP_SIZE ==> h1[i] == h[i]
    requires g[hm - 1] == n && g[hm - 2] == m
    requires forall i :: hm <= i < HEAP_SIZE ==> g[i] == h1[i]
    requires f' == f[node := f[n] + f[m]] && d' == d[n := node][m := node]
    ensures Joined(h, g, f, f', d, d', len, node, order, n, m)
  {
    hide Bag;
  }

  lemma StepLemma(h: seq<int>, h1: seq<int>, g: seq<int>, f: seq<int>, f': seq<int>, d: seq<int>, d': seq<int>,
                  len: int, hm: int, node: int, elems: int, leaves: seq<int>, order: seq<int>, n: int, m: int)
    requires Merging(h, f, d, len, elems, leaves, order) && 2 <= len
    requires hm == HEAP_SIZE - |order| && node == elems + |order| / 2 && len + 2 < hm
    requires n in Bag(h, len) && m in Bag(h, len) - multiset{n}
    requires |h1| == |g| == HEAP_SIZE && 0 <= node < |f|
    requires Bag(g, len - 1) == Bag(h, len) - multiset{n} - multiset{m} + multiset{node}
    requires forall i :: len < i < HEAP_SIZE ==> h1[i] == h[i]
    requires g[hm - 1] == n && g[hm - 2] == m
    requires forall i :: hm <= i < HEAP_SIZE ==> g[i] == h1[i]
    requires 0 <= n < |f| && 0 <= m < |f|
    requires f' == f[node := f[n] + f[m]] && |d| == |f| && d' == d[n := node][m := node]
    ensures Merging(g, f', d', len - 1, elems, leaves, order + [n, m])
  {
    hide *;
    Room(h, f, d, len, elems, leaves, order);
    MakeJoined(h, h1, g, f, f', d, d', len, hm, node, order, n, m);
    JoinKeepsMerging(h, g, f, f', d, d', len, elems, leaves, order, n, m);
  }

  /** The first half of a round: take the least node out and look at the next. */
  method TakeTwo(heap: array<int>, fc: array<int>, dl: array<int>, depth: array<int>, len: int,
                 ghost elems: int, ghost leaves: seq<int>, ghost order: seq<int>, ghost total: int,
                 ghost ws: multiset<int>)
    returns (n: int, m: int)
    requires Apart(heap, fc, dl, depth) && 2 <= len
    requires LoopState(heap, fc, dl, depth, len, elems, leaves, order)
    requires Problem(heap[..], fc[..], len, elems, order, total, ws) && total < 0x1_0000
    modifies heap
    ensures LeastTwo(old(Bag(heap[..], len)), Keys(fc[..], depth[..]), n, m) && heap[1] == m
    ensures Nodes(heap[..], Keys(fc[..], depth[..]), len - 1)
    ensures HeapFrom(heap[..], Keys(fc[..], depth[..]), 1, len - 1)
    ensures Bag(heap[..], len - 1) == old(Bag(heap[..], len)) - multiset{n}
    ensures forall i :: len < i < HEAP_SIZE ==> heap[i] == old(heap[i])
    ensures forall i :: 1 <= i <= len - 1 ==> heap[i] < elems + |order| / 2
    ensures 0 <= n < elems + |order| / 2 && 0 <= m < elems + |order| / 2
    ensures fc[n] >= 0 && fc[m] >= 0 && fc[n] + fc[m] < 0x1_0000
  {
    ghost var h, f, d, dep := heap[..], fc[..], dl[..], depth[..];
    Room(h, f, d, len, elems, leaves, order);
    MergingIsNodes(h, f, d, len, elems, leaves, order, Keys(f, dep));
    hide Merging, Problem, HeapFrom;
    n, m := PopLeast(heap, fc, depth, len, Keys(f, dep));
    assert fc[..] == f && depth[..] == dep;
    LeastWeights(h, f, d, len, elems, leaves, order, n, m, total, ws);
    RemainingBelow(h, heap[..], f, d, len, elems, leaves, order, n);
  }

  /** The second half of a round: the father of n and m takes their place. */
  method JoinTwo(heap: array<int>, fc: array<int>, dl: array<int>, depth: array<int>, len: int, heapMax: int,
                 node: int, n: int, m: int, ghost h: seq<int>, ghost h1: seq<int>, ghost f: seq<int>, ghost d: seq<int>,
                 ghost elems: int, ghost leaves: seq<int>, ghost order: seq<int>)
    requires Apart(heap, fc, dl, depth) && 2 <= len && depth.Length == HEAP_SIZE && Bytes(depth)
    requires f == fc[..] && d == dl[..] && Merging(h, f, d, len, elems, leaves, order)
    requires heapMax == HEAP_SIZE - |order| && node == elems + |order| / 2 && |h1| == HEAP_SIZE && h1 == heap[..]
    requires n in Bag(h, len) && m in Bag(h, len) - multiset{n} && h1[1] == m
    requires |f| <= HEAP_SIZE && Nodes(h1, Keys(f, depth[..]), len - 1)
    requires HeapFrom(h1, Keys(f, depth[..]), 1, len - 1)
    requires Bag(h1, len - 1) == Bag(h, len) - multiset{n}
    requires forall i :: len < i < HEAP_SIZE ==> h1[i] == h[i]
    requires forall i :: 1 <= i <= len - 1 ==> h1[i] < node
    requires 0 <= n < node && 0 <= m < node && node < |f|
    requires f[n] >= 0 && f[m] >= 0 && f[n] + f[m] < 0x1_0000
    modifies heap, fc, dl, depth
    ensures LoopState(heap, fc, dl, depth, len - 1, elems, leaves, order + [n, m])
    ensures Bag(heap[..], len - 1) == Bag(h, len) - multiset{n} - multiset{m} + multiset{node}
    ensures |d| == |f| && fc[..] == f[node := f[n] + f[m]] && dl[..] == d[n := node][m := node]
  {
    Room(h, f, d, len, elems, leaves, order);
    hide Merging, HeapFrom, Keys, Bag;
    PushFather(heap, fc, dl, depth, len - 1, heapMax, node, n, m);
    StepLemma(h, h1, heap[..], f, fc[..], d, dl[..], len, heapMax, node, elems, leaves, order, n, m);
  }

  /** One round of the loop that joins the two least frequent nodes. */
  method MergeStep(heap: array<int>, fc: array<int>, dl: array<int>, depth: array<int>, len: int, heapMax: int,
                   node: int,
                   ghost h: seq<int>, ghost f: seq<int>, ghost d: seq<int>, ghost dep: seq<int>,
                   ghost elems: int, ghost leaves: seq<int>, ghost order: seq<int>, ghost total: int,
                   ghost ws: multiset<int>)
    returns (n: int, m: int)
    requires Apart(heap, fc, dl, depth) && 2 <= len
    requires h == heap[..] && f == fc[..] && d == dl[..] && dep == depth[..]
    requires LoopState(heap, fc, dl, depth, len, elems, leaves, order)
    requires Problem(h, f, len, elems, order, total, ws) && total < 0x1_0000
    requires heapMax == HEAP_SIZE - |order| && node == elems + |order| / 2
    modifies heap, fc, dl, depth
    ensures LoopState(heap, fc, dl, depth, len - 1, elems, leaves, order + [n, m])
    ensures LeastTwo(Bag(h, len), Keys(f, dep), n, m)
    ensures Bag(heap[..], len - 1) == Bag(h, len) - multiset{n} - multiset{m} + multiset{node}
    ensures 0 <= n < node && 0 <= m < node && node < |f| && fc[..] == f[node := f[n] + f[m]]
    ensures |d| == |f| && dl[..] == d[n := node][m := node]
  {
    Room(h, f, d, len, elems, leaves, order);
    n, m := TakeTwo(heap, fc, dl, depth, len, elems, leaves, order, total, ws);
    hide Merging, Problem, HeapFrom, Keys, Nodes, Bag;
    assert fc[..] == f && dl[..] == d && depth[..] == dep;
    LeastInBag(Bag(h, len), Keys(f, dep), n, m);
    JoinTwo(heap, fc, dl, depth, len, heapMax, node, n, m, h, heap[..], f, d, elems, leaves, order);
  }

  lemma LeastInBag(bag: multiset<int>, key: seq<int>, n: int, m: int)
    requires LeastTwo(bag, key, n, m)
    ensures n in bag && m in bag - multiset{n}
  {
  }

  lemma FreshNode(h: seq<int>, f: seq<int>, d: seq<int>, len: int, elems: int, leaves: seq<int>, order: seq<int>)
    requires Merging(h, f, d, len, elems, leaves, order)
    ensures elems + |order| / 2 !in Bag(h, len)
  {
    var node := elems + |order| / 2;
    if node in Bag(h, len) {
      ActiveNodes(h, f, d, len, elems, leaves, order, node);
    }
  }

  /** In terms of the nodes left: the least two are replaced by their father. */
  lemma StepWeighing(s: seq<int>, s': seq<int>, f: seq<int>, f': seq<int>, depth: seq<int>, n: int, m: int, node: int,
                     inner: int, total: int, ws: multiset<int>)
    requires |f| <= |depth| && forall i :: 0 <= i < |depth| ==> 0 <= depth[i] < 256
    requires Weighing(f, s, inner, total, ws) && LeastTwo(multiset(s), Keys(f, depth), n, m)
    requires multiset(s') == multiset(s) - multiset{n} - multiset{m} + multiset{node} && node !in multiset(s)
    requires 0 <= n < |f| && 0 <= m < |f| && 0 <= node < |f| && f' == f[node := f[n] + f[m]]
    ensures Weighing(f', s', inner + f'[node], total, ws)
  {
    hide LowerBound;
    TwoSmallest(f, Keys(f, depth), depth, s, n, m);
    PairWithinTotal(f, s, n, m);
    assert n != node && m != node;
    JoinKeepsWeighing(f, f', s, s', n, m, node, inner, total, ws);
  }

  /** The round replaces the optimisation problem by an equivalent smaller one. */
  lemma StepProblem(h: seq<int>, g: seq<int>, f: seq<int>, f': seq<int>, d: seq<int>, depth: seq<int>, len: int,
                    elems: int,
                    leaves: seq<int>, order: seq<int>, n: int, m: int, total: int, ws: multiset<int>)
    requires Merging(h, f, d, len, elems, leaves, order) && 2 <= len && |g| == HEAP_SIZE && |f| <= |depth|
    requires forall i :: 0 <= i < |depth| ==> 0 <= depth[i] < 256
    requires Problem(h, f, len, elems, order, total, ws)
    requires LeastTwo(Bag(h, len), Keys(f, depth), n, m)
    requires Bag(g, len - 1) == Bag(h, len) - multiset{n} - multiset{m} + multiset{elems + |order| / 2}
    requires 0 <= n < |f| && 0 <= m < |f| && elems + |order| / 2 < |f| && f' == f[elems + |order| / 2 := f[n] + f[m]]
    ensures Problem(g, f', len - 1, elems, order + [n, m], total, ws)
  {
    hide Merging, Weighing, Keys, LeastTwo;
    Room(h, f, d, len, elems, leaves, order);
    FreshNode(h, f, d, len, elems, leaves, order);
    assert multiset(Active(h, len)) == Bag(h, len);
    StepWeighing(Active(h, len), Active(g, len - 1), f, f', depth, n, m, elems + |order| / 2,
                 Sum(Pick(f, Internals(elems, |order| / 2))), total, ws);
    InternalSum(f, f', elems, |order| / 2);
    assert |order + [n, m]| / 2 == |order| / 2 + 1;
  }

  // ----- nodes are taken in order of weight

  /** Weights only grow along the order, and what is in the heap weighs no less than what was taken last. */
  ghost predicate Rising(h: seq<int>, fc: seq<int>, len: int, order: seq<int>) {
    && 0 <= len < |h| && Ascending(fc, order)
    && (order != [] ==> AtLeast(fc, Bag(h, len), fc[order[|order| - 1]]))
  }

  ghost predicate Ascending(fc: seq<int>, order: seq<int>) {
    && (forall i :: 0 <= i < |order| ==> 0 <= order[i] < |fc|)
    && forall i, j :: 0 <= i < j < |order| ==> fc[order[i]] <= fc[order[j]]
  }

  ghost predicate AtLeast(fc: seq<int>, bag: multiset<int>, w: int) {
    forall x :: x in bag ==> 0 <= x < |fc| && w <= fc[x]
  }

  lemma KeyWeights(fc: seq<int>, depth: seq<int>, n: int, x: int)
    requires |fc| <= |depth| && 0 <= n < |fc| && 0 <= x < |fc| && Keys(fc, depth)[n] <= Keys(fc, depth)[x]
    requires forall i :: 0 <= i < |depth| ==> 0 <= depth[i] < 256
    ensures fc[n] <= fc[x]
  {
  }

  lemma LeastWeighsLess(bag: multiset<int>, fc: seq<int>, depth: seq<int>, n: int, m: int)
    requires |fc| <= |depth| && LeastTwo(bag, Keys(fc, depth), n, m)
             && forall i :: 0 <= i < |depth| ==> 0 <= depth[i] < 256
    ensures n in bag && m in bag && 0 <= n < |fc| && 0 <= m < |fc| && fc[n] <= fc[m]
    ensures AtLeast(fc, bag - multiset{n}, fc[m])
  {
    assert m in bag;
    KeyWeights(fc, depth, n, m);
    forall x | x in bag - multiset{n} ensures 0 <= x < |fc| && fc[m] <= fc[x] {
      assert x in bag;
      KeyWeights(fc, depth, m, x);
    }
    hide Keys;
  }

  /** Weights of nodes other than the new one are as they were. */
  lemma AscendingMore(fc: seq<int>, order: seq<int>, n: int, m: int, bag: multiset<int>)
    requires Ascending(fc, order) && 0 <= n < |fc| && 0 <= m < |fc| && fc[n] <= fc[m]
    requires n in bag && (order != [] ==> AtLeast(fc, bag, fc[order[|order| - 1]]))
    ensures Ascending(fc, order + [n, m])
  {
    var o := order + [n, m];
    forall i, j | 0 <= i < j < |o| ensures fc[o[i]] <= fc[o[j]] {
      if i < |order| <= j {
        assert fc[order[i]] <= fc[order[|order| - 1]] <= fc[n];
      }
    }
  }

  lemma AscendingKept(fc: seq<int>, order: seq<int>, node: int, w: int)
    requires Ascending(fc, order) && 0 <= node < |fc| && forall i :: 0 <= i < |order| ==> order[i] < node
    ensures Ascending(fc[node := w], order)
  {
  }

  /** The father weighs no less than its second son. */
  lemma AtLeastFather(fc: seq<int>, bag: multiset<int>, bag': multiset<int>, n: int, m: int, node: int)
    requires 0 <= n < node && 0 <= m < node < |fc| && fc[n] >= 0 && AtLeast(fc, bag - multiset{n}, fc[m])
    requires bag' == bag - multiset{n} - multiset{m} + multiset{node}
    ensures AtLeast(fc[node := fc[n] + fc[m]], bag', fc[m])
  {
    forall x | x in bag' ensures 0 <= x < |fc| && fc[m] <= fc[node := fc[n] + fc[m]][x] {
      if x != node {
        assert x in bag - multiset{n};
      }
    }
  }

  lemma RisingStep(h: seq<int>, g: seq<int>, f: seq<int>, f': seq<int>, d: seq<int>, dep: seq<int>, len: int, node: int,
                   elems: int,
                   leaves: seq<int>, order: seq<int>, n: int, m: int, total: int, ws: multiset<int>)
    requires Merging(h, f, d, len, elems, leaves, order) && 2 <= len < |h| && |g| == HEAP_SIZE && len - 1 < |g|
             && |f| <= |dep|
    requires forall i :: 0 <= i < |dep| ==> 0 <= dep[i] < 256
    requires LeastTwo(Bag(h, len), Keys(f, dep), n, m) && Rising(h, f, len, order)
             && Problem(h, f, len, elems, order, total, ws)
    requires Bag(g, len - 1) == Bag(h, len) - multiset{n} - multiset{m} + multiset{node} && node == elems + |order| / 2
    requires 0 <= n < node && 0 <= m < node && node < |f| && f' == f[node := f[n] + f[m]]
    ensures Rising(g, f', len - 1, order + [n, m])
  {
    hide *;
    LeastInBag(Bag(h, len), Keys(f, dep), n, m);
    LeastWeighsLess(Bag(h, len), f, dep, n, m);
    LeastWeights(h, f, d, len, elems, leaves, order, n, m, total, ws);
    OrderBelow(h, f, d, len, elems, leaves, order);
    RisingParts(h, f, len, order);
    AscendingMore(f, order, n, m, Bag(h, len));
    AscendingKept(f, order + [n, m], node, f[n] + f[m]);
    AtLeastFather(f, Bag(h, len), Bag(g, len - 1), n, m, node);
    MakeRising(g, f', len - 1, order + [n, m]);
  }

  lemma RisingParts(h: seq<int>, fc: seq<int>, len: int, order: seq<int>)
    requires Rising(h, fc, len, order)
    ensures 0 <= len < |h| && Ascending(fc, order) && forall i :: 0 <= i < |order| ==> 0 <= order[i] < |fc|
    ensures order != [] ==> AtLeast(fc, Bag(h, len), fc[order[|order| - 1]])
  {
    hide AtLeast, Bag;
  }

  lemma MakeRising(h: seq<int>, fc: seq<int>, len: int, order: seq<int>)
    requires 0 <= len < |h| && Ascending(fc, order) && order != [] && 0 <= order[|order| - 1] < |fc|
    requires AtLeast(fc, Bag(h, len), fc[order[|order| - 1]])
    ensures Rising(h, fc, len, order)
  {
    hide AtLeast, Bag;
  }

  lemma OrderBelow(h: seq<int>, f: seq<int>, d: seq<int>, len: int, elems: int, leaves: seq<int>, order: seq<int>)
    requires Merging(h, f, d, len, elems, leaves, order)
    ensures 0 <= len < |h| && forall i :: 0 <= i < |order| ==> 0 <= order[i] < elems + |order| / 2
  {
  }

  lemma RisingDone(h: seq<int>, f: seq<int>, order: seq<int>)
    requires Rising(h, f, 1, order) && 1 < |h| && 0 <= h[1] < |f|
    ensures Ascending(f, order + [h[1]])
  {
    FirstInBag(h, 1);
    hide Bag;
    forall i | 0 <= i < |order| ensures f[order[i]] <= f[h[1]] {
      assert f[order[i]] <= f[order[|order| - 1]];
    }
  }

  /** What the loop leaves: every leaf's frequency is still there and the tree is complete. */
  ghost predicate Merged(h: seq<int>, fc: seq<int>, dl: seq<int>, elems: int, leaves: seq<int>, order: seq<int>,
                         ws: multiset<int>) {
    && |leaves| >= 1 && Order(order, leaves, elems, |leaves| - 1)
    && |h| == HEAP_SIZE && |fc| == |dl| && 2 * elems <= |fc| <= HEAP_SIZE && |leaves| <= elems <= L_CODES
    && (forall i :: 0 <= i < |order| ==> h[HEAP_SIZE - 1 - i] == order[i])
    && Sons(fc, dl, elems, order[..|order| - 1])
    && Picks(fc, Internals(elems, |leaves| - 1)) && Ascending(fc, order)
    && LowerBound(ws, Sum(Pick(fc, Internals(elems, |leaves| - 1))))
  }

  lemma LoopDone(h: seq<int>, h': seq<int>, fc: seq<int>, dl: seq<int>, elems: int, leaves: seq<int>, order: seq<int>,
                 total: int, ws: multiset<int>)
    requires Merging(h, fc, dl, 1, elems, leaves, order) && Problem(h, fc, 1, elems, order, total, ws)
    requires |h| == HEAP_SIZE && |order| < HEAP_SIZE && h' == h[HEAP_SIZE - |order| - 1 := h[1]]
             && Rising(h, fc, 1, order)
    ensures Merged(h', fc, dl, elems, leaves, order + [h[1]], ws)
  {
    hide *;
    MergingLast(h, fc, dl, elems, leaves, order);
    LastNode(h, fc, dl, elems, leaves, order);
    RisingDone(h, fc, order);
    LastBound(h, fc, elems, order, total, ws);
    var o := order + [h[1]];
    assert o[..|o| - 1] == order;
    MakeMerged(h', fc, dl, elems, leaves, o, ws);
  }

  lemma MergingLast(h: seq<int>, fc: seq<int>, dl: seq<int>, elems: int, leaves: seq<int>, order: seq<int>)
    requires Merging(h, fc, dl, 1, elems, leaves, order)
    ensures 2 <= |leaves| <= elems <= L_CODES == 286 && HEAP_SIZE == 573 && |h| == HEAP_SIZE && |fc| == |dl|
            && 2 * elems <= |fc| <= HEAP_SIZE
    ensures LeavesOk(leaves, elems) && |order| % 2 == 0 && 0 <= h[1] < |fc|
    ensures forall i :: 0 <= i < |order| ==> h[HEAP_SIZE - 1 - i] == order[i]
    ensures Sons(fc, dl, elems, order) && forall i :: 0 <= i < |order| ==> 0 <= order[i] < elems + i / 2
    ensures multiset(order + [h[1]]) == multiset(leaves) + multiset(Internals(elems, |order| / 2))
  {
    assert Bag(h, 1) == multiset{h[1]};
  }

  /** One node is left: the sum of the internal weights is a lower bound. */
  lemma LastBound(h: seq<int>, fc: seq<int>, elems: int, order: seq<int>, total: int, ws: multiset<int>)
    requires Problem(h, fc, 1, elems, order, total, ws) && 1 < |h| && 0 <= h[1] < |fc|
    ensures Picks(fc, Internals(elems, |order| / 2)) && LowerBound(ws, Sum(Pick(fc, Internals(elems, |order| / 2))))
  {
    assert Active(h, 1) == [h[1]];
    assert Pick(fc, [h[1]]) == [fc[h[1]]];
    assert multiset([fc[h[1]]]) == multiset{fc[h[1]]};
    assert fc[Active(h, 1)[0]] >= 0;
    SingleLowerBound(fc[h[1]]);
    hide LowerBound;
  }

  lemma MakeMerged(h: seq<int>, fc: seq<int>, dl: seq<int>, elems: int, leaves: seq<int>, order: seq<int>,
                   ws: multiset<int>)
    requires 2 <= |leaves| <= elems <= L_CODES && |h| == HEAP_SIZE && |fc| == |dl| && 2 * elems <= |fc| <= HEAP_SIZE
    requires LeavesOk(leaves, elems) && |order| == 2 * (|leaves| - 1) + 1 && order[|order| - 1] == elems + |leaves| - 2
    requires forall i :: 0 <= i < |order| - 1 ==> 0 <= order[i] < elems + i / 2
    requires forall i :: 0 <= i < |order| ==> h[HEAP_SIZE - 1 - i] == order[i]
    requires multiset(order) == multiset(leaves) + multiset(Internals(elems, |leaves| - 1))
    requires Sons(fc, dl, elems, order[..|order| - 1]) && Ascending(fc, order)
    requires Picks(fc, Internals(elems, |leaves| - 1)) && LowerBound(ws, Sum(Pick(fc, Internals(elems, |leaves| - 1))))
    ensures Merged(h, fc, dl, elems, leaves, order, ws)
  {
    hide Sons, Ascending, Picks, LowerBound, LeavesOk;
  }

  /** The last node in the heap is the one created last. */
  lemma LastNode(h: seq<int>, fc: seq<int>, dl: seq<int>, elems: int, leaves: seq<int>, order: seq<int>)
    requires Merging(h, fc, dl, 1, elems, leaves, order)
    ensures h[1] == elems + |order| / 2 - 1 && |order| == 2 * (|leaves| - 1)
  {
    var t := |order| / 2;
    var root := elems + t - 1;
    assert Internals(elems, t)[t - 1] == root;
    assert root in multiset(Internals(elems, t));
    assert root in Bag(h, 1) + multiset(order);
    assert forall i :: 0 <= i < |order| ==> order[i] < elems + i / 2 <= root;
    assert multiset(order)[root] == 0;
    assert root in h[1..2];
  }

  /** What a round keeps apart from the loop state: leaf frequencies and unused entries. */
  ghost predicate Kept(f: seq<int>, f': seq<int>, d: seq<int>, d': seq<int>, elems: int, leaves: seq<int>) {
    && |f'| == |f| && |d'| == |d|
    && (forall i :: 0 <= i < elems && i < |f| ==> f'[i] == f[i])
    && (forall i :: 0 <= i < elems && i < |d| && i !in leaves ==> d'[i] == d[i])
  }

  lemma RoundKeeps(h: seq<int>, f: seq<int>, f': seq<int>, d: seq<int>, d': seq<int>, len: int, node: int, elems: int,
                   leaves: seq<int>, order: seq<int>, n: int, m: int)
    requires Merging(h, f, d, len, elems, leaves, order)
    requires n in Bag(h, len) && m in Bag(h, len) - multiset{n} && node == elems + |order| / 2
    requires 0 <= n < node && 0 <= m < node && node < |f| == |d|
    requires f' == f[node := f[n] + f[m]] && d' == d[n := node][m := node]
    ensures Kept(f, f', d, d', elems, leaves)
  {
    LeafNode(h, f, d, len, elems, leaves, order, n);
    LeafNode(h, f, d, len, elems, leaves, order, m);
  }

  lemma LeafNode(h: seq<int>, f: seq<int>, d: seq<int>, len: int, elems: int, leaves: seq<int>, order: seq<int>, x: int)
    requires Merging(h, f, d, len, elems, leaves, order) && x in Bag(h, len)
    ensures x < elems ==> x in leaves
  {
    var inner := Internals(elems, |order| / 2);
    assert x in Bag(h, len) + multiset(order);
    assert x in multiset(leaves) + multiset(inner);
    assert x in leaves || x in inner;
  }

  lemma RoundLemma(h: seq<int>, g: seq<int>, f: seq<int>, f': seq<int>, d: seq<int>, d': seq<int>, dep: seq<int>,
                   len: int,
                   node: int, elems: int, leaves: seq<int>, order: seq<int>, n: int, m: int, total: int,
                   ws: multiset<int>)
    requires Merging(h, f, d, len, elems, leaves, order) && 2 <= len < |h| && |g| == HEAP_SIZE && |f| <= |dep|
    requires forall i :: 0 <= i < |dep| ==> 0 <= dep[i] < 256
    requires Problem(h, f, len, elems, order, total, ws) && LeastTwo(Bag(h, len), Keys(f, dep), n, m)
    requires Bag(g, len - 1) == Bag(h, len) - multiset{n} - multiset{m} + multiset{node} && node == elems + |order| / 2
    requires 0 <= n < node && 0 <= m < node && node < |f| && f' == f[node := f[n] + f[m]]
    requires |d| == |f| && d' == d[n := node][m := node]
    requires Rising(h, f, len, order) && len - 1 < |g|
    ensures Problem(g, f', len - 1, elems, order + [n, m], total, ws)
    ensures Kept(f, f', d, d', elems, leaves) && Rising(g, f', len - 1, order + [n, m])
  {
    hide *;
    RisingStep(h, g, f, f', d, dep, len, node, elems, leaves, order, n, m, total, ws);
    StepProblem(h, g, f, f', d, dep, len, elems, leaves, order, n, m, total, ws);
    LeastInBag(Bag(h, len), Keys(f, dep), n, m);
    RoundKeeps(h, f, f', d, d', len, node, elems, leaves, order, n, m);
  }

  /** A round of the loop with everything it keeps. */
  method Round(heap: array<int>, fc: array<int>, dl: array<int>, depth: array<int>, len: int, heapMax: int, node: int,
               ghost h: seq<int>, ghost f: seq<int>, ghost d: seq<int>,
               ghost elems: int, ghost leaves: seq<int>, ghost order: seq<int>, ghost total: int,
               ghost ws: multiset<int>)
    returns (n: int, m: int)
    requires Apart(heap, fc, dl, depth) && 2 <= len
    requires h == heap[..] && f == fc[..] && d == dl[..]
    requires LoopState(heap, fc, dl, depth, len, elems, leaves, order)
    requires Problem(h, f, len, elems, order, total, ws) && total < 0x1_0000 && Rising(h, f, len, order)
    requires heapMax == HEAP_SIZE - |order| && node == elems + |order| / 2
    modifies heap, fc, dl, depth
    ensures LoopState(heap, fc, dl, depth, len - 1, elems, leaves, order + [n, m])
    ensures Problem(heap[..], fc[..], len - 1, elems, order + [n, m], total, ws)
            && Rising(heap[..], fc[..], len - 1, order + [n, m])
    ensures Kept(f, fc[..], d, dl[..], elems, leaves)
  {
    ghost var dep := depth[..];
    Room(h, f, d, len, elems, leaves, order);
    hide Merging, Problem, HeapFrom, Keys, Nodes, Bag;
    n, m := MergeStep(heap, fc, dl, depth, len, heapMax, node, h, f, d, dep, elems, leaves, order, total, ws);
    RoundLemma(h, heap[..], f, fc[..], d, dl[..], dep, len, node, elems, leaves, order, n, m, total, ws);
  }

  lemma KeptTransitive(f: seq<int>, f1: seq<int>, f2: seq<int>, d: seq<int>, d1: seq<int>, d2: seq<int>, elems: int,
                       leaves: seq<int>)
    requires Kept(f, f1, d, d1, elems, leaves) && Kept(f1, f2, d1, d2, elems, leaves)
    ensures Kept(f, f2, d, d2, elems, leaves)
  {
  }

  /** The loop of `build_tree` that combines nodes until one is left. */
  method MergeAll(heap: array<int>, fc: array<int>, dl: array<int>, depth: array<int>, heapLen: int, elems: int,
                  ghost leaves: seq<int>, ghost total: int, ghost ws: multiset<int>)
    returns (heapMax: int, ghost order: seq<int>)
    requires Apart(heap, fc, dl, depth) && heapLen == |leaves| >= 1
    requires LoopState(heap, fc, dl, depth, heapLen, elems, leaves, [])
    requires Problem(heap[..], fc[..], heapLen, elems, [], total, ws) && total < 0x1_0000
    modifies heap, fc, dl, depth
    ensures Merged(heap[..], fc[..], dl[..], elems, leaves, order, ws)
    ensures heapMax == HEAP_SIZE - |order|
    ensures Kept(old(fc[..]), fc[..], old(dl[..]), dl[..], elems, leaves) && Bytes(depth)
  {
    hide *;
    order := [];
    heapMax := HEAP_SIZE;
    var node := elems;
    var len := heapLen;
    ghost var fc0, dl0 := fc[..], dl[..];
    LoopStart(heap, fc, dl, depth, len, elems, leaves);
    while len >= 2
      invariant 1 <= len <= heapLen && heapMax == HEAP_SIZE - |order| && node == elems + |order| / 2
      invariant LoopState(heap, fc, dl, depth, len, elems, leaves, order)
      invariant Problem(heap[..], fc[..], len, elems, order, total, ws) && Rising(heap[..], fc[..], len, order)
      invariant Kept(fc0, fc[..], dl0, dl[..], elems, leaves)
    {
      ghost var h, f, d := heap[..], fc[..], dl[..];
      ghost var n, m := Round(heap, fc, dl, depth, len, heapMax, node, h, f, d, elems, leaves, order, total, ws);
      KeptTransitive(fc0, f, fc[..], dl0, d, dl[..], elems, leaves);
      order := order + [n, m];
      heapMax := heapMax - 2;
      node := node + 1;
      len := len - 1;
    }
    LoopEnds(heap, fc, dl, depth, len, elems, leaves, order);
    ghost var h := heap[..];
    heapMax := heapMax - 1;
    heap[heapMax] := heap[1];
    LoopDone(h, heap[..], fc[..], dl[..], elems, leaves, order, total, ws);
    order := order + [h[1]];
  }

  lemma LoopStart(heap: array<int>, fc: array<int>, dl: array<int>, depth: array<int>, len: int, elems: int,
                  leaves: seq<int>)
    requires LoopState(heap, fc, dl, depth, len, elems, leaves, []) && Apart(heap, fc, dl, depth)
    ensures heap != fc && heap != dl && heap != depth
    ensures Kept(fc[..], fc[..], dl[..], dl[..], elems, leaves) && Rising(heap[..], fc[..], len, [])
  {
    hide Keys, HeapFrom, Bag;
  }

  lemma LoopEnds(heap: array<int>, fc: array<int>, dl: array<int>, depth: array<int>, len: int, elems: int,
                 leaves: seq<int>, order: seq<int>)
    requires LoopState(heap, fc, dl, depth, len, elems, leaves, order)
    ensures Merging(heap[..], fc[..], dl[..], len, elems, leaves, order) && |order| < HEAP_SIZE - 1
            && heap.Length == HEAP_SIZE
    ensures Bytes(depth) && HEAP_SIZE == 573
  {
    Room(heap[..], fc[..], dl[..], len, elems, leaves, order);
    hide Keys, HeapFrom, Bag;
  }
}
