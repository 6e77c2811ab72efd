/**
 What the merging phase of the Huffman construction leaves behind: the order in
 which nodes were taken from the heap.  Positions 2s and 2s+1 of that order are
 the two sons of the s-th internal node, so sums over the tree become sums over
 the order.
 */
module HuffmanOrder {
  import opened Arith

  ghost predicate Picks(f: seq<int>, s: seq<int>) {
    forall i :: 0 <= i < |s| ==> 0 <= s[i] < |f|
  }

  /** The values f assigns to the nodes of s, in order. */
  function Pick(f: seq<int>, s: seq<int>): (r: seq<int>)
    requires Picks(f, s)
    ensures |r| == |s| && forall i :: 0 <= i < |s| ==> r[i] == f[s[i]]
  {
    seq(|s|, i requires 0 <= i < |s| => f[s[i]])
  }

  lemma PickWithout(f: seq<int>, s: seq<int>, i: nat)
    requires Picks(f, s) && i < |s|
    ensures Picks(f, Without(s, i))
    ensures multiset(Pick(f, s)) == multiset(Pick(f, Without(s, i))) + multiset{f[s[i]]}
  {
    assert Pick(f, Without(s, i)) == Without(Pick(f, s), i);
    WithoutMultiset(Pick(f, s), i);
  }

  lemma PicksPermuted(f: seq<int>, s: seq<int>, t: seq<int>)
    requires multiset(s) == multiset(t) && Picks(f, s)
    ensures Picks(f, t)
  {
    forall k | 0 <= k < |t| ensures 0 <= t[k] < |f| {
      assert t[k] in multiset(t);
      assert t[k] in s;
    }
  }

  lemma {:induction false} PickPermuted(f: seq<int>, s: seq<int>, t: seq<int>)
    requires multiset(s) == multiset(t) && Picks(f, s) && Picks(f, t)
    ensures multiset(Pick(f, s)) == multiset(Pick(f, t))
    decreases |s|
  {
    if s == [] {
      assert |multiset(t)| == 0;
    } else {
      var i := MatchHead(s, t);
      PickWithout(f, s, 0);
      PickWithout(f, t, i);
      PickPermuted(f, Without(s, 0), Without(t, i));
    }
  }

  lemma PickAppend(f: seq<int>, s: seq<int>, t: seq<int>)
    requires Picks(f, s) && Picks(f, t)
    ensures Picks(f, s + t) && Pick(f, s + t) == Pick(f, s) + Pick(f, t)
  {
  }

  /** The internal nodes: elems, elems + 1, ... in order of creation. */
  function Internals(elems: int, t: nat): (s: seq<int>)
    ensures |s| == t && forall i :: 0 <= i < t ==> s[i] == elems + i
  {
    seq(t, i => elems + i)
  }

  ghost predicate Distinct(s: seq<int>) {
    forall i, j :: 0 <= i < j < |s| ==> s[i] != s[j]
  }

  ghost predicate LeavesOk(leaves: seq<int>, elems: int) {
    Distinct(leaves) && forall i :: 0 <= i < |leaves| ==> 0 <= leaves[i] < elems
  }

  lemma {:induction false} DistinctCount(s: seq<int>, x: int)
    requires Distinct(s)
    ensures multiset(s)[x] <= 1
  {
    if s != [] {
      assert s == [s[0]] + s[1..];
      DistinctCount(s[1..], x);
      if x == s[0] {
        assert x !in s[1..];
      }
    }
  }

  lemma NodeCount(leaves: seq<int>, elems: int, t: nat, x: int)
    requires LeavesOk(leaves, elems)
    ensures (multiset(leaves) + multiset(Internals(elems, t)))[x] <= 1
  {
    DistinctCount(leaves, x);
    DistinctCount(Internals(elems, t), x);
    if x < elems {
      assert x !in Internals(elems, t);
    } else {
      assert x !in leaves;
    }
  }

  /** The finished order: 2t sons, then the root. */
  ghost predicate Order(order: seq<int>, leaves: seq<int>, elems: int, t: nat) {
    && LeavesOk(leaves, elems) && t >= 1 && elems >= 0
    && |order| == 2 * t + 1 && order[2 * t] == elems + t - 1
    && (forall i :: 0 <= i < 2 * t ==> 0 <= order[i] < elems + i / 2)
    && multiset(order) == multiset(leaves) + multiset(Internals(elems, t))
  }

  /** The gain at each internal node: its sons' values less its own. */
  ghost function Gains(g: seq<int>, order: seq<int>, elems: int, t: nat): (r: seq<int>)
    requires 2 * t <= |order| && 0 <= elems && elems + t <= |g|
    requires forall i :: 0 <= i < 2 * t ==> 0 <= order[i] < |g|
    ensures |r| == t
  {
    seq(t, s requires 0 <= s < t => g[order[2 * s]] + g[order[2 * s + 1]] - g[elems + s])
  }

  lemma {:induction false} PairSums(g: seq<int>, order: seq<int>, elems: int, t: nat)
    requires 2 * t <= |order| && 0 <= elems && elems + t <= |g|
    requires forall i :: 0 <= i < 2 * t ==> 0 <= order[i] < |g|
    ensures Picks(g, order[..2 * t]) && Picks(g, Internals(elems, t))
    ensures Sum(Pick(g, order[..2 * t])) == Sum(Pick(g, Internals(elems, t))) + Sum(Gains(g, order, elems, t))
  {
    if t > 0 {
      PairSums(g, order, elems, t - 1);
      var u := t - 1;
      var a, b := g[order[2 * u]], g[order[2 * u + 1]];
      assert Pick(g, order[..2 * t]) == (Pick(g, order[..2 * u]) + [a]) + [b];
      SumSnoc(Pick(g, order[..2 * u]), a);
      SumSnoc(Pick(g, order[..2 * u]) + [a], b);
      assert Pick(g, Internals(elems, t)) == Pick(g, Internals(elems, u)) + [g[elems + u]];
      SumSnoc(Pick(g, Internals(elems, u)), g[elems + u]);
      assert Gains(g, order, elems, t) == Gains(g, order, elems, u) + [a + b - g[elems + u]];
      SumSnoc(Gains(g, order, elems, u), a + b - g[elems + u]);
    }
  }

  /** A sum over the leaves is the root's value plus the gains at the internal nodes. */
  lemma LeafSum(g: seq<int>, order: seq<int>, leaves: seq<int>, elems: int, t: nat)
    requires Order(order, leaves, elems, t) && elems + t <= |g|
    ensures Picks(g, leaves)
    ensures Sum(Pick(g, leaves)) == g[elems + t - 1] + Sum(Gains(g, order, elems, t))
  {
    hide Sum, Gains;
    var inner := Internals(elems, t);
    PairSums(g, order, elems, t);
    assert Picks(g, leaves) && Picks(g, order);
    assert order == order[..2 * t] + [order[2 * t]];
    assert Pick(g, order) == Pick(g, order[..2 * t]) + [g[elems + t - 1]];
    SumSnoc(Pick(g, order[..2 * t]), g[elems + t - 1]);
    assert multiset(leaves + inner) == multiset(order);
    PickPermuted(g, order, leaves + inner);
    SumPermuted(Pick(g, order), Pick(g, leaves + inner));
    PickAppend(g, leaves, inner);
    SumAppend(Pick(g, leaves), Pick(g, inner));
  }

  // ----- depths

  /** Distance from the root, following fathers; father numbers only grow. */
  ghost function Depth(dad: seq<int>, root: int, n: int): (d: nat)
    requires 0 <= root < |dad| && 0 <= n <= root
    decreases root - n
  {
    if n < dad[n] <= root then 1 + Depth(dad, root, dad[n]) else 0
  }
}
