/**
 Depths in the merged tree: their cost is the sum of the internal weights, and
 cut off at a limit they overfill the code space by exactly one unit for every
 internal node at the limit or below.
 */
module HuffmanDepths {
  import opened Arith
  import opened HuffmanOrder

  /** Sons point at their fathers; every node of the order but the root is a son. */
  ghost predicate Fathers(dad: seq<int>, order: seq<int>, elems: int, t: nat) {
    && |order| == 2 * t + 1 && 0 <= elems && elems + t <= |dad| && t >= 1
    && order[2 * t] == elems + t - 1
    && forall i :: 0 <= i < 2 * t ==> 0 <= order[i] < elems + i / 2 && dad[order[i]] == elems + i / 2
  }

  /** Distance from the root of the node at position i of the order. */
  ghost function DepthOf(dad: seq<int>, elems: int, t: nat, n: int): (d: nat)
    requires 0 <= n < elems + t <= |dad|
  {
    Depth(dad, elems + t - 1, n)
  }

  lemma SonDepth(dad: seq<int>, order: seq<int>, elems: int, t: nat, i: nat)
    requires Fathers(dad, order, elems, t) && i < 2 * t
    ensures DepthOf(dad, elems, t, order[i]) == DepthOf(dad, elems, t, elems + i / 2) + 1
  {
  }

  lemma RootDepth(dad: seq<int>, elems: int, t: nat)
    requires 1 <= elems + t <= |dad|
    ensures DepthOf(dad, elems, t, elems + t - 1) == 0
  {
  }

  // ----- cost

  /** Weight times depth, node by node. */
  ghost function Loads(fc: seq<int>, dad: seq<int>, elems: int, t: nat): (g: seq<int>)
    requires 0 <= elems && elems + t <= |dad| && elems + t <= |fc|
    ensures |g| == elems + t
  {
    seq(elems + t, n requires 0 <= n < elems + t => fc[n] * DepthOf(dad, elems, t, n))
  }

  lemma LoadGain(a: int, b: int, d: int)
    ensures a * (d + 1) + b * (d + 1) - (a + b) * d == a + b
  {
  }

  /** The cost of the leaf depths is the total weight of the internal nodes. */
  lemma LeafCost(fc: seq<int>, dad: seq<int>, order: seq<int>, leaves: seq<int>, elems: int, t: nat)
    requires Order(order, leaves, elems, t) && Fathers(dad, order, elems, t) && elems + t <= |fc|
    requires forall s :: 0 <= s < t ==> fc[elems + s] == fc[order[2 * s]] + fc[order[2 * s + 1]]
    ensures Picks(Loads(fc, dad, elems, t), leaves) && Picks(fc, Internals(elems, t))
    ensures Sum(Pick(Loads(fc, dad, elems, t), leaves)) == Sum(Pick(fc, Internals(elems, t)))
  {
    hide Sum, DepthOf, Loads, Gains, Pick, Internals;
    LeafSum(Loads(fc, dad, elems, t), order, leaves, elems, t);
    RootLoad(fc, dad, elems, t);
    GainsAre(fc, dad, order, leaves, elems, t);
  }

  /** The root bears no load, being at depth zero. */
  lemma RootLoad(fc: seq<int>, dad: seq<int>, elems: int, t: nat)
    requires 0 <= elems && 1 <= elems + t <= |dad| && elems + t <= |fc|
    ensures Loads(fc, dad, elems, t)[elems + t - 1] == 0
  {
    RootDepth(dad, elems, t);
    hide DepthOf;
    assert fc[elems + t - 1] * 0 == 0;
  }

  /** What each father gains over its sons is its own weight. */
  lemma GainsAre(fc: seq<int>, dad: seq<int>, order: seq<int>, leaves: seq<int>, elems: int, t: nat)
    requires Order(order, leaves, elems, t) && Fathers(dad, order, elems, t) && elems + t <= |fc|
    requires forall s :: 0 <= s < t ==> fc[elems + s] == fc[order[2 * s]] + fc[order[2 * s + 1]]
    ensures Gains(Loads(fc, dad, elems, t), order, elems, t) == Pick(fc, Internals(elems, t))
  {
    hide DepthOf, Loads, Pick, Internals;
    var g, inner := Loads(fc, dad, elems, t), Pick(fc, Internals(elems, t));
    forall s | 0 <= s < t ensures Gains(g, order, elems, t)[s] == inner[s] {
      LoadAt(fc, dad, order, elems, t, s);
    }
  }

  lemma LoadAt(fc: seq<int>, dad: seq<int>, order: seq<int>, elems: int, t: nat, s: nat)
    requires Fathers(dad, order, elems, t) && elems + t <= |fc| && s < t
    requires fc[elems + s] == fc[order[2 * s]] + fc[order[2 * s + 1]]
    ensures var g := Loads(fc, dad, elems, t);
            g[order[2 * s]] + g[order[2 * s + 1]] - g[elems + s] == fc[elems + s]
  {
    SonDepth(dad, order, elems, t, 2 * s);
    SonDepth(dad, order, elems, t, 2 * s + 1);
    var d := DepthOf(dad, elems, t, elems + s);
    var a, b := fc[order[2 * s]], fc[order[2 * s + 1]];
    var g := Loads(fc, dad, elems, t);
    hide DepthOf;
    assert g[order[2 * s]] == a * (d + 1) && g[order[2 * s + 1]] == b * (d + 1) && g[elems + s] == (a + b) * d;
    hide Loads;
    LoadGain(a, b, d);
  }

  // ----- code space

  /** The code space a node takes when depths are cut off at top. */
  ghost function Units(dad: seq<int>, elems: int, t: nat, top: nat): (g: seq<int>)
    requires 0 <= elems && elems + t <= |dad|
    ensures |g| == elems + t
  {
    seq(elems + t, n requires 0 <= n < elems + t => Pow2(top - Min(top, DepthOf(dad, elems, t, n))))
  }

  /** One for each internal node at depth top or below. */
  ghost function Deep(dad: seq<int>, elems: int, t: nat, top: nat): (g: seq<int>)
    requires 0 <= elems && elems + t <= |dad|
    ensures |g| == t
  {
    seq(t, s requires 0 <= s < t => if DepthOf(dad, elems, t, elems + s) >= top then 1 else 0)
  }

  lemma UnitAt(dad: seq<int>, order: seq<int>, elems: int, t: nat, top: nat, s: nat)
    requires Fathers(dad, order, elems, t) && s < t
    ensures var g := Units(dad, elems, t, top);
            g[order[2 * s]] + g[order[2 * s + 1]] - g[elems + s] == Deep(dad, elems, t, top)[s]
  {
    SonDepth(dad, order, elems, t, 2 * s);
    SonDepth(dad, order, elems, t, 2 * s + 1);
  }

  /** Leaves cut off at top overfill the code space by one unit per deep internal node. */
  lemma LeafSpace(dad: seq<int>, order: seq<int>, leaves: seq<int>, elems: int, t: nat, top: nat)
    requires Order(order, leaves, elems, t) && Fathers(dad, order, elems, t)
    ensures Picks(Units(dad, elems, t, top), leaves)
    ensures Sum(Pick(Units(dad, elems, t, top), leaves)) == Pow2(top) + Sum(Deep(dad, elems, t, top))
  {
    UnitGains(dad, order, elems, t, top);
    RootUnit(dad, elems, t, top);
    hide Units, Fathers, Order, Pow2;
    LeafSum(Units(dad, elems, t, top), order, leaves, elems, t);
  }

  lemma UnitGains(dad: seq<int>, order: seq<int>, elems: int, t: nat, top: nat)
    requires Fathers(dad, order, elems, t)
    ensures forall i :: 0 <= i < 2 * t ==> 0 <= order[i] < elems + t
    ensures Gains(Units(dad, elems, t, top), order, elems, t) == Deep(dad, elems, t, top)
  {
    forall s | 0 <= s < t
      ensures Gains(Units(dad, elems, t, top), order, elems, t)[s] == Deep(dad, elems, t, top)[s]
    {
      UnitAt(dad, order, elems, t, top, s);
    }
  }

  lemma RootUnit(dad: seq<int>, elems: int, t: nat, top: nat)
    requires 0 <= elems && t >= 1 && elems + t <= |dad|
    ensures Units(dad, elems, t, top)[elems + t - 1] == Pow2(top)
  {
    RootDepth(dad, elems, t);
  }

  /** How many of the nodes at positions i .. 2t - 1 lie deeper than top. */
  ghost function Overflow(dad: seq<int>, order: seq<int>, elems: int, t: nat, top: nat, i: nat): (n: nat)
    requires Fathers(dad, order, elems, t) && i <= 2 * t
    decreases 2 * t - i
  {
    if i == 2 * t then 0
    else Overflow(dad, order, elems, t, top, i + 1) + (if DepthOf(dad, elems, t, order[i]) > top then 1 else 0)
  }

  /** Both sons of a deep node overflow, and no other nodes do. */
  lemma {:induction false} OverflowIsTwice(dad: seq<int>, order: seq<int>, elems: int, t: nat, top: nat, s: nat)
    requires Fathers(dad, order, elems, t) && s <= t
    ensures Overflow(dad, order, elems, t, top, 2 * s) == 2 * Sum(Deep(dad, elems, t, top)[s..])
    decreases t - s
  {
    if s < t {
      OverflowIsTwice(dad, order, elems, t, top, s + 1);
      SonDepth(dad, order, elems, t, 2 * s);
      SonDepth(dad, order, elems, t, 2 * s + 1);
      var d := Deep(dad, elems, t, top);
      assert d[s..] == [d[s]] + d[s + 1..];
      assert Overflow(dad, order, elems, t, top, 2 * s)
          == Overflow(dad, order, elems, t, top, 2 * s + 1)
          + (if DepthOf(dad, elems, t, order[2 * s]) > top then 1 else 0);
    }
  }

  /** No overflow means that no depth exceeds top. */
  lemma {:induction false} NoOverflow(dad: seq<int>, order: seq<int>, elems: int, t: nat, top: nat, i: nat, j: nat)
    requires Fathers(dad, order, elems, t) && i <= j < 2 * t
    requires Overflow(dad, order, elems, t, top, i) == 0
    ensures DepthOf(dad, elems, t, order[j]) <= top
    decreases 2 * t - i
  {
    if i < j {
      NoOverflow(dad, order, elems, t, top, i + 1, j);
    }
  }

  /** Code space at length m of the nodes no deeper than m; deeper nodes take none. */
  ghost function Shallow(dad: seq<int>, elems: int, t: nat, m: nat): (g: seq<int>)
    requires 0 <= elems && elems + t <= |dad|
    ensures |g| == elems + t
  {
    seq(elems + t, n requires 0 <= n < elems + t =>
      if DepthOf(dad, elems, t, n) <= m then Pow2(m - DepthOf(dad, elems, t, n)) else 0)
  }

  lemma ShallowGain(dad: seq<int>, order: seq<int>, elems: int, t: nat, m: nat, s: nat)
    requires Fathers(dad, order, elems, t) && s < t
    ensures var g := Shallow(dad, elems, t, m);
            g[order[2 * s]] + g[order[2 * s + 1]] - g[elems + s] <= 0
  {
    SonDepth(dad, order, elems, t, 2 * s);
    SonDepth(dad, order, elems, t, 2 * s + 1);
  }

  lemma {:induction false} SumNonPositive(s: seq<int>)
    requires forall i :: 0 <= i < |s| ==> s[i] <= 0
    ensures Sum(s) <= 0
  {
    if s != [] {
      SumNonPositive(s[1..]);
    }
  }

  lemma ShallowGains(dad: seq<int>, order: seq<int>, elems: int, t: nat, m: nat)
    requires Fathers(dad, order, elems, t)
    ensures forall i :: 0 <= i < 2 * t ==> 0 <= order[i] < elems + t
    ensures forall s :: 0 <= s < t ==> Gains(Shallow(dad, elems, t, m), order, elems, t)[s] <= 0
  {
    forall s | 0 <= s < t
      ensures Gains(Shallow(dad, elems, t, m), order, elems, t)[s] <= 0
    {
      ShallowGain(dad, order, elems, t, m, s);
    }
  }

  lemma RootShallow(dad: seq<int>, elems: int, t: nat, m: nat)
    requires 0 <= elems && t >= 1 && elems + t <= |dad|
    ensures Shallow(dad, elems, t, m)[elems + t - 1] == Pow2(m)
  {
    RootDepth(dad, elems, t);
  }

  /** Leaves no deeper than m never overfill the code space of length m. */
  lemma ShallowSpace(dad: seq<int>, order: seq<int>, leaves: seq<int>, elems: int, t: nat, m: nat)
    requires Order(order, leaves, elems, t) && Fathers(dad, order, elems, t)
    ensures Picks(Shallow(dad, elems, t, m), leaves)
    ensures Sum(Pick(Shallow(dad, elems, t, m), leaves)) <= Pow2(m)
  {
    ShallowGains(dad, order, elems, t, m);
    RootShallow(dad, elems, t, m);
    hide Shallow, Fathers, Order, Pow2;
    SumNonPositive(Gains(Shallow(dad, elems, t, m), order, elems, t));
    LeafSum(Shallow(dad, elems, t, m), order, leaves, elems, t);
  }
}
