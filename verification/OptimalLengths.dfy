/**
 Code lengths as an optimisation problem.  An item pairs a weight with a code
 length; an assignment is feasible when its Kraft sum does not exceed one.
 The results are the Kraft inequality for prefix-free codewords and the step
 that makes the greedy algorithm optimal: the two smallest weights may be merged.
 */
module OptimalLengths {
  import opened Arith

  datatype Item = Item(weight: nat, len: nat)

  function Weights(a: seq<Item>): (w: seq<int>)
    ensures |w| == |a|
    ensures forall i :: 0 <= i < |a| ==> w[i] == a[i].weight
  {
    seq(|a|, i requires 0 <= i < |a| => a[i].weight)
  }

  /** The total number of bits: each item contributes weight times length. */
  function Cost(a: seq<Item>): (c: nat) {
    if a == [] then 0 else a[0].weight * a[0].len + Cost(a[1..])
  }

  ghost predicate Within(a: seq<Item>, top: nat) {
    forall i :: 0 <= i < |a| ==> a[i].len <= top
  }

  /** The Kraft sum scaled by 2^top. */
  ghost function Kraft(a: seq<Item>, top: nat): (k: nat)
    requires Within(a, top)
  {
    if a == [] then 0 else Pow2(top - a[0].len) + Kraft(a[1..], top)
  }

  ghost predicate Feasible(a: seq<Item>) {
    exists top: nat :: Within(a, top) && Kraft(a, top) <= Pow2(top)
  }

  /** No feasible assignment of lengths to these weights costs less than c. */
  ghost predicate LowerBound(ws: multiset<int>, c: int) {
    forall a: seq<Item> :: multiset(Weights(a)) == ws && Feasible(a) ==> c <= Cost(a)
  }

  lemma {:induction false} CostAppend(a: seq<Item>, b: seq<Item>)
    ensures Cost(a + b) == Cost(a) + Cost(b)
  {
    if a == [] {
      assert a + b == b;
    } else {
      CostAppend(a[1..], b);
      assert (a + b)[1..] == a[1..] + b;
    }
  }

  lemma {:induction false} KraftAppend(a: seq<Item>, b: seq<Item>, top: nat)
    requires Within(a, top) && Within(b, top)
    ensures Within(a + b, top)
    ensures Kraft(a + b, top) == Kraft(a, top) + Kraft(b, top)
  {
    if a == [] {
      assert a + b == b;
    } else {
      KraftAppend(a[1..], b, top);
      assert (a + b)[1..] == a[1..] + b;
    }
  }

  lemma CostWithout(a: seq<Item>, i: nat)
    requires i < |a|
    ensures Cost(a) == Cost(Without(a, i)) + a[i].weight * a[i].len
  {
    hide *;
    var b, c := a[..i], a[i + 1..];
    assert a == b + ([a[i]] + c);
    WithoutIs(a, i);
    CostCons(a[i], c);
    CostAppend(b, [a[i]] + c);
    CostAppend(b, c);
  }

  lemma CostCons(x: Item, a: seq<Item>)
    ensures Cost([x] + a) == x.weight * x.len + Cost(a)
  {
    assert ([x] + a)[1..] == a;
  }

  lemma KraftWithout(a: seq<Item>, i: nat, top: nat)
    requires i < |a| && Within(a, top)
    ensures Within(Without(a, i), top)
    ensures Kraft(a, top) == Kraft(Without(a, i), top) + Pow2(top - a[i].len)
  {
    assert a == a[..i] + ([a[i]] + a[i + 1..]);
    KraftAppend(a[..i], [a[i]] + a[i + 1..], top);
    assert ([a[i]] + a[i + 1..])[1..] == a[i + 1..];
    KraftAppend(a[..i], a[i + 1..], top);
  }

  lemma WeightsWithout(a: seq<Item>, i: nat)
    requires i < |a|
    ensures multiset(Weights(Without(a, i))) == multiset(Weights(a)) - multiset{a[i].weight}
  {
    assert Weights(Without(a, i)) == Without(Weights(a), i);
    WithoutMultiset(Weights(a), i);
  }

  lemma {:induction false} KraftStep(a: seq<Item>, top: nat)
    requires Within(a, top)
    ensures Within(a, top + 1) && Kraft(a, top + 1) == 2 * Kraft(a, top)
  {
    if a != [] {
      KraftStep(a[1..], top);
    }
  }

  /** Feasibility does not depend on the scale it is measured at. */
  lemma {:induction false} FeasibleBetween(a: seq<Item>, low: nat, top: nat)
    requires Within(a, low) && low <= top
    ensures Within(a, top)
    ensures Kraft(a, top) <= Pow2(top) <==> Kraft(a, low) <= Pow2(low)
    decreases top - low
  {
    if low < top {
      KraftStep(a, low);
      FeasibleBetween(a, low + 1, top);
    }
  }

  lemma FeasibleAt(a: seq<Item>, top: nat)
    requires Feasible(a) && Within(a, top)
    ensures Kraft(a, top) <= Pow2(top)
  {
    var other: nat :| Within(a, other) && Kraft(a, other) <= Pow2(other);
    if other <= top {
      FeasibleBetween(a, other, top);
    } else {
      FeasibleBetween(a, top, other);
    }
  }

  /** Exchanging the lengths of two items changes only the cost. */
  lemma Exchange(a: seq<Item>, i: nat, j: nat, top: nat) returns (b: seq<Item>)
    requires i < |a| && j < |a| && Within(a, top)
    ensures b == a[i := Item(a[i].weight, a[j].len)][j := Item(a[j].weight, a[i].len)]
    ensures Weights(b) == Weights(a)
    ensures Within(b, top) && Kraft(b, top) == Kraft(a, top)
    ensures Cost(b) - Cost(a) == (a[i].weight - a[j].weight) * (a[j].len - a[i].len)
  {
    b := a[i := Item(a[i].weight, a[j].len)][j := Item(a[j].weight, a[i].len)];
    if i != j {
      var mid := a[i := Item(a[i].weight, a[j].len)];
      ReplaceLen(a, i, a[j].len, top);
      ReplaceLen(mid, j, a[i].len, top);
      ExchangeGain(a[i].weight, a[j].weight, a[i].len, a[j].len);
    } else {
      assert b == a;
    }
  }

  lemma ReplaceKeeps(a: seq<Item>, i: nat, l: nat, top: nat)
    requires i < |a| && Within(a, top) && l <= top
    ensures var b := a[i := Item(a[i].weight, l)];
            Weights(b) == Weights(a) && Within(b, top)
  {
  }

  /** What giving item i another length does to weights, Kraft sum and cost. */
  lemma ReplaceLen(a: seq<Item>, i: nat, l: nat, top: nat)
    requires i < |a| && Within(a, top) && l <= top
    ensures var b := a[i := Item(a[i].weight, l)];
            && Weights(b) == Weights(a) && Within(b, top)
            && Kraft(b, top) == Kraft(a, top) - Pow2(top - a[i].len) + Pow2(top - l)
            && Cost(b) == Cost(a) - a[i].weight * a[i].len + a[i].weight * l
  {
    var b := a[i := Item(a[i].weight, l)];
    assert Without(a, i) == Without(b, i);
    ReplaceKeeps(a, i, l, top);
    hide *;
    KraftWithout(a, i, top);
    KraftWithout(b, i, top);
    CostWithout(a, i);
    CostWithout(b, i);
  }

  lemma ExchangeGain(wi: int, wj: int, li: int, lj: int)
    ensures wi * lj - wi * li + wj * li - wj * lj == (wi - wj) * (lj - li)
  {
    assert (wi - wj) * (lj - li) == wi * (lj - li) - wj * (lj - li);
  }

  // ----- the same lengths dealt out in another way

  function Lengths(a: seq<Item>): (l: seq<int>)
    ensures |l| == |a| && forall i :: 0 <= i < |a| ==> l[i] == a[i].len
  {
    seq(|a|, i requires 0 <= i < |a| => a[i].len)
  }

  /** The heaviest item, and of those the one with the least length. */
  lemma Heaviest(a: seq<Item>) returns (i: nat)
    requires a != []
    ensures i < |a| && forall k :: 0 <= k < |a| ==>
      a[k].weight < a[i].weight || (a[k].weight == a[i].weight && a[i].len <= a[k].len)
  {
    i := 0;
    for n := 0 to |a|
      invariant i < |a| && forall k :: 0 <= k < n ==>
        a[k].weight < a[i].weight || (a[k].weight == a[i].weight && a[i].len <= a[k].len)
    {
      if a[n].weight > a[i].weight || (a[n].weight == a[i].weight && a[n].len < a[i].len) {
        i := n;
      }
    }
  }

  /** Heavier items have lengths no greater. */
  ghost predicate HeavierShorter(a: seq<Item>) {
    forall i, j :: 0 <= i < |a| && 0 <= j < |a| && a[i].weight > a[j].weight ==> a[i].len <= a[j].len
  }

  lemma LengthsWithout(a: seq<Item>, i: nat)
    requires i < |a|
    ensures multiset(Lengths(Without(a, i))) == multiset(Lengths(a)) - multiset{a[i].len}
    ensures Weights(Without(a, i)) == Without(Weights(a), i)
  {
    assert Lengths(Without(a, i)) == Without(Lengths(a), i);
    WithoutMultiset(Lengths(a), i);
  }

  lemma LongestOf(a: seq<Item>) returns (top: nat)
    ensures Within(a, top)
  {
    top := 0;
    for n := 0 to |a|
      invariant forall i :: 0 <= i < n ==> a[i].len <= top
    {
      if a[n].len > top {
        top := a[n].len;
      }
    }
  }

  lemma SwapLengths(a: seq<Item>, i: nat, j: nat)
    requires i < |a| && j < |a|
    ensures
      var b := a[i := Item(a[i].weight, a[j].len)][j := Item(a[j].weight, a[i].len)];
      multiset(Lengths(b)) == multiset(Lengths(a))
  {
    var b := a[i := Item(a[i].weight, a[j].len)][j := Item(a[j].weight, a[i].len)];
    var l := Lengths(a);
    assert Lengths(b) == l[i := l[j]][j := l[i]];
    SwapMultiset(l, i, j);
  }

  lemma LengthAt(a: seq<Item>, b: seq<Item>, i: nat) returns (k: nat)
    requires multiset(Lengths(a)) == multiset(Lengths(b)) && i < |a|
    ensures k < |b| && b[k].len == a[i].len
  {
    assert Lengths(a)[i] in multiset(Lengths(b));
    assert Lengths(a)[i] in Lengths(b);
    k :| 0 <= k < |b| && Lengths(b)[k] == Lengths(a)[i];
  }

  /** The exchange that gives the heaviest item the least length saves cost. */
  lemma Improve(a: seq<Item>, b: seq<Item>, i: nat) returns (c: seq<Item>)
    requires |a| == |b| && Weights(a) == Weights(b) && multiset(Lengths(a)) == multiset(Lengths(b))
    requires i < |a| && forall k :: 0 <= k < |a| ==> a[k].weight <= a[i].weight && a[i].len <= a[k].len
    ensures |c| == |a| && Weights(c) == Weights(a) && multiset(Lengths(c)) == multiset(Lengths(a))
    ensures Cost(c) <= Cost(b) && c[i] == a[i]
  {
    var k := LengthAt(a, b, i);
    var m := LengthAt(b, a, i);
    var top := LongestOf(b);
    SwapLengths(b, i, k);
    assert b[i].weight == Weights(b)[i] == a[i].weight && b[k].weight == Weights(b)[k] == a[k].weight;
    hide Weights, Lengths, Cost, Within, Kraft;
    c := Exchange(b, i, k, top);
    Saves(a[i].weight - a[k].weight, b[i].len - a[i].len);
  }

  lemma Saves(w: int, l: int)
    requires w >= 0 && l >= 0
    ensures w * -l <= 0
  {
  }

  /** When heavier items have lengths no greater, no other way to deal out the lengths costs less. */
  lemma {:induction false} NoDealIsCheaper(a: seq<Item>, b: seq<Item>)
    requires |a| == |b| && Weights(a) == Weights(b) && multiset(Lengths(a)) == multiset(Lengths(b))
    requires HeavierShorter(a)
    ensures Cost(a) <= Cost(b)
    decreases |a|
  {
    hide *;
    if a != [] {
      var i := Heaviest(a);
      WithoutHeaviest(a, i);
      var c := Improve(a, b, i);
      LengthsWithout(a, i);
      LengthsWithout(c, i);
      NoDealIsCheaper(Without(a, i), Without(c, i));
      CostWithout(a, i);
      CostWithout(c, i);
    } else {
      assert b == [];
    }
  }

  lemma WithoutHeaviest(a: seq<Item>, i: nat)
    requires HeavierShorter(a) && i < |a|
    requires forall k :: 0 <= k < |a| ==>
      a[k].weight < a[i].weight || (a[k].weight == a[i].weight && a[i].len <= a[k].len)
    ensures forall k :: 0 <= k < |a| ==> a[k].weight <= a[i].weight && a[i].len <= a[k].len
    ensures HeavierShorter(Without(a, i))
  {
    var r := Without(a, i);
    forall k | 0 <= k < |r|
      ensures r[k] == a[if k < i then k else k + 1]
    {
    }
  }

  lemma {:induction false} Longest(a: seq<Item>, skip: int) returns (i: nat)
    requires |a| > (if 0 <= skip < |a| then 1 else 0)
    ensures i < |a| && i != skip
    ensures forall k :: 0 <= k < |a| && k != skip ==> a[k].len <= a[i].len
  {
    i := if skip == 0 then 1 else 0;
    var n := 0;
    while n < |a|
      invariant n <= |a| && i < |a| && i != skip
      invariant forall k :: 0 <= k < n && k != skip ==> a[k].len <= a[i].len
    {
      if n != skip && a[n].len > a[i].len {
        i := n;
      }
      n := n + 1;
    }
  }

  lemma WeightAt(a: seq<Item>, w: nat, skip: int) returns (i: nat)
    requires w in multiset(Weights(a)) - (if 0 <= skip < |a| then multiset{a[skip].weight} else multiset{})
    ensures i < |a| && i != skip && a[i].weight == w
  {
    if 0 <= skip < |a| {
      WeightsWithout(a, skip);
      assert w in Weights(Without(a, skip));
      var k :| 0 <= k < |a| - 1 && Weights(Without(a, skip))[k] == w;
      i := if k < skip then k else k + 1;
    } else {
      assert w in Weights(a);
      i :| 0 <= i < |a| && Weights(a)[i] == w;
    }
  }

  /** Every length of a feasible assignment of several items is positive. */
  lemma LongestIsPositive(a: seq<Item>, i: nat, j: nat, top: nat)
    requires i < |a| && j < |a| && i != j && Within(a, top)
    requires Kraft(a, top) <= Pow2(top)
    ensures a[i].len > 0
  {
    KraftWithout(a, i, top);
    var b := Without(a, i);
    var k := if j < i then j else j - 1;
    KraftWithout(b, k, top);
  }

  lemma MulSigns(a: int, b: int)
    requires a <= 0 && b >= 0
    ensures a * b <= 0
  {
  }

  /** An item of greatest length takes the length of the next greatest and stays feasible. */
  lemma ShrinkLongest(a: seq<Item>, i: nat, j: nat, top: nat) returns (b: seq<Item>)
    requires i < |a| && j < |a| && i != j
    requires Within(a, top) && Kraft(a, top) <= Pow2(top)
    requires forall k :: 0 <= k < |a| && k != i ==> a[k].len <= a[j].len
    requires a[j].len <= a[i].len
    ensures b == a[i := Item(a[i].weight, a[j].len)]
    ensures Weights(b) == Weights(a) && Cost(b) <= Cost(a)
    ensures Within(b, a[j].len) && Kraft(b, a[j].len) <= Pow2(a[j].len)
  {
    b := a[i := Item(a[i].weight, a[j].len)];
    ReplaceLen(a, i, a[j].len, top);
    MulMono(a[j].len, a[i].len, a[i].weight);
    ShrinkKraft(a, b, i, j, top);
  }

  lemma ShrinkKraft(a: seq<Item>, b: seq<Item>, i: nat, j: nat, top: nat)
    requires i < |a| && j < |a| && i != j
    requires Within(a, top) && Kraft(a, top) <= Pow2(top)
    requires forall k :: 0 <= k < |a| && k != i ==> a[k].len <= a[j].len
    requires a[j].len <= a[i].len
    requires b == a[i := Item(a[i].weight, a[j].len)]
    ensures Within(b, a[j].len) && Kraft(b, a[j].len) <= Pow2(a[j].len)
  {
    var low, high := a[j].len, a[i].len;
    var rest := Without(a, i);
    assert Without(b, i) == rest;
    assert Within(a, high);
    FeasibleAt(a, high);
    KraftWithout(a, i, high);
    KraftWithout(b, i, low);
    RoomBelow(rest, low, high);
  }

  /** Room for one unit at the fine scale is room for one unit at the coarse scale. */
  lemma {:induction false} RoomBelow(rest: seq<Item>, low: nat, high: nat)
    requires Within(rest, low) && low <= high
    requires Within(rest, high) && Kraft(rest, high) + 1 <= Pow2(high)
    ensures Kraft(rest, low) + 1 <= Pow2(low)
    decreases high - low
  {
    if low < high {
      KraftStep(rest, low);
      RoomBelow(rest, low + 1, high);
    }
  }

  /** At no greater cost, the item of smallest weight can be given the greatest length. */
  lemma SmallestLongest(a: seq<Item>, x: nat, top: nat) returns (b: seq<Item>, i: nat)
    requires Within(a, top) && x in multiset(Weights(a))
    requires forall w :: w in multiset(Weights(a)) ==> x <= w
    ensures Weights(b) == Weights(a)
    ensures Within(b, top) && Kraft(b, top) == Kraft(a, top) && Cost(b) <= Cost(a)
    ensures i < |b| && b[i].weight == x
    ensures forall k :: 0 <= k < |b| ==> b[k].len <= b[i].len
  {
    assert |a| > 0 by {
      assert x in Weights(a);
    }
    assert multiset(Weights(a)) - multiset{} == multiset(Weights(a));
    i := WeightAt(a, x, -1);
    var q := Longest(a, -1);
    b := Exchange(a, i, q, top);
    assert Weights(a)[q] in multiset(Weights(a));
    MulSigns(a[i].weight - a[q].weight, a[q].len - a[i].len);
  }

  lemma OtherWeights(a: seq<Item>, i: nat)
    requires i < |a|
    ensures |multiset(Weights(a)) - multiset{a[i].weight}| == |a| - 1
  {
    assert a[i].weight == Weights(a)[i];
    assert |multiset(Weights(a))| == |a|;
  }

  lemma OtherWeight(a: seq<Item>, i: nat, q: nat)
    requires i < |a| && q < |a| && q != i
    ensures a[q].weight in multiset(Weights(a)) - multiset{a[i].weight}
  {
    WeightsWithout(a, i);
    var k := if q < i then q else q - 1;
    assert Without(a, i)[k] == a[q];
    assert Weights(Without(a, i))[k] == a[q].weight;
    assert a[q].weight in multiset(Weights(Without(a, i)));
  }

  /** The same for a second item, leaving item i as it is. */
  lemma SecondLongest(a: seq<Item>, i: nat, y: nat, top: nat) returns (b: seq<Item>, j: nat)
    requires Within(a, top) && i < |a|
    requires forall k :: 0 <= k < |a| ==> a[k].len <= a[i].len
    requires y in multiset(Weights(a)) - multiset{a[i].weight}
    requires forall w :: w in multiset(Weights(a)) - multiset{a[i].weight} ==> y <= w
    ensures Weights(b) == Weights(a)
    ensures Within(b, top) && Kraft(b, top) == Kraft(a, top) && Cost(b) <= Cost(a)
    ensures j < |b| && j != i && b[i] == a[i] && b[j].weight == y
    ensures forall k :: 0 <= k < |b| && k != i ==> b[k].len <= b[j].len
    ensures b[j].len <= b[i].len
  {
    OtherWeights(a, i);
    j := WeightAt(a, y, i);
    hide *;
    var q := Longest(a, i);
    OtherWeight(a, i, q);
    b := Exchange(a, j, q, top);
    MulSigns(a[j].weight - a[q].weight, a[q].len - a[j].len);
  }

  /**
   An assignment can be rearranged, at no greater cost, so that the two smallest
   weights x and y sit on two items of one common length.
   */
  lemma SiblingForm(a: seq<Item>, x: nat, y: nat) returns (b: seq<Item>, i: nat, j: nat, top: nat)
    requires Feasible(a)
    requires multiset{x, y} <= multiset(Weights(a))
    requires forall w :: w in multiset(Weights(a)) ==> x <= w
    requires forall w :: w in multiset(Weights(a)) - multiset{x} ==> y <= w
    ensures Weights(b) == Weights(a)
    ensures Within(b, top) && Kraft(b, top) <= Pow2(top)
    ensures Cost(b) <= Cost(a)
    ensures i < |b| && j < |b| && i != j
    ensures b[i].weight == x && b[j].weight == y && b[i].len == b[j].len
  {
    var t: nat :| Within(a, t) && Kraft(a, t) <= Pow2(t);
    assert multiset{x, y}[x] >= 1 && multiset{x, y} - multiset{x} == multiset{y};
    var b1, i1 := SmallestLongest(a, x, t);
    var b2, j2 := SecondLongest(b1, i1, y, t);
    i, j := i1, j2;
    b := ShrinkLongest(b2, i, j, t);
    top := b[j].len;
  }

  /** Two items of one length become one item, one bit shorter, of their joint weight. */
  lemma MergeSiblings(a: seq<Item>, i: nat, j: nat, x: nat, y: nat, top: nat) returns (m: seq<Item>)
    requires i < |a| && j < |a| && i != j && a[i].len == a[j].len
    requires a[i].weight == x && a[j].weight == y
    requires Within(a, top) && Kraft(a, top) <= Pow2(top)
    ensures multiset(Weights(m)) == multiset(Weights(a)) - multiset{x, y} + multiset{x + y}
    ensures Feasible(m)
    ensures Cost(m) + x + y == Cost(a)
  {
    hide *;
    LongestIsPositive(a, i, j, top);
    var b := Without(a, i);
    var k := if j < i then j else j - 1;
    OtherStays(a, i, j);
    var c := Without(b, k);
    var joint := Item(x + y, a[i].len - 1);
    m := c + [joint];
    MergeWeights(a, b, c, i, k);
    WeightsSnoc(c, joint);
    MergeKraft(a, b, c, i, k, top);
    MergeCost(a, b, c, i, k);
  }

  lemma OtherStays(a: seq<Item>, i: nat, j: nat)
    requires i < |a| && j < |a| && i != j
    ensures Without(a, i)[if j < i then j else j - 1] == a[j]
  {
  }

  lemma WeightsSnoc(c: seq<Item>, joint: Item)
    ensures multiset(Weights(c + [joint])) == multiset(Weights(c)) + multiset{joint.weight}
  {
    assert Weights(c + [joint]) == Weights(c) + [joint.weight];
  }

  lemma MergeWeights(a: seq<Item>, b: seq<Item>, c: seq<Item>, i: nat, k: nat)
    requires i < |a| && b == Without(a, i) && k < |b| && c == Without(b, k)
    ensures multiset(Weights(c)) == multiset(Weights(a)) - multiset{a[i].weight, b[k].weight}
  {
    WeightsWithout(a, i);
    WeightsWithout(b, k);
  }

  lemma MergeKraft(a: seq<Item>, b: seq<Item>, c: seq<Item>, i: nat, k: nat, top: nat)
    requires i < |a| && b == Without(a, i) && k < |b| && c == Without(b, k)
    requires a[i].len == b[k].len > 0
    requires Within(a, top) && Kraft(a, top) <= Pow2(top)
    ensures Feasible(c + [Item(a[i].weight + b[k].weight, a[i].len - 1)])
  {
    var joint := Item(a[i].weight + b[k].weight, a[i].len - 1);
    KraftWithout(a, i, top);
    KraftWithout(b, k, top);
    assert Within([joint], top);
    KraftAppend(c, [joint], top);
    assert Kraft([joint], top) == Pow2(top - joint.len) + Kraft([joint][1..], top);
  }

  lemma MergeCost(a: seq<Item>, b: seq<Item>, c: seq<Item>, i: nat, k: nat)
    requires i < |a| && b == Without(a, i) && k < |b| && c == Without(b, k)
    requires a[i].len == b[k].len > 0
    ensures Cost(c + [Item(a[i].weight + b[k].weight, a[i].len - 1)]) + a[i].weight + b[k].weight == Cost(a)
  {
    var joint := Item(a[i].weight + b[k].weight, a[i].len - 1);
    CostWithout(a, i);
    CostWithout(b, k);
    CostAppend(c, [joint]);
    assert Cost([joint]) == joint.weight * joint.len + Cost([joint][1..]);
    MergeGain(a[i].weight, b[k].weight, a[i].len);
  }

  lemma MergeGain(x: int, y: int, l: int)
    ensures x * l + y * l == (x + y) * (l - 1) + x + y
  {
  }

  /** The greedy step: merging the two smallest weights costs exactly their sum. */
  lemma GreedyStep(ws: multiset<int>, x: nat, y: nat, c: int)
    requires multiset{x, y} <= ws
    requires forall w :: w in ws ==> x <= w
    requires forall w :: w in ws - multiset{x} ==> y <= w
    requires LowerBound(ws - multiset{x, y} + multiset{x + y}, c)
    ensures LowerBound(ws, c + x + y)
  {
    forall a: seq<Item> | multiset(Weights(a)) == ws && Feasible(a)
      ensures c + x + y <= Cost(a)
    {
      GreedyStepFor(a, x, y, c);
    }
  }

  lemma GreedyStepFor(a: seq<Item>, x: nat, y: nat, c: int)
    requires Feasible(a)
    requires multiset{x, y} <= multiset(Weights(a))
    requires forall w :: w in multiset(Weights(a)) ==> x <= w
    requires forall w :: w in multiset(Weights(a)) - multiset{x} ==> y <= w
    requires LowerBound(multiset(Weights(a)) - multiset{x, y} + multiset{x + y}, c)
    ensures c + x + y <= Cost(a)
  {
    var m := MergedForm(a, x, y);
  }

  lemma MergedForm(a: seq<Item>, x: nat, y: nat) returns (m: seq<Item>)
    requires Feasible(a)
    requires multiset{x, y} <= multiset(Weights(a))
    requires forall w :: w in multiset(Weights(a)) ==> x <= w
    requires forall w :: w in multiset(Weights(a)) - multiset{x} ==> y <= w
    ensures Feasible(m) && Cost(m) + x + y <= Cost(a)
    ensures multiset(Weights(m)) == multiset(Weights(a)) - multiset{x, y} + multiset{x + y}
  {
    var b, i, j, top := SiblingForm(a, x, y);
    m := MergeSiblings(b, i, j, x, y, top);
  }

  /** One weight left: nothing costs less than no bits at all. */
  lemma SingleLowerBound(w: nat)
    ensures LowerBound(multiset{w}, 0)
  {
  }

  // ----- prefix codes

  ghost predicate PrefixFree(code: seq<seq<bool>>) {
    forall i, j :: 0 <= i < |code| && 0 <= j < |code| && i != j ==> !(code[i] <= code[j])
  }

  function CodeItems(ws: seq<nat>, code: seq<seq<bool>>): (a: seq<Item>)
    requires |ws| == |code|
    ensures |a| == |ws|
  {
    seq(|ws|, i requires 0 <= i < |ws| => Item(ws[i], |code[i]|))
  }

  function Branch(code: seq<seq<bool>>, b: bool): (t: seq<seq<bool>>)
    requires forall i :: 0 <= i < |code| ==> 0 < |code[i]|
    ensures |t| <= |code|
  {
    if code == [] then []
    else if code[0][0] == b then [code[0][1..]] + Branch(code[1..], b)
    else Branch(code[1..], b)
  }

  ghost function WordSum(code: seq<seq<bool>>, top: nat): nat
    requires forall i :: 0 <= i < |code| ==> |code[i]| <= top
  {
    if code == [] then 0 else Pow2(top - |code[0]|) + WordSum(code[1..], top)
  }

  lemma {:induction false} BranchWords(code: seq<seq<bool>>, b: bool) returns (at: seq<nat>)
    requires forall i :: 0 <= i < |code| ==> 0 < |code[i]|
    ensures |at| == |Branch(code, b)|
    ensures forall k :: 0 <= k < |at| ==> at[k] < |code| && code[at[k]] == [b] + Branch(code, b)[k]
    ensures forall k, l :: 0 <= k < l < |at| ==> at[k] < at[l]
  {
    if code == [] {
      at := [];
    } else {
      var rest := BranchWords(code[1..], b);
      var up := seq(|rest|, k requires 0 <= k < |rest| => rest[k] + 1);
      if code[0][0] == b {
        assert code[0] == [b] + code[0][1..];
        at := [0] + up;
      } else {
        at := up;
      }
    }
  }

  lemma PrefixCons(b: bool, s: seq<bool>, t: seq<bool>)
    ensures s <= t ==> [b] + s <= [b] + t
  {
  }

  lemma BranchPrefixFree(code: seq<seq<bool>>, b: bool, top: nat)
    requires PrefixFree(code)
    requires forall i :: 0 <= i < |code| ==> 0 < |code[i]| <= top
    ensures PrefixFree(Branch(code, b))
    ensures forall k :: 0 <= k < |Branch(code, b)| ==> |Branch(code, b)[k]| < top
  {
    var t := Branch(code, b);
    var at := BranchWords(code, b);
    forall i, j | 0 <= i < |t| && 0 <= j < |t| && i != j
      ensures !(t[i] <= t[j])
    {
      PrefixCons(b, t[i], t[j]);
    }
  }

  lemma {:induction false} BranchSums(code: seq<seq<bool>>, top: nat)
    requires forall i :: 0 <= i < |code| ==> 0 < |code[i]| <= top
    requires top > 0
    requires forall b, k :: 0 <= k < |Branch(code, b)| ==> |Branch(code, b)[k]| < top
    ensures WordSum(code, top) == WordSum(Branch(code, false), top - 1) + WordSum(Branch(code, true), top - 1)
  {
    if code != [] {
      var tail := code[1..];
      var head := code[0][0];
      assert Branch(code, head) == [code[0][1..]] + Branch(tail, head);
      assert Branch(code, head)[1..] == Branch(tail, head);
      assert Branch(code, !head) == Branch(tail, !head);
      forall b, k | 0 <= k < |Branch(tail, b)| ensures |Branch(tail, b)[k]| < top {
        if b == head {
          assert Branch(code, b)[k + 1] == Branch(tail, b)[k];
        } else {
          assert Branch(code, b)[k] == Branch(tail, b)[k];
        }
      }
      BranchSums(tail, top);
      assert WordSum(Branch(code, head), top - 1) == Pow2(top - |code[0]|) + WordSum(Branch(tail, head), top - 1);
    }
  }

  lemma NotAPrefix(code: seq<seq<bool>>, i: nat, j: nat)
    requires PrefixFree(code) && i < |code| && j < |code| && i != j
    ensures !(code[i] <= code[j])
  {
  }

  /** The Kraft inequality: prefix-free words leave room for one another. */
  lemma {:induction false} KraftInequality(code: seq<seq<bool>>, top: nat)
    requires PrefixFree(code)
    requires forall i :: 0 <= i < |code| ==> |code[i]| <= top
    ensures WordSum(code, top) <= Pow2(top)
    decreases top
  {
    if i :| 0 <= i < |code| && code[i] == [] {
      if |code| > 1 {
        NotAPrefix(code, i, if i == 0 then 1 else 0);
      }
      assert code[1..] == [];
    } else if code != [] {
      assert |code[0]| > 0;
      BranchPrefixFree(code, false, top);
      BranchPrefixFree(code, true, top);
      BranchSums(code, top);
      KraftInequality(Branch(code, false), top - 1);
      KraftInequality(Branch(code, true), top - 1);
    }
  }

  lemma {:induction false} ItemsKraft(ws: seq<nat>, code: seq<seq<bool>>, top: nat)
    requires |ws| == |code|
    requires forall i :: 0 <= i < |code| ==> |code[i]| <= top
    ensures Within(CodeItems(ws, code), top)
    ensures Kraft(CodeItems(ws, code), top) == WordSum(code, top)
  {
    if code != [] {
      ItemsKraft(ws[1..], code[1..], top);
      assert CodeItems(ws, code)[1..] == CodeItems(ws[1..], code[1..]);
    }
  }

  lemma {:induction false} LongestWord(code: seq<seq<bool>>) returns (top: nat)
    ensures forall i :: 0 <= i < |code| ==> |code[i]| <= top
  {
    if code == [] {
      top := 0;
    } else {
      var t := LongestWord(code[1..]);
      top := if t < |code[0]| then |code[0]| else t;
      forall i | 0 <= i < |code| ensures |code[i]| <= top {
        if i > 0 {
          assert code[i] == code[1..][i - 1];
        }
      }
    }
  }

  /** A lower bound on feasible lengths is a lower bound on every prefix-free code. */
  lemma PrefixCodesObeyBound(ws: seq<nat>, code: seq<seq<bool>>, c: int)
    requires |ws| == |code| && PrefixFree(code)
    requires LowerBound(multiset(Weights(CodeItems(ws, code))), c)
    ensures c <= Cost(CodeItems(ws, code))
  {
    var a := CodeItems(ws, code);
    var top := LongestWord(code);
    KraftInequality(code, top);
    ItemsKraft(ws, code, top);
    assert Weights(a) == ws;
  }
}
