/**
 The dictionary of `deflate`: head[] names the latest string of each key, prev[]
 links it to earlier ones.  prev[] has one slot for each of the last wsize
 positions, so links are followed only within that distance.
 */
module HashChains {
  import opened Arith
  import opened InflateSpec
  import opened RunningHash

  /** The slot of a position in prev[]: the position modulo the window size. */
  function Slot(p: int, wsize: nat): (i: int)
    requires wsize > 0 && p >= 0
    ensures 0 <= i < wsize
  {
    p % wsize
  }

  lemma SlotsDiffer(a: int, b: int, wsize: nat)
    requires wsize > 0 && 0 <= a < b < a + wsize
    ensures Slot(a, wsize) != Slot(b, wsize)
  {
    var q := a / wsize;
    DivMod(a, wsize);
    var r := a % wsize + (b - a);
    if r < wsize {
      DivModUnique(b, wsize, q, r);
    } else {
      assert (q + 1) * wsize == q * wsize + wsize;
      DivModUnique(b, wsize, q + 1, r - wsize);
    }
  }

  lemma SlotSlides(p: int, wsize: nat)
    requires wsize > 0 && p >= wsize
    ensures Slot(p - wsize, wsize) == Slot(p, wsize)
  {
    DivMod(p, wsize);
    var q := p / wsize;
    assert (q - 1) * wsize == q * wsize - wsize;
    DivModUnique(p - wsize, wsize, q - 1, p % wsize);
  }

  /** The key of the string at p. */
  function KeyAt(w: seq<Byte>, p: int, shift: nat, bits: nat): int
    requires 0 <= p && p + 2 < |w|
  {
    Hash3(w[p], w[p + 1], w[p + 2], shift, bits)
  }

  /** The strings that the links lead to from cur on, as long as they lie above the limit, n at most. */
  ghost predicate Visits(prev: seq<int>, wsize: nat, cur: int, limit: int, n: nat, c: int)
    requires |prev| == wsize > 0
    decreases n
  {
    && cur >= 0 && n > 0
    && (c == cur
        || (prev[Slot(cur, wsize)] > limit && Visits(prev, wsize, prev[Slot(cur, wsize)], limit, n - 1, c)))
  }

  lemma VisitsNext(prev: seq<int>, wsize: nat, cur: int, limit: int, n: nat)
    requires |prev| == wsize > 0 && cur >= 0 && n > 0
    ensures
      var q := prev[Slot(cur, wsize)];
      forall c :: Visits(prev, wsize, cur, limit, n, c) ==>
                    c == cur || (q > limit && n > 1 && Visits(prev, wsize, q, limit, n - 1, c))
  {
    hide Slot;
  }

  /** The fixed sizes of a dictionary. */
  datatype Sizes = Sizes(wsize: nat, shift: nat, bits: nat)

  ghost predicate Fitting(z: Sizes, w: seq<Byte>, head: seq<int>, prev: seq<int>) {
    && z.wsize >= 512 && 8 <= z.bits <= 3 * z.shift
    && |w| == 2 * z.wsize && |prev| == z.wsize && |head| == Pow2(z.bits)
  }

  /** q is the end of a chain, or a string in the dictionary with the given key. */
  ghost predicate Names(z: Sizes, w: seq<Byte>, end: int, ins: set<int>, q: int, key: int) {
    q == 0 || (q in ins && 0 <= q && q + 2 < end <= |w| && KeyAt(w, q, z.shift, z.bits) == key)
  }

  /** What prev[] says about the string at p. */
  ghost predicate LinkAt(z: Sizes, w: seq<Byte>, prev: seq<int>, end: int, ins: set<int>, p: int)
    requires |prev| == z.wsize > 0
  {
    && 0 <= p && p + 2 < end <= |w|
    && var q := prev[Slot(p, z.wsize)];
       Names(z, w, end, ins, q, KeyAt(w, p, z.shift, z.bits)) && (q == 0 || q < p)
  }

  /**
   The dictionary holds the strings ins, all before frontier f and within the data, which ends at
   `end`.  Links are good for the strings whose slots no later string has taken.
   */
  ghost predicate Chained(z: Sizes, w: seq<Byte>, head: seq<int>, prev: seq<int>, end: int, ins: set<int>, f: int) {
    && Fitting(z, w, head, prev) && 0 <= end <= |w| && f >= 0
    && (forall p :: p in ins ==> 0 <= p < f && p + 2 < end)
    && (forall h :: 0 <= h < |head| ==>
        0 <= head[h] && (head[h] == 0 || head[h] < f) && Names(z, w, end, ins, head[h], h))
    && (forall i :: 0 <= i < |prev| ==> 0 <= prev[i] && (prev[i] == 0 || prev[i] < f))
    && (forall p :: p in ins && p + z.wsize >= f ==> LinkAt(z, w, prev, end, ins, p))
  }

  /** The frontier may move on without insertions. */
  lemma ChainedOn(z: Sizes, w: seq<Byte>, head: seq<int>, prev: seq<int>, end: int, ins: set<int>, f: int, f': int)
    requires Chained(z, w, head, prev, end, ins, f) && f <= f'
    ensures Chained(z, w, head, prev, end, ins, f')
  {
    hide Names, LinkAt;
  }

  lemma NamesMore(z: Sizes, w: seq<Byte>, w': seq<Byte>, end: int, end': int, ins: set<int>, q: int, key: int)
    requires Names(z, w, end, ins, q, key) && |w'| == |w| && 0 <= end <= end' <= |w| && w'[..end] == w[..end]
    ensures Names(z, w', end', ins, q, key)
  {
    if q != 0 {
      KeyMore(z, w, w', end, q);
    }
  }

  lemma KeyMore(z: Sizes, w: seq<Byte>, w': seq<Byte>, end: int, p: int)
    requires |w'| == |w| && 0 <= end <= |w| && w'[..end] == w[..end] && 0 <= p && p + 2 < end
    ensures KeyAt(w', p, z.shift, z.bits) == KeyAt(w, p, z.shift, z.bits)
  {
    assert w'[..end][p] == w[..end][p] && w'[..end][p + 1] == w[..end][p + 1] && w'[..end][p + 2] == w[..end][p + 2];
  }

  lemma LinkMore(z: Sizes, w: seq<Byte>, w': seq<Byte>, prev: seq<int>, end: int, end': int, ins: set<int>, p: int)
    requires |prev| == z.wsize > 0 && LinkAt(z, w, prev, end, ins, p) && |w'| == |w| && 0 <= end <= end' <= |w|
             && w'[..end] == w[..end]
    ensures LinkAt(z, w', prev, end', ins, p)
  {
    KeyMore(z, w, w', end, p);
    NamesMore(z, w, w', end, end', ins, prev[Slot(p, z.wsize)], KeyAt(w, p, z.shift, z.bits));
  }

  /** More data after the end changes nothing. */
  lemma ChainedMore(z: Sizes, w: seq<Byte>, w': seq<Byte>, head: seq<int>, prev: seq<int>, end: int, end': int,
                    ins: set<int>, f: int)
    requires Chained(z, w, head, prev, end, ins, f) && |w'| == |w| && end <= end' <= |w| && w'[..end] == w[..end]
    ensures Chained(z, w', head, prev, end', ins, f)
  {
    forall h | 0 <= h < |head| ensures Names(z, w', end', ins, head[h], h) {
      NamesMore(z, w, w', end, end', ins, head[h], h);
    }
    forall p | p in ins && p + z.wsize >= f ensures LinkAt(z, w', prev, end', ins, p) {
      LinkMore(z, w, w', prev, end, end', ins, p);
    }
    hide Names, LinkAt;
  }

  /** The strings lie no lower than some place. */
  ghost predicate Since(ins: set<int>, least: int) {
    forall q :: q in ins ==> least <= q
  }

  lemma SinceNone(least: int)
    ensures Since({}, least)
  {
  }

  lemma SinceMore(ins: set<int>, least: int, p: int)
    requires Since(ins, least) && least <= p
    ensures Since(ins + {p}, least)
  {
  }

  lemma SinceSlides(ins: set<int>, least: int, wsize: nat, f: int)
    requires Since(ins, least)
    ensures Since(Slid(ins, wsize, f), least - wsize)
  {
  }

  /** A dictionary with no heads left holds no strings. */
  lemma Cleared(z: Sizes, w: seq<Byte>, head: seq<int>, head': seq<int>, prev: seq<int>, end: int, ins: set<int>,
                f: int)
    requires Chained(z, w, head, prev, end, ins, f) && |head'| == |head|
             && forall k :: 0 <= k < |head'| ==> head'[k] == 0
    ensures Chained(z, w, head', prev, end, {}, f)
  {
    hide LinkAt, KeyAt;
  }

  /** INSERT_STRING: the string at p heads its chain. */
  lemma Inserted(z: Sizes, w: seq<Byte>, head: seq<int>, prev: seq<int>, end: int, ins: set<int>, f: int, p: int,
                 key: int)
    requires Chained(z, w, head, prev, end, ins, f) && f <= p && p + 2 < end && key == KeyAt(w, p, z.shift, z.bits)
    ensures 0 <= key < |head| && 0 <= Slot(p, z.wsize) < |prev|
    ensures Chained(z, w, head[key := p], prev[Slot(p, z.wsize) := head[key]], end, ins + {p}, p + 1)
    ensures Names(z, w, end, ins, head[key], key) && 0 <= head[key] && (head[key] == 0 || head[key] < p)
  {
    var head', prev', ins' := head[key := p], prev[Slot(p, z.wsize) := head[key]], ins + {p};
    forall h | 0 <= h < |head| ensures Names(z, w, end, ins', head'[h], h) {
      assert Names(z, w, end, ins, head[h], h);
    }
    forall r | r in ins' && r + z.wsize >= p + 1 ensures LinkAt(z, w, prev', end, ins', r) {
      if r != p {
        assert LinkAt(z, w, prev, end, ins, r);
        SlotsDiffer(r, p, z.wsize);
      } else {
        assert Names(z, w, end, ins, head[key], key);
      }
    }
    hide LinkAt, KeyAt, Slot;
  }

  /** The string at p among the data, with so many bytes ahead, and the chain of strings to compare it with. */
  datatype Search = Search(w: seq<Byte>, prev: seq<int>, p: nat, ahead: nat, cur: int, before: nat)

  /** The string searched for is entered before the string that was the head of its chain. */
  ghost predicate Entered(z: Sizes, s: Search, head: seq<int>, prev: seq<int>) {
    && s.p + 2 < |s.w| && |prev| == z.wsize > 0
    && var key := KeyAt(s.w, s.p, z.shift, z.bits);
       0 <= key < |head| && s.cur == head[key] && s.prev == prev[Slot(s.p, z.wsize) := s.cur]
  }

  /** It is the head of the chain now. */
  ghost predicate Heads(z: Sizes, s: Search, head: seq<int>, head': seq<int>) {
    && s.p + 2 < |s.w|
    && var key := KeyAt(s.w, s.p, z.shift, z.bits);
       0 <= key < |head| && head' == head[key := s.p]
  }

  lemma MakeEntered(z: Sizes, s: Search, head: seq<int>, prev: seq<int>, head': seq<int>, key: int)
    requires s.p + 2 < |s.w| && |prev| == z.wsize > 0 && key == KeyAt(s.w, s.p, z.shift, z.bits) && 0 <= key < |head|
    requires s.cur == head[key] && head' == head[key := s.p] && s.prev == prev[Slot(s.p, z.wsize) := s.cur]
    ensures Entered(z, s, head, prev) && Heads(z, s, head, head')
  {
    hide KeyAt, Slot;
  }

  /** The positions that stay when the upper half of the window moves down. */
  ghost function Slid(ins: set<int>, wsize: nat, f: int): set<int> {
    set p | 0 <= p < f - wsize && Stays(ins, wsize, p)
  }

  ghost predicate Stays(ins: set<int>, wsize: nat, p: int) {
    p + wsize in ins
  }

  function Down(q: int, wsize: nat): int {
    if q >= wsize then q - wsize else 0
  }

  /** Every entry of a table moved down. */
  ghost predicate Lowered(t: seq<int>, u: seq<int>, wsize: nat) {
    |u| == |t| && forall i :: 0 <= i < |t| ==> u[i] == Down(t[i], wsize)
  }

  /** The upper half of the window copied to the lower. */
  ghost predicate MovedDown(w: seq<Byte>, w': seq<Byte>, wsize: nat) {
    |w'| == |w| == 2 * wsize && forall i :: 0 <= i < wsize ==> w'[i] == w[i + wsize]
  }

  lemma KeySlides(z: Sizes, w: seq<Byte>, w': seq<Byte>, p: int)
    requires MovedDown(w, w', z.wsize) && z.wsize <= p && p + 2 < |w|
    ensures KeyAt(w', p - z.wsize, z.shift, z.bits) == KeyAt(w, p, z.shift, z.bits)
  {
    hide Hash3;
  }

  lemma NamesSlide(z: Sizes, w: seq<Byte>, w': seq<Byte>, end: int, ins: set<int>, f: int, q: int, key: int)
    requires Names(z, w, end, ins, q, key) && q < f && MovedDown(w, w', z.wsize) && z.wsize <= end
    ensures Names(z, w', end - z.wsize, Slid(ins, z.wsize, f), Down(q, z.wsize), key)
  {
    if q >= z.wsize && q != 0 {
      KeySlides(z, w, w', q);
      assert Stays(ins, z.wsize, q - z.wsize);
    }
  }

  lemma LinkSlides(z: Sizes, w: seq<Byte>, w': seq<Byte>, prev: seq<int>, prev': seq<int>, end: int, ins: set<int>,
                   f: int, p: int)
    requires |prev| == z.wsize > 0 && LinkAt(z, w, prev, end, ins, p) && z.wsize <= p < f && MovedDown(w, w', z.wsize)
    requires Lowered(prev, prev', z.wsize) && z.wsize <= end
    ensures LinkAt(z, w', prev', end - z.wsize, Slid(ins, z.wsize, f), p - z.wsize)
  {
    SlotSlides(p, z.wsize);
    KeySlides(z, w, w', p);
    NamesSlide(z, w, w', end, ins, f, prev[Slot(p, z.wsize)], KeyAt(w, p, z.shift, z.bits));
    hide KeyAt, Slot;
  }

  /**
   Sliding preserves the index: what survives names the same bytes, wsize lower; only strings
   that leave the window, or come to stand at position zero, are dropped.
   */
  lemma ChainedSlides(z: Sizes, w: seq<Byte>, w': seq<Byte>, head: seq<int>, head': seq<int>, prev: seq<int>,
                      prev': seq<int>,
                      end: int, ins: set<int>, f: int)
    requires Chained(z, w, head, prev, end, ins, f) && z.wsize <= f <= end
    requires MovedDown(w, w', z.wsize) && Lowered(head, head', z.wsize) && Lowered(prev, prev', z.wsize)
    ensures Chained(z, w', head', prev', end - z.wsize, Slid(ins, z.wsize, f), f - z.wsize)
  {
    var ins' := Slid(ins, z.wsize, f);
    forall h | 0 <= h < |head| ensures Names(z, w', end - z.wsize, ins', head'[h], h) {
      NamesSlide(z, w, w', end, ins, f, head[h], h);
    }
    forall p | p in ins' && p + z.wsize >= f - z.wsize ensures LinkAt(z, w', prev', end - z.wsize, ins', p) {
      assert Stays(ins, z.wsize, p);
      assert LinkAt(z, w, prev, end, ins, p + z.wsize);
      LinkSlides(z, w, w', prev, prev', end, ins, f, p + z.wsize);
    }
    hide Names, LinkAt;
  }
}
