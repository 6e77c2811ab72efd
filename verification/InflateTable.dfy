/**
 `inflate_table`: from code lengths to a decoding table.  The table decodes the
 canonical code of the lengths, and needs no more space than is reserved for it.
 */
module InflateTable {
  import opened Arith
  import opened Canonical
  import opened BitOrder
  import opened DecodeTable
  import opened TableFill
  import opened SubTables
  import opened SymbolSort

  const ENOUGH := 2048
  const MAXD := 592

  // ----- the reversed code

  /** The bits of the code after c, or zero after the last code. */
  function NextReversed(c: int, n: nat): int
    requires c >= 0
  {
    if c + 1 < Pow2(n) then Rev(c + 1, n) else 0
  }

  lemma HalfDiv(x: int, d: int)
    requires x >= 0 && d > 0
    ensures (x / 2) / d == x / (2 * d)
  {
    var y := x / 2;
    var q, r := y / d, y % d;
    DivMod(y, d);
    MulSwap(q, d);
    DivModUnique(x, 2 * d, q, 2 * r + x % 2);
  }

  lemma MulSwap(q: int, d: int)
    ensures q * (2 * d) == 2 * (q * d)
  {
  }

  lemma {:induction false} ShrIsDiv(x: int, k: nat)
    requires x >= 0
    ensures Shr(x, k) == x / Pow2(k)
  {
    if k > 0 {
      ShrIsDiv(x / 2, k - 1);
      HalfDiv(x, Pow2(k - 1));
    }
  }

  /** The low bit of the code is the high bit of its reversal. */
  lemma HighBit(huff: int, n: nat, c: int)
    requires huff >= 0 && n > 0 && Rev(huff, n) == c
    ensures huff / Pow2(n - 1) % 2 == c % 2 && Rev(huff, n - 1) == c / 2
  {
    ShrIsDiv(huff, n - 1);
  }

  /** An even code is incremented by setting the high bit of its reversal. */
  lemma EvenNext(huff: int, n: nat, c: int)
    requires huff >= 0 && n > 0 && Rev(huff, n) == c && c % 2 == 0
    ensures huff % Pow2(n - 1) + Pow2(n - 1) == NextReversed(c, n)
  {
    HighBit(huff, n, c);
    LowIsMod(huff, n - 1);
    RevFirst(c + 1, n);
    assert (c + 1) / 2 == c / 2;
    assert Pow2(n) == 2 * Pow2(n - 1);
  }

  /** An odd code passes the increment on to the shorter code. */
  lemma OddNext(n: nat, c: int)
    requires n > 0 && 0 <= c < Pow2(n) && c % 2 == 1
    ensures NextReversed(c, n) == NextReversed(c / 2, n - 1)
  {
    assert Pow2(n) == 2 * Pow2(n - 1);
    RevFirst(c + 1, n);
    assert (c + 1) / 2 == c / 2 + 1;
  }

  /** Increment the len-bit code huff backwards. */
  method BackIncrement(huff0: int, len: nat, ghost c: int) returns (huff: int)
    requires 0 < len && 0 <= c < Pow2(len) && huff0 == Rev(c, len)
    ensures huff == NextReversed(c, len)
  {
    var incr := Pow2(len - 1);
    ghost var n, d := len, c;
    RevRev(c, len);
    while incr != 0 && huff0 / incr % 2 == 1
      invariant 0 <= n <= len && incr == (if n == 0 then 0 else Pow2(n - 1))
      invariant 0 <= d < Pow2(n) && Rev(huff0, n) == d && NextReversed(c, len) == NextReversed(d, n)
      decreases n
    {
      HighBit(huff0, n, d);
      OddNext(n, d);
      d, n := d / 2, n - 1;
      incr := incr / 2;
    }
    if incr != 0 {
      HighBit(huff0, n, d);
      EvenNext(huff0, n, d);
      huff := huff0 % incr;
      huff := huff + incr;
    } else {
      huff := 0;
    }
  }

  // ----- replicating an entry

  /** fill is the q-th multiple of d. */
  ghost predicate Multiple(fill: int, q: int, d: int) {
    fill == q * d
  }

  /** The only index in a stretch of 2^n with low bits h is the one at h. */
  lemma StretchIndex(j: int, n: nat, q: int, fill: int)
    requires Multiple(fill, q, Pow2(n)) && 0 <= fill <= j < fill + Pow2(n)
    ensures Low(j, n) == j - fill
  {
    LowIsMod(j, n);
    DivModUnique(j, Pow2(n), q, j - fill);
  }

  lemma StretchBack(q: int, d: int, fill: int)
    requires d > 0 && 0 < fill && Multiple(fill, q, d)
    ensures fill - d >= 0 && Multiple(fill - d, q - 1, d)
  {
    if q <= 0 {
      MulMono(q, 0, d);
    } else {
      MulMono(1, q, d);
    }
  }

  lemma StretchStart(k: nat, n: nat)
    requires n <= k
    ensures Multiple(Pow2(k), Pow2(k - n), Pow2(n))
  {
    Pow2Add(k - n, n);
  }

  /** Indices from fill on with low bits h have been set. */
  ghost predicate SetFrom(t: seq<Entry>, u: seq<Entry>, i: nat, size: nat, n: nat, fill: int, h: int, e: Entry) {
    && |u| == |t| && i + size <= |t|
    && (forall m :: i <= m < i + size ==> u[m] == if i + fill <= m && Low(m - i, n) == h then e else t[m])
    && (forall m :: 0 <= m < |t| && !(i <= m < i + size) ==> u[m] == t[m])
  }

  lemma StretchSet(t: seq<Entry>, u: seq<Entry>, i: nat, size: nat, n: nat, q: int, fill: int, h: int, e: Entry)
    requires Multiple(fill, q, Pow2(n)) && 0 <= fill && fill + Pow2(n) <= size && 0 <= h < Pow2(n)
    requires SetFrom(t, u, i, size, n, fill + Pow2(n), h, e)
    ensures i + h + fill < |u| && SetFrom(t, u[i + h + fill := e], i, size, n, fill, h, e)
  {
    forall j | fill <= j < fill + Pow2(n) ensures Low(j, n) == j - fill {
      StretchIndex(j, n, q, fill);
    }
    var u' := u[i + h + fill := e];
    forall m | i <= m < i + size ensures u'[m] == if i + fill <= m && Low(m - i, n) == h then e else t[m] {
      if i + fill <= m < i + fill + Pow2(n) {
        assert Low(m - i, n) == m - i - fill;
      }
    }
  }

  /** Set the entries whose index has the low n bits h. */
  method Replicate(table: array<Entry>, i: nat, k: nat, n: nat, h: int, e: Entry, ghost t: seq<Entry>)
    requires t == table[..] && n <= k && 0 <= h < Pow2(n) && i + Pow2(k) <= table.Length
    modifies table
    ensures Replicated(t, table[..], i, k, n, h, e)
  {
    var incr := Pow2(n);
    var fill := Pow2(k);
    ghost var q, size := Pow2(k - n), Pow2(k);
    StretchStart(k, n);
    assert SetFrom(t, t, i, size, n, fill, h, e);
    hide Low, Multiple, Pow2;
    while true
      invariant 0 < fill <= size && Multiple(fill, q, incr)
      invariant SetFrom(t, table[..], i, size, n, fill, h, e)
      decreases fill
    {
      ghost var u := table[..];
      StretchBack(q, incr, fill);
      fill := fill - incr;
      q := q - 1;
      StretchSet(t, u, i, size, n, q, fill, h, e);
      table[i + h + fill] := e;
      assert table[..] == u[i + h + fill := e];
      if fill == 0 {
        break;
      }
    }
  }

  // ----- one code

  /** The current code has its place in the table being filled. */
  ghost predicate Seat(t: seq<Entry>, base: nat, a: Area, len: nat, c: int) {
    && 0 < len && 0 <= c < Pow2(len) && base + a.next + Pow2(a.curr) <= |t|
    && (a.drop == 0 ==> len <= a.root && a.curr == a.root && a.next == 0)
    && (a.drop != 0 ==> InSubTable(a, len, c) && t[base + a.low] == Entry(a.curr, a.root, a.next))
  }

  lemma SeatFacts(t: seq<Entry>, base: nat, a: Area, len: nat, c: int)
    requires Seat(t, base, a, len, c)
    ensures a.drop < len && len - a.drop <= a.curr && Rev(c, len) >= 0
    ensures Shr(Rev(c, len), a.drop) < Pow2(len - a.drop) && base + a.next + Pow2(a.curr) <= |t|
  {
    ShrBound(Rev(c, len), a.drop, len);
  }

  lemma ReplicatedFrame(t: seq<Entry>, u: seq<Entry>, base: nat, i: nat, k: nat, n: nat, h: int, e: Entry)
    requires Replicated(t, u, i, k, n, h, e) && base <= i
    ensures |u| == |t| && u[..base] == t[..base]
  {
    hide Low;
  }

  lemma PlaceLemma(t: seq<Entry>, t': seq<Entry>, base: nat, a: Area, kind: CodeType, lens: seq<int>, cnt: seq<int>,
                   len: nat, c: int, s: nat)
    requires Progress(t, base, a, kind, lens, cnt, len, c) && Counts(lens, cnt) && Fits(cnt)
    requires Current(lens, cnt, s, len, c) && Seat(t, base, a, len, c) && a.drop < len && Rev(c, len) >= 0
    requires s < Alphabet(kind)
    requires Replicated(t, t', base + a.next, a.curr, len - a.drop, Shr(Rev(c, len), a.drop),
                        EntryOf(kind, s, len - a.drop))
    ensures Progress(t', base, a, kind, lens, cnt, len, c + 1) && |t'| == |t| && t'[..base] == t[..base]
    ensures a.drop != 0 ==> 0 <= base + a.low < |t| && t'[base + a.low] == Entry(a.curr, a.root, a.next)
  {
    hide *;
    SeatCases(t, base, a, len, c);
    ReplicatedFrame(t, t', base, base + a.next, a.curr, len - a.drop, Shr(Rev(c, len), a.drop),
                    EntryOf(kind, s, len - a.drop));
    EntryDrop(kind, s, len, a.drop);
    if a.drop == 0 {
      FillRoot(t, t', base, a, kind, lens, cnt, len, c, s);
    } else {
      FillSub(t, t', base, a, kind, lens, cnt, len, c, s);
    }
  }

  lemma EntryDrop(kind: CodeType, s: nat, len: int, drop: int)
    requires s < Alphabet(kind)
    ensures var e := EntryOf(kind, s, len); EntryOf(kind, s, len - drop) == Entry(e.op, e.bits - drop, e.val)
  {
  }

  lemma SeatCases(t: seq<Entry>, base: nat, a: Area, len: nat, c: int)
    requires Seat(t, base, a, len, c)
    ensures 0 < len && 0 <= c < Pow2(len) && Shr(Rev(c, len), 0) == Rev(c, len)
    ensures a.drop == 0 ==> len <= a.root && a.curr == a.root && a.next == 0
    ensures a.drop != 0 ==> InSubTable(a, len, c) && a.drop == a.root && base <= base + a.low < |t|
    ensures a.drop != 0 ==> t[base + a.low] == Entry(a.curr, a.root, a.next)
  {
  }

  /** Enter the code of symbol s into the table being filled. */
  method PlaceCode(kind: CodeType, table: array<Entry>, base: nat, a: Area, len: nat, huff: int, s: nat,
                   ghost lens: seq<int>, ghost cnt: seq<int>, ghost c: int, ghost t: seq<Entry>)
    requires t == table[..] && Progress(t, base, a, kind, lens, cnt, len, c) && Counts(lens, cnt) && Fits(cnt)
    requires Current(lens, cnt, s, len, c) && Seat(t, base, a, len, c) && s < Alphabet(kind)
    requires c >= 0 && huff == Rev(c, len)
    modifies table
    ensures Progress(table[..], base, a, kind, lens, cnt, len, c + 1) && table[..base] == t[..base]
    ensures a.drop != 0 ==> 0 <= base + a.low < table.Length && table[base + a.low] == Entry(a.curr, a.root, a.next)
  {
    hide *;
    SeatFacts(t, base, a, len, c);
    var this_ := EntryOf(kind, s, len - a.drop);
    Replicate(table, base + a.next, a.curr, len - a.drop, Shr(huff, a.drop), this_, t);
    PlaceLemma(t, table[..], base, a, kind, lens, cnt, len, c, s);
  }

  // ----- the order of the codes

  /** The code c of length len is the one at position sym in the sorted order. */
  ghost predicate Position(cnt: seq<int>, max: nat, len: nat, c: int, sym: int) {
    && |cnt| == MAXBITS + 1 && 0 < len <= max <= MAXBITS
    && FirstCode(cnt, len) <= c < Used(cnt, len)
    && sym == Total(cnt, len - 1) + c - FirstCode(cnt, len)
  }

  /** The symbol at a position is the one with the code. */
  lemma AtPosition(work: seq<int>, lens: seq<int>, cnt: seq<int>, max: nat, len: nat, c: int, sym: int) returns (s: nat)
    requires Counted(lens, cnt) && Fits(cnt) && Sorted(work, lens, cnt) && Position(cnt, max, len, c, sym)
    ensures 0 <= sym < |work| && work[sym] == s && Current(lens, cnt, s, len, c)
    ensures 0 <= c < Pow2(len) && sym < |lens|
  {
    s := SortedAt(work, lens, cnt, len, c - FirstCode(cnt, len));
    RankRange(lens, cnt, s);
    UsedNonNegative(cnt, len - 1);
  }

  /** Lengths between two that are in use have no codes. */
  lemma {:induction false} SkipLengths(cnt: seq<int>, a: nat, b: nat)
    requires a <= b < |cnt| && forall i :: a < i <= b ==> cnt[i] == 0
    ensures Used(cnt, b) == Up(Used(cnt, a), b - a) && Total(cnt, b) == Total(cnt, a)
    decreases b
  {
    if a < b {
      SkipLengths(cnt, a, b - 1);
    }
  }

  /** The position after one that is not the last: the same length, or the next length in use. */
  lemma NextPosition(work: seq<int>, lens: seq<int>, cnt: seq<int>, max: nat, len: nat, c: int, sym: int)
    returns (l: nat)
    requires Counted(lens, cnt) && Fits(cnt) && Sorted(work, lens, cnt) && Position(cnt, max, len, c, sym)
    requires cnt[max] != 0 && !(len == max && c + 1 == Used(cnt, len))
    ensures len <= l <= max && Position(cnt, max, l, Up(c + 1, l - len), sym + 1)
    ensures c + 1 == Used(cnt, len) ==>
            l > len && 0 <= sym + 1 < |work| && 0 <= work[sym + 1] < |lens| && lens[work[sym + 1]] == l
    ensures c + 1 != Used(cnt, len) ==> l == len
  {
    l := len;
    if c + 1 == Used(cnt, len) {
      l := len + 1;
      while cnt[l] == 0
        invariant len < l <= max && forall i :: len < i < l ==> cnt[i] == 0
        decreases max - l
      {
        l := l + 1;
      }
      NextLength(work, lens, cnt, max, len, c, sym, l);
    }
  }

  lemma NextLength(work: seq<int>, lens: seq<int>, cnt: seq<int>, max: nat, len: nat, c: int, sym: int, l: nat)
    requires Counted(lens, cnt) && Fits(cnt) && Sorted(work, lens, cnt) && Position(cnt, max, len, c, sym)
    requires c + 1 == Used(cnt, len) && len < l <= max && cnt[l] != 0 && forall i :: len < i < l ==> cnt[i] == 0
    ensures Position(cnt, max, l, Up(c + 1, l - len), sym + 1)
    ensures 0 <= sym + 1 < |work| && 0 <= work[sym + 1] < |lens| && lens[work[sym + 1]] == l
  {
    hide Up, Fits, Counted;
    SkipLengths(cnt, len, l - 1);
    UpMore(c + 1, l - 1 - len);
    CountedAt(lens, cnt, l);
    var s := SortedAt(work, lens, cnt, l, 0);
  }

  lemma UpMore(c: int, k: nat)
    ensures Up(c, k + 1) == 2 * Up(c, k)
  {
  }

  lemma CountedAt(lens: seq<int>, cnt: seq<int>, b: nat)
    requires Counted(lens, cnt) && b <= MAXBITS
    ensures |cnt| == MAXBITS + 1 && Count(lens, b) == cnt[b] >= 0
  {
  }

  lemma NextReversedIs(c: int, len: nat)
    requires c >= 0
    ensures NextReversed(c, len) == if c + 1 < Pow2(len) then Rev(c + 1, len) else 0
  {
  }

  lemma PositionParts(cnt: seq<int>, max: nat, len: nat, c: int, sym: int)
    requires Position(cnt, max, len, c, sym)
    ensures |cnt| == MAXBITS + 1 && 0 < len <= max <= MAXBITS
    ensures (Fits(cnt) ==> 0 <= c) && FirstCode(cnt, len) <= c < Used(cnt, len)
  {
    if Fits(cnt) {
      UsedNonNegative(cnt, len - 1);
    }
  }

  lemma FitsAt(cnt: seq<int>, l: nat)
    requires Fits(cnt) && l < |cnt|
    ensures Used(cnt, l) <= Pow2(l)
  {
  }

  /** A code that is followed by another is not all ones. */
  lemma NotLast(cnt: seq<int>, max: nat, len: nat, c: int, sym: int, l: nat)
    requires Position(cnt, max, len, c, sym) && Fits(cnt) && len <= l
             && Position(cnt, max, l, Up(c + 1, l - len), sym + 1)
    ensures 0 <= c < c + 1 < Pow2(len) && 0 <= Up(c + 1, l - len) < Pow2(l)
    ensures NextReversed(c, len) == Rev(Up(c + 1, l - len), l)
  {
    hide *;
    PositionParts(cnt, max, len, c, sym);
    PositionParts(cnt, max, l, Up(c + 1, l - len), sym + 1);
    FitsAt(cnt, l);
    var k := l - len;
    UpOne(l);
    UpUp(1, len, k);
    UpOne(len);
    if c + 1 >= Pow2(len) {
      UpMono(Pow2(len), c + 1, k);
    }
    RevUp(c + 1, len, k);
    NextReversedIs(c, len);
  }

  // ----- moving from one table to the next

  /** Where the current sub-table came from: its prefix, and the first code it was needed for. */
  datatype Mark = Mark(p: int, l0: nat, sym0: int)

  /** The current sub-table is linked, long enough for its prefix, and within the space accounted for. */
  ghost predicate Linked(t: seq<Entry>, base: nat, a: Area, max: nat, m: Mark, cnt: seq<int>, used: int) {
    && 0 <= m.p < Pow2(a.root) && Sized(cnt, m.p, a.root, m.l0, a.curr, max)
    && Room(used, a.root, m.sym0, m.l0, a.root + a.curr) && a.next >= Pow2(a.root)
    && 0 <= a.low == Rev(m.p, a.root) && base + a.low < |t| && t[base + a.low] == Entry(a.curr, a.root, a.next)
  }

  /** The current code goes into the current table. */
  ghost predicate Fit(t: seq<Entry>, base: nat, a: Area, max: nat, len: nat, c: int, m: Mark, cnt: seq<int>, sym: int,
                      used: int) {
    && 0 < a.root <= max && used == a.next + Pow2(a.curr) && base + used <= |t|
    && if a.drop == 0 then len <= a.root && a.curr == a.root && a.next == 0 && a.low == -1
       else && a.drop == a.root < len && Linked(t, base, a, max, m, cnt, used)
            && m.l0 >= a.root && Covered(Up(m.p, m.l0 - a.root), m.l0, m.sym0, len, c, sym)
            && Shr(c, len - a.root) == m.p
  }

  /** The low bits of the reversed code name the code's prefix. */
  lemma PrefixLow(c: int, root: nat, len: nat)
    requires 0 <= c < Pow2(len) && root <= len
    ensures Low(Rev(c, len), root) == Rev(Shr(c, len - root), root) == Rev(c, len) % Pow2(root)
    ensures 0 <= Shr(c, len - root) < Pow2(root)
  {
    var h := Rev(c, len);
    RevRev(c, len);
    RevPrefix(h, len, root);
    LowIsMod(h, root);
    ShrBound(c, len - root, len);
  }

  lemma FitSeat(t: seq<Entry>, base: nat, a: Area, max: nat, len: nat, c: int, m: Mark, cnt: seq<int>, sym: int,
                used: int)
    requires Fit(t, base, a, max, len, c, m, cnt, sym, used) && Position(cnt, max, len, c, sym) && 0 <= c < Pow2(len)
    requires forall i :: 0 <= i < |cnt| ==> cnt[i] >= 0
    ensures Seat(t, base, a, len, c)
  {
    if a.drop != 0 {
      PrefixFits(cnt, m.p, a.root, m.l0, a.curr, max, len, c);
      PrefixLow(c, a.root, len);
    }
  }

  /** The next code shares the current table. */
  lemma StayFit(t: seq<Entry>, t': seq<Entry>, base: nat, a: Area, max: nat, len: nat, c: int, m: Mark, cnt: seq<int>,
                sym: int, used: int, l: nat)
    requires Fit(t, base, a, max, len, c, m, cnt, sym, used) && |t'| == |t| && len <= l
    requires a.drop != 0 ==> 0 <= base + a.low < |t'| && t'[base + a.low] == Entry(a.curr, a.root, a.next)
    requires var c' := Up(c + 1, l - len);
             0 <= c' < Pow2(l) && !(l > a.root && Rev(c', l) % Pow2(a.root) != a.low)
    ensures Fit(t', base, a, max, l, Up(c + 1, l - len), m, cnt, sym + 1, used)
  {
    hide Sized, Room, Up, Shr, Rev, Pow2, Covered, Low;
    var c' := Up(c + 1, l - len);
    if a.drop == 0 {
      DivMod(Rev(c', l), Pow2(a.root));
    } else {
      CoveredStep(Up(m.p, m.l0 - a.root), m.l0, m.sym0, len, c, sym, l - len);
      PrefixLow(c', a.root, l);
      RevRev(m.p, a.root);
      RevRev(Shr(c', l - a.root), a.root);
    }
  }

  /** The first code of a new prefix starts on a table boundary. */
  lemma MoveAligned(a: Area, max: nat, len: nat, c: int, m: Mark, l: nat)
    requires 0 < len <= l && a.root < l && c >= 0
    requires var c' := Up(c + 1, l - len);
             0 <= c' < Pow2(l) && Rev(c', l) % Pow2(a.root) != a.low
    requires a.drop == 0 ==> len <= a.root
    requires a.drop != 0 ==> a.root < len && Shr(c, len - a.root) == m.p && a.low == Rev(m.p, a.root)
    ensures var c' := Up(c + 1, l - len);
            && c' >= 0 && Aligned(c', l - a.root)
            && (a.drop != 0 ==> Shr(c', l - a.root) == m.p + 1)
  {
    hide *;
    var c' := Up(c + 1, l - len);
    if a.drop == 0 {
      var y := Up(c + 1, a.root - len);
      UpUp(c + 1, a.root - len, l - a.root);
      ShrUp(c + 1, a.root - len);
      ShrUp(y, l - a.root);
      MakeAligned(y, c', l - a.root);
    } else {
      var k := len - a.root;
      PrefixLow(c', a.root, l);
      ShrUp(c + 1, l - len);
      ShrAdd(c', l - len, k);
      assert Shr(c', l - a.root) == Shr(c + 1, k);
      ShrStep(c, k);
      Carry(c, k);
      AlignedUp(c + 1, l - len, k);
    }
  }

  lemma MoveRoom(t: seq<Entry>, base: nat, a: Area, max: nat, len: nat, c: int, m: Mark, cnt: seq<int>, sym: int,
                 used: int, l: nat)
    requires Fit(t, base, a, max, len, c, m, cnt, sym, used) && len <= l && a.root < l && sym >= 0
    requires Position(cnt, max, l, Up(c + 1, l - len), sym + 1) && 0 <= Up(c + 1, l - len) && Fits(cnt)
    requires a.drop != 0 ==> Shr(Up(c + 1, l - len), l - a.root) == m.p + 1
    ensures Room(used, a.root, sym + 1, l, a.root)
  {
    hide *;
    FitParts(t, base, a, max, len, c, m, cnt, sym, used);
    FitPlace(cnt, max, l, Up(c + 1, l - len), sym + 1);
    if a.drop == 0 {
      FirstRoom(used, a.root, sym + 1, l);
    } else {
      var c' := Up(c + 1, l - len);
      CoveredStep(Up(m.p, m.l0 - a.root), m.l0, m.sym0, len, c, sym, l - len);
      CoveredLen(Up(m.p, m.l0 - a.root), m.l0, m.sym0, len, c, sym);
      NextPrefixLonger(cnt, m.p, a.root, m.l0, a.curr, max, l, c');
      RoomAgain(used, a.root, m.sym0, m.l0, a.root + a.curr, Up(m.p, m.l0 - a.root), m.p, l, c', sym + 1);
    }
  }

  lemma FitParts(t: seq<Entry>, base: nat, a: Area, max: nat, len: nat, c: int, m: Mark, cnt: seq<int>, sym: int,
                 used: int)
    requires Fit(t, base, a, max, len, c, m, cnt, sym, used)
    ensures 0 < a.root <= max && used == a.next + Pow2(a.curr)
    ensures a.drop == 0 ==> used == Pow2(a.root)
    ensures a.drop != 0 ==> a.drop == a.root < len && 0 <= m.p && a.root <= m.l0
                            && Sized(cnt, m.p, a.root, m.l0, a.curr, max)
    ensures a.drop != 0 ==> a.root < m.l0 && a.root < a.root + a.curr
                            && Room(used, a.root, m.sym0, m.l0, a.root + a.curr)
    ensures a.drop != 0 ==> Covered(Up(m.p, m.l0 - a.root), m.l0, m.sym0, len, c, sym)
  {
    hide Room, Covered, Up, Pow2;
  }

  lemma FitPlace(cnt: seq<int>, max: nat, l: nat, c: int, sym: int)
    requires Position(cnt, max, l, c, sym) && Fits(cnt)
    ensures 0 < l <= max && c < Used(cnt, l) && forall i :: 0 <= i < |cnt| ==> cnt[i] >= 0
  {
  }

  lemma FirstRoom(used: int, root: nat, sym: int, l: nat)
    requires used == Pow2(root) && sym >= 0 && root <= l
    ensures Room(used, root, sym, l, root)
  {
  }

  lemma CoveredLen(c0: int, l0: nat, sym0: int, len: nat, c: int, sym: int)
    requires Covered(c0, l0, sym0, len, c, sym)
    ensures l0 <= len
  {
  }

  /** Counts of the codes still to be entered, from code c of length len on. */
  ghost predicate Remaining(count: seq<int>, cnt: seq<int>, len: nat, c: int) {
    && |count| == |cnt| == MAXBITS + 1 && 0 < len <= MAXBITS && count[len] == Used(cnt, len) - c
    && forall b :: len < b <= MAXBITS ==> count[b] == cnt[b]
  }

  /** Look ahead in the counts for the number of bits the sub-table of prefix p needs. */
  method SubTableBits(count: array<int>, len: nat, drop: nat, max: nat, ghost cnt: seq<int>, ghost c: int, ghost p: int)
      returns (curr: nat)
    requires Remaining(count[..], cnt, len, c) && drop < len <= max <= MAXBITS && c == Up(p, len - drop)
    ensures Sized(cnt, p, drop, len, curr, max)
  {
    curr := len - drop;
    var left := Pow2(curr);
    UpSum(p, 1, curr);
    UpOne(curr);
    while curr + drop < max
      invariant len <= curr + drop <= max
      invariant left == Up(p + 1, curr) - Used(cnt, curr + drop) + count[curr + drop]
      invariant curr + drop > len ==> Up(p + 1, curr - 1) > Used(cnt, curr + drop - 1)
    {
      left := left - count[curr + drop];
      if left <= 0 {
        break;
      }
      curr := curr + 1;
      left := left * 2;
    }
  }

  /** Space that the tables may take: sub-tables are only needed beyond the root bits. */
  ghost predicate Space(size: nat, base: nat, kind: CodeType, root: nat, max: nat, codes: nat) {
    && 0 < root <= max <= MAXBITS
    && (root < max ==> base + Enough(root, codes) <= size) && base + Pow2(root) <= size
    && codes <= Alphabet(kind)
    && (kind.Lens? && root < max ==> root == 9) && root <= 9
  }

  lemma SpaceLens(size: nat, base: nat, kind: CodeType, root: nat, max: nat, codes: nat, used: int)
    requires Space(size, base, kind, root, max, codes)
    requires used == Pow2(root) || (root < max && used <= Enough(root, codes))
    ensures kind.Lens? ==> used < ENOUGH - MAXD
    ensures base + used <= size
  {
    Pow2Mono(root, 9);
    EnoughIsEnough();
    assert Pow2(9) == 512 by {
      assert Pow2(4) == 16 && Pow2(8) == 16 * Pow2(4);
    }
  }

  lemma RoomMore(used: int, root: nat, sym: int, l: nat, curr: nat)
    requires Room(used, root, sym, l, root) && curr > 0
    ensures Room(used + Pow2(curr), root, sym, l, root + curr)
  {
  }

  lemma SizedPositive(cnt: seq<int>, p: int, root: nat, len: nat, curr: nat, max: nat)
    requires Sized(cnt, p, root, len, curr, max)
    ensures curr > 0
  {
  }

  lemma NewFit(t: seq<Entry>, base: nat, b: Area, cnt: seq<int>, max: nat, l: nat, c: int, sym: int, used: nat)
    requires 0 < b.root == b.drop < l <= max && b.next == used >= Pow2(b.root) && base + used + Pow2(b.curr) <= |t|
    requires c >= 0 && 0 <= Shr(c, l - b.root) < Pow2(b.root) && c == Up(Shr(c, l - b.root), l - b.root)
    requires b.low == Rev(Shr(c, l - b.root), b.root) && base + b.low < |t|
             && t[base + b.low] == Entry(b.curr, b.root, b.next)
    requires Sized(cnt, Shr(c, l - b.root), b.root, l, b.curr, max) && Room(used, b.root, sym, l, b.root)
    ensures Fit(t, base, b, max, l, c, Mark(Shr(c, l - b.root), l, sym), cnt, sym, used + Pow2(b.curr))
  {
    SizedPositive(cnt, Shr(c, l - b.root), b.root, l, b.curr, max);
    RoomMore(used, b.root, sym, l, b.curr);
    CoveredStart(c, l, sym);
    hide Covered, Shr, Up, Sized, Room, Rev, Pow2;
  }

  lemma CoveredStart(c: int, l: nat, sym: int)
    requires c >= 0
    ensures Covered(c, l, sym, l, c, sym)
  {
  }

  /** What the tables look like around the frontier: the current one lies after those finished. */
  ghost predicate Layout(t: seq<Entry>, base: nat, a: Area) {
    && base + a.next + Pow2(a.curr) <= |t| && 0 < a.root && a.next + Pow2(a.curr) >= Pow2(a.root)
    && (a.drop == 0 ==> a.next == 0 && a.curr == a.root)
    && (a.drop != 0 ==> 0 < a.curr < 16 && a.next >= Pow2(a.root) && 0 <= a.low < Pow2(a.root))
  }

  lemma FitLayout(t: seq<Entry>, base: nat, a: Area, max: nat, len: nat, c: int, m: Mark, cnt: seq<int>, sym: int,
                  used: int)
    requires Fit(t, base, a, max, len, c, m, cnt, sym, used) && max <= MAXBITS
    ensures Layout(t, base, a) && used == a.next + Pow2(a.curr)
  {
  }

  /** Start the sub-table for the prefix of code c. */
  lemma NewTable(t: seq<Entry>, base: nat, a: Area, b: Area, kind: CodeType, lens: seq<int>, cnt: seq<int>, max: nat,
                 l: nat, c: int, sym: int, used: nat)
    requires Progress(t, base, a, kind, lens, cnt, l, c) && 0 <= c < Pow2(l) && a.root < l <= max
             && Aligned(c, l - a.root)
    requires Layout(t, base, a) && used == a.next + Pow2(a.curr) && base + used + Pow2(b.curr) <= |t|
    requires b == Area(a.root, a.root, b.curr, used, Rev(c, l) % Pow2(a.root))
    requires Sized(cnt, Shr(c, l - a.root), a.root, l, b.curr, max) && Room(used, a.root, sym, l, a.root)
    ensures 0 <= base + b.low < |t|
    ensures var t' := t[base + b.low := Entry(b.curr, b.root, b.next)];
            && Progress(t', base, b, kind, lens, cnt, l, c)
            && Fit(t', base, b, max, l, c, Mark(Shr(c, l - a.root), l, sym), cnt, sym, used + Pow2(b.curr))
            && t'[..base] == t[..base]
  {
    PrefixLow(c, a.root, l);
    LayoutFacts(t, base, a);
    AlignedIs(c, l - a.root);
    assert base <= base + b.low < |t|;
    hide *;
    var t' := t[base + b.low := Entry(b.curr, b.root, b.next)];
    NewSub(t, base, a, b, kind, lens, cnt, l, c);
    NewFit(t', base, b, cnt, max, l, c, sym, used);
  }

  lemma LayoutFacts(t: seq<Entry>, base: nat, a: Area)
    requires Layout(t, base, a)
    ensures base + a.next + Pow2(a.curr) <= |t| && 0 < a.root && a.next + Pow2(a.curr) >= Pow2(a.root)
    ensures a.drop == 0 ==> a.next == 0 && a.curr == a.root
    ensures a.drop != 0 ==> 0 < a.curr < 16 && a.next >= Pow2(a.root) && 0 <= a.low < Pow2(a.root)
  {
  }

  // ----- the loop over all codes

  /** What does not change while codes are entered. */
  ghost predicate Ready(w: seq<int>, kind: CodeType, lens: seq<int>, cnt: seq<int>, max: nat) {
    && Counted(lens, cnt) && Fits(cnt) && Sorted(w, lens, cnt) && 0 < max <= MAXBITS && cnt[max] != 0
    && |lens| <= Alphabet(kind)
  }

  /** Code c of length len is the next to be entered, and the current table is the one for it. */
  ghost predicate Entering(t: seq<Entry>, cs: seq<int>, base: nat, a: Area, kind: CodeType, lens: seq<int>,
                           cnt: seq<int>,
                           max: nat, len: nat, c: int, m: Mark, sym: int, used: int, huff: int) {
    && Progress(t, base, a, kind, lens, cnt, len, c) && Position(cnt, max, len, c, sym)
    && Fit(t, base, a, max, len, c, m, cnt, sym, used) && Remaining(cs, cnt, len, c)
    && 0 <= c < Pow2(len) && huff == Rev(c, len) && used >= 0
  }

  lemma CurrentCode(t: seq<Entry>, w: seq<int>, cs: seq<int>, base: nat, a: Area, kind: CodeType, lens: seq<int>,
                    cnt: seq<int>,
                    max: nat, len: nat, c: int, m: Mark, sym: int, used: int, huff: int) returns (s: nat)
    requires Ready(w, kind, lens, cnt, max)
             && Entering(t, cs, base, a, kind, lens, cnt, max, len, c, m, sym, used, huff)
    ensures 0 <= sym < |w| && w[sym] == s < Alphabet(kind) && Current(lens, cnt, s, len, c) && sym < |lens|
    ensures Seat(t, base, a, len, c) && Progress(t, base, a, kind, lens, cnt, len, c) && Counts(lens, cnt) && Fits(cnt)
    ensures 0 < len < |cs| && 0 <= c < Pow2(len) && huff == Rev(c, len)
    ensures cs[len] == Used(cnt, len) - c && len < |cnt|
  {
    hide Progress, Fit, Counts, Fits, Sorted, Counted, FirstCode;
    s := AtPosition(w, lens, cnt, max, len, c, sym);
    CountedCounts(lens, cnt);
    CurrentLen(lens, cnt, s, len, c);
    FitSeat(t, base, a, max, len, c, m, cnt, sym, used);
    hide Current, Seat;
  }

  /** After the current code has been entered, the frontier stands at the code that follows it. */
  lemma Advance(t: seq<Entry>, t': seq<Entry>, w: seq<int>, cs: seq<int>, base: nat, a: Area, kind: CodeType,
                lens: seq<int>,
                cnt: seq<int>, max: nat, len: nat, c: int, m: Mark, sym: int, used: int, huff: int) returns (l: nat)
    requires Ready(w, kind, lens, cnt, max)
             && Entering(t, cs, base, a, kind, lens, cnt, max, len, c, m, sym, used, huff)
    requires Progress(t', base, a, kind, lens, cnt, len, c + 1) && 0 < len < |cs| && len < |cnt|
    requires !(len == max && c + 1 == Used(cnt, len))
    ensures len <= l <= max && 0 <= Up(c + 1, l - len) < Pow2(l) && NextReversed(c, len) == Rev(Up(c + 1, l - len), l)
    ensures Position(cnt, max, l, Up(c + 1, l - len), sym + 1)
    ensures Progress(t', base, a, kind, lens, cnt, l, Up(c + 1, l - len))
    ensures Remaining(cs[len := cs[len] - 1], cnt, l, Up(c + 1, l - len))
    ensures if c + 1 == Used(cnt, len) then 0 <= sym + 1 < |w| && 0 <= w[sym + 1] < |lens| && lens[w[sym + 1]] == l
            else l == len
  {
    hide Progress, Fit, Counts, Fits, Sorted, Counted, Pow2, Rev, Used, Total, FirstCode;
    l := NextPosition(w, lens, cnt, max, len, c, sym);
    NotLast(cnt, max, len, c, sym, l);
    Lengthen(t', base, a, kind, lens, cnt, len, c + 1, l - len);
    var c' := Up(c + 1, l - len);
    if l == len {
      assert c' == c + 1;
    } else {
      FreshLength(cnt, max, len, c, sym, l);
    }
    hide Position, Up, NextReversed, Rev, Pow2;
  }

  /** The first code of a length comes with the full count of that length. */
  lemma FreshLength(cnt: seq<int>, max: nat, len: nat, c: int, sym: int, l: nat)
    requires Position(cnt, max, len, c, sym) && len < l && Position(cnt, max, l, Up(c + 1, l - len), sym + 1)
    requires c + 1 == Used(cnt, len) && Fits(cnt)
    ensures cnt[l] == Used(cnt, l) - Up(c + 1, l - len)
  {
    UsedUp(cnt, len, l - 1);
    assert Up(c + 1, l - len) == 2 * Up(c + 1, l - 1 - len);
  }

  lemma StayEntering(t: seq<Entry>, t': seq<Entry>, cs: seq<int>, cs': seq<int>, base: nat, a: Area, kind: CodeType,
                     lens: seq<int>,
                     cnt: seq<int>, max: nat, len: nat, c: int, m: Mark, sym: int, used: int, huff: int, l: nat)
    requires Entering(t, cs, base, a, kind, lens, cnt, max, len, c, m, sym, used, huff) && |t'| == |t| && len <= l
    requires a.drop != 0 ==> 0 <= base + a.low < |t'| && t'[base + a.low] == Entry(a.curr, a.root, a.next)
    requires 0 <= Up(c + 1, l - len) < Pow2(l) && Position(cnt, max, l, Up(c + 1, l - len), sym + 1)
    requires Progress(t', base, a, kind, lens, cnt, l, Up(c + 1, l - len)) && Remaining(cs', cnt, l, Up(c + 1, l - len))
    requires !(l > a.root && Rev(Up(c + 1, l - len), l) % Pow2(a.root) != a.low)
    ensures Entering(t', cs', base, a, kind, lens, cnt, max, l, Up(c + 1, l - len), m, sym + 1, used,
                     Rev(Up(c + 1, l - len), l))
  {
    hide Progress, Fit, Position, Up, Rev, Pow2, Remaining;
    StayFit(t, t', base, a, max, len, c, m, cnt, sym, used, l);
  }

  lemma MoveEntering(t: seq<Entry>, t': seq<Entry>, w: seq<int>, cs: seq<int>, base: nat, a: Area, kind: CodeType,
                     lens: seq<int>,
                     cnt: seq<int>, max: nat, len: nat, c: int, m: Mark, sym: int, used: int, huff: int, l: nat)
    requires Ready(w, kind, lens, cnt, max)
             && Entering(t, cs, base, a, kind, lens, cnt, max, len, c, m, sym, used, huff)
    requires |t'| == |t| && len <= l && 0 <= Up(c + 1, l - len) < Pow2(l)
             && Position(cnt, max, l, Up(c + 1, l - len), sym + 1)
    requires a.root < l && Rev(Up(c + 1, l - len), l) % Pow2(a.root) != a.low && sym >= 0
    ensures Aligned(Up(c + 1, l - len), l - a.root) && Room(used, a.root, sym + 1, l, a.root)
    ensures Layout(t', base, a) && used == a.next + Pow2(a.curr)
    ensures Up(c + 1, l - len) == Up(Shr(Up(c + 1, l - len), l - a.root), l - a.root)
  {
    FitLayout(t, base, a, max, len, c, m, cnt, sym, used);
    FitMode(t, base, a, max, len, c, m, cnt, sym, used);
    assert Position(cnt, max, len, c, sym) && c >= 0 && 0 < len;
    hide Progress, Fit, Position, Up, Rev, Pow2, Remaining, Linked, Aligned, Shr, Counted, Sorted;
    MoveAligned(a, max, len, c, m, l);
    MoveRoom(t, base, a, max, len, c, m, cnt, sym, used, l);
    AlignedIs(Up(c + 1, l - len), l - a.root);
  }

  lemma FitMode(t: seq<Entry>, base: nat, a: Area, max: nat, len: nat, c: int, m: Mark, cnt: seq<int>, sym: int,
                used: int)
    requires Fit(t, base, a, max, len, c, m, cnt, sym, used) && c >= 0
    ensures 0 < a.root <= max
    ensures a.drop == 0 ==> len <= a.root
    ensures a.drop != 0 ==> a.root == a.drop < len && Shr(c, len - a.root) == m.p && m.p >= 0
                            && a.low == Rev(m.p, a.root)
  {
  }

  /** The sub-table about to be started fits the space, so the check against ENOUGH never fires. */
  lemma NewSpace(t: seq<Entry>, w: seq<int>, base: nat, kind: CodeType, lens: seq<int>, cnt: seq<int>, root: nat,
                 max: nat,
                 l: nat, c: int, sym: int, used: int, curr: nat, p: int)
    requires Ready(w, kind, lens, cnt, max) && Position(cnt, max, l, c, sym) && root < l
    requires Room(used, root, sym, l, root) && Sized(cnt, p, root, l, curr, max)
    requires Space(|t|, base, kind, root, max, |lens|)
    ensures base + used + Pow2(curr) <= |t| && curr > 0
    ensures kind.Lens? ==> used + Pow2(curr) < ENOUGH - MAXD
    ensures used + Pow2(curr) <= Enough(root, |lens|)
  {
    var s := AtPosition(w, lens, cnt, max, l, c, sym);
    assert l <= max <= 15 && root + curr <= max && curr > 0;
    hide Position, Current, Sorted, Counted, Sized, Used, FirstCode, Total;
    RoomMore(used, root, sym, l, curr);
    RoomEnough(used + Pow2(curr), root, sym, |lens|, l, root + curr);
    SpaceLens(|t|, base, kind, root, max, |lens|, used + Pow2(curr));
  }

  /** What the loop leaves behind: every code is placed, and the tables fit. */
  ghost predicate Entered(t: seq<Entry>, base: nat, a: Area, kind: CodeType, lens: seq<int>, cnt: seq<int>, max: nat,
                          used: int, huff: int) {
    && max < |cnt| && Progress(t, base, a, kind, lens, cnt, max, Used(cnt, max)) && Layout(t, base, a)
    && used == a.next + Pow2(a.curr)
    && Used(cnt, max) >= 1 && huff == NextReversed(Used(cnt, max) - 1, max) && a.root <= max <= MAXBITS
    && (a.drop == 0 || a.drop == a.root < max) && (a.drop == 0 ==> max == a.root)
    && (used == Pow2(a.root) || used <= Enough(a.root, |lens|))
  }

  lemma EnteredAll(t: seq<Entry>, t': seq<Entry>, w: seq<int>, cs: seq<int>, base: nat, a: Area, kind: CodeType,
                   lens: seq<int>,
                   cnt: seq<int>, max: nat, len: nat, c: int, m: Mark, sym: int, used: int, huff: int)
    requires Ready(w, kind, lens, cnt, max)
             && Entering(t, cs, base, a, kind, lens, cnt, max, len, c, m, sym, used, huff)
    requires Progress(t', base, a, kind, lens, cnt, len, c + 1) && |t'| == |t| && len < |cnt| && c >= 0
    requires len == max && c + 1 == Used(cnt, len) && a.root <= max
             && (used == Pow2(a.root) || used <= Enough(a.root, |lens|))
    ensures Entered(t', base, a, kind, lens, cnt, max, used, NextReversed(c, len))
  {
    FitLayout(t, base, a, max, len, c, m, cnt, sym, used);
    FitMode(t, base, a, max, len, c, m, cnt, sym, used);
    hide Progress, Fit, Rev, Pow2, Position, Used, NextReversed;
  }

  /** Enter all codes, longest last, starting sub-tables as their prefixes come up. */
  method EnterCodes(kind: CodeType, lens: seq<int>, table: array<Entry>, base: nat, root: nat, min: nat, max: nat,
                    count: array<int>, work: array<int>, ghost cnt: seq<int>, ghost w: seq<int>)
    returns (ret: int, huff: int, drop: nat, low: int, next: nat, used: nat, ghost a: Area)
    requires count != work && cnt == count[..] && w == work[..] && Ready(w, kind, lens, cnt, max)
    requires Space(table.Length, base, kind, root, max, |lens|) && min <= root
    requires 1 <= min <= max && cnt[min] != 0 && forall b :: 1 <= b < min ==> cnt[b] == 0
    modifies table, count
    ensures ret == 0 && base <= table.Length && table[..base] == old(table[..base])
    ensures a == Area(root, drop, a.curr, next, low) && Entered(table[..], base, a, kind, lens, cnt, max, used, huff)
  {
    hide *;
    StartFacts(table[..], w, base, kind, lens, cnt, root, max);
    ret, huff, drop, low, next := 0, 0, 0, -1, 0;
    var sym: nat, len: nat, curr: nat := 0, min, root;
    used := Pow2(root);
    ghost var c, m, t0 := 0, Mark(0, 0, 0), table[..base];
    a := Area(root, drop, curr, next, low);
    FirstEntering(table[..], w, cnt, base, a, kind, lens, cnt, min, max, used);
    while true
      invariant w == work[..] && Ready(w, kind, lens, cnt, max) && count.Length == |cnt|
      invariant Space(table.Length, base, kind, root, max, |lens|)
      invariant base <= table.Length && table[..base] == t0
      invariant a == Area(root, drop, curr, next, low) && (drop == 0 || drop == root)
      invariant Entering(table[..], count[..], base, a, kind, lens, cnt, max, len, c, m, sym, used, huff)
      invariant used == Pow2(root) || used <= Enough(root, |lens|)
      decreases |lens| - sym
    {
      ghost var t, cs := table[..], count[..];
      ghost var s := CurrentCode(t, w, cs, base, a, kind, lens, cnt, max, len, c, m, sym, used, huff);
      PlaceCode(kind, table, base, Area(root, drop, curr, next, low), len, huff, work[sym], lens, cnt, c, t);
      var min_ := Pow2(curr);
      ghost var huff0, sym0 := huff, sym;
      huff := BackIncrement(huff, len, c);
      sym := sym + 1;
      count[len] := count[len] - 1;
      assert count[..] == cs[len := cs[len] - 1];
      ghost var t1, len0 := table[..], len;
      if count[len] == 0 {
        if len == max {
          EnteredAll(t, t1, w, cs, base, a, kind, lens, cnt, max, len, c, m, sym0, used, huff0);
          return;
        }
        ghost var l := Advance(t, t1, w, cs, base, a, kind, lens, cnt, max, len, c, m, sym0, used, huff0);
        len := lens[work[sym]];
      } else {
        ghost var l := Advance(t, t1, w, cs, base, a, kind, lens, cnt, max, len, c, m, sym0, used, huff0);
      }
      ghost var c' := Up(c + 1, len - len0);
      if len > root && huff % Pow2(root) != low {
        MoveEntering(t, t1, w, cs, base, a, kind, lens, cnt, max, len0, c, m, sym0, used, huff0, len);
        if drop == 0 {
          drop := root;
        }
        next := next + min_;
        curr := SubTableBits(count, len, drop, max, cnt, c', Shr(c', len - root));
        NewSpace(t1, w, base, kind, lens, cnt, root, max, len, c', sym, used, curr, Shr(c', len - root));
        ghost var used0 := used;
        used := used + Pow2(curr);
        if kind.Lens? && used >= ENOUGH - MAXD {
          ret := 1;
          return;
        }
        low := huff % Pow2(root);
        ghost var b := Area(root, drop, curr, next, low);
        NewTable(t1, base, a, b, kind, lens, cnt, max, len, c', sym, used0);
        table[base + low] := Entry(curr, root, next);
        assert table[..] == t1[base + low := Entry(curr, root, next)];
        NewEntering(table[..], count[..], base, b, kind, lens, cnt, max, len, c', Mark(Shr(c', len - root), len, sym),
                    sym, used, huff);
        m := Mark(Shr(c', len - root), len, sym);
        a := b;
      } else {
        StayEntering(t, t1, cs, count[..], base, a, kind, lens, cnt, max, len0, c, m, sym0, used, huff0, len);
      }
      c := c';
    }
  }

  lemma NewEntering(t: seq<Entry>, cs: seq<int>, base: nat, a: Area, kind: CodeType, lens: seq<int>, cnt: seq<int>,
                    max: nat, len: nat, c: int, m: Mark, sym: int, used: int, huff: int)
    requires Progress(t, base, a, kind, lens, cnt, len, c) && Position(cnt, max, len, c, sym)
    requires Fit(t, base, a, max, len, c, m, cnt, sym, used) && Remaining(cs, cnt, len, c)
    requires 0 <= c < Pow2(len) && huff == Rev(c, len) && used >= 0
    ensures Entering(t, cs, base, a, kind, lens, cnt, max, len, c, m, sym, used, huff)
  {
    hide Progress, Position, Fit, Remaining;
  }

  lemma StartFacts(t: seq<Entry>, w: seq<int>, base: nat, kind: CodeType, lens: seq<int>, cnt: seq<int>, root: nat,
                   max: nat)
    requires Ready(w, kind, lens, cnt, max) && Space(|t|, base, kind, root, max, |lens|)
    ensures |cnt| == MAXBITS + 1 && 0 < root <= max <= MAXBITS && root <= 15 && base + Pow2(root) <= |t|
  {
  }

  lemma FirstEntering(t: seq<Entry>, w: seq<int>, cs: seq<int>, base: nat, a: Area, kind: CodeType, lens: seq<int>,
                      cnt: seq<int>,
                      min: nat, max: nat, used: int)
    requires Ready(w, kind, lens, cnt, max) && cs == cnt && a == Area(a.root, 0, a.root, 0, -1)
    requires 0 < min <= a.root <= max && cnt[min] != 0 && forall b :: 1 <= b < min ==> cnt[b] == 0
    requires used == Pow2(a.root) && base + used <= |t|
    ensures Entering(t, cs, base, a, kind, lens, cnt, max, min, 0, Mark(0, 0, 0), 0, used, 0)
  {
    SkipLengths(cnt, 0, min - 1);
    ZeroUp(min - 1);
    CountedCounts(lens, cnt);
    RevZero(min);
    hide Starts, Placed, Counted, Sorted;
  }

  lemma {:induction false} RevZero(n: nat)
    ensures Rev(0, n) == 0
  {
    if n > 0 {
      RevFirst(0, n);
      RevZero(n - 1);
    }
  }

  // ----- the rest of the table

  /**
   Fill what the codes leave of the table with invalid code markers.  Only a lone
   code of one bit leaves anything; the loop drops back to the root table if it has to.
   */
  method FillRest(table: array<Entry>, base: nat, root: nat, len0: nat, drop0: nat, low: int, next0: nat, huff0: int)
    requires drop0 <= len0 && (huff0 == 0 || (huff0 == 1 && len0 == 1 && root == 1 && base + 2 <= table.Length))
    requires huff0 != 0 ==> (drop0 == 0 && next0 == 0) || (drop0 == 1 && low == 0)
    modifies table
    ensures huff0 == 0 ==> table[..] == old(table[..])
    ensures huff0 != 0 ==> base + 1 < |old(table[..])| && table[..] == old(table[..])[base + 1 := INVALID]
  {
    var huff, len, drop, next := huff0, len0, drop0, next0;
    var this_ := Entry(64, len - drop, 0);
    while huff != 0
      invariant huff == huff0 || huff == 0
      invariant huff0 != 0 ==> len == 1 && (drop == 0 ==> next == 0 && this_ == INVALID)
      invariant huff0 != 0 && drop != 0 ==> drop == 1 && low == 0 && this_.op == 64 && this_.val == 0
      invariant table[..] == if huff == huff0 then old(table[..]) else old(table[..])[base + 1 := INVALID]
      decreases huff
    {
      if drop != 0 && huff % Pow2(root) != low {
        drop := 0;
        len := root;
        next := 0;
        this_ := Entry(this_.op, len, this_.val);
      }
      table[base + next + Shr(huff, drop)] := this_;
      assert Rev(1, 1) == 1;
      huff := BackIncrement(huff, len, 1);
    }
  }

  // ----- the finished table

  /** A complete code has at least as many symbols as codes of its shortest length would. */
  lemma {:induction false} UsedAtMost(cnt: seq<int>, min: nat, b: nat)
    requires 0 < min <= b + 1 && b < |cnt| && forall i :: 0 <= i < |cnt| ==> cnt[i] >= 0
    requires forall i :: 1 <= i < min ==> cnt[i] == 0
    ensures b + 1 == min ==> Used(cnt, b) == 0 && Total(cnt, b) == 0
    ensures b >= min ==> Used(cnt, b) <= Up(Total(cnt, b), b - min)
  {
    if b > 0 {
      if b + 1 == min {
        UsedAtMost(cnt, min - 1, b - 1);
      } else {
        UsedAtMost(cnt, min, b - 1);
        if b > min {
          UpSum(Total(cnt, b - 1), cnt[b], b - min);
          UpGrows(cnt[b], b - min);
        }
      }
    }
  }

  lemma {:induction false} UpGrows(c: int, k: nat)
    requires c >= 0
    ensures Up(c, k) >= c
  {
    if k > 0 {
      UpGrows(c, k - 1);
    }
  }

  lemma ShortestWithin(lens: seq<int>, cnt: seq<int>, min: nat, max: nat, bits: nat)
    requires Counted(lens, cnt) && 0 < min <= max <= MAXBITS && forall i :: 1 <= i < min ==> cnt[i] == 0
    requires Used(cnt, max) == Pow2(max) && |lens| < Pow2(bits + 1)
    ensures min <= bits
  {
    CountedCounts(lens, cnt);
    UsedAtMost(cnt, min, max);
    TotalIsCountUpTo(lens, cnt, max);
    CountUpToRange(lens, max);
    if min > bits {
      Pow2Mono(bits + 1, min);
      UpMono(Total(cnt, max), Pow2(min) - 1, max - min);
      UpSum(Pow2(min), -1, max - min);
      UpOne(min);
      UpUp(1, min, max - min);
      UpOne(max);
      UpMono(-1, 0, max - min);
      NegativeUp(max - min);
    }
  }

  lemma {:induction false} NegativeUp(k: nat)
    ensures Up(-1, k) < 0
  {
    if k > 0 {
      NegativeUp(k - 1);
    }
  }

  lemma AllStart(lens: seq<int>, cnt: seq<int>, max: nat, x: int)
    requires Counts(lens, cnt) && Fits(cnt) && 0 < max < |cnt| && Used(cnt, max) == Pow2(max)
    ensures !NoCode(lens, cnt, x)
  {
    if x >= 0 {
      var s := CompleteDecodes(lens, cnt, Rev(x, max), max);
      StartsIsHeads(lens, cnt, x, max, s);
    }
  }

  lemma DecodesComplete(t: seq<Entry>, base: nat, a: Area, kind: CodeType, lens: seq<int>, cnt: seq<int>, max: nat,
                        used: int, huff: int)
    requires Entered(t, base, a, kind, lens, cnt, max, used, huff) && Counts(lens, cnt) && Fits(cnt) && 0 < max < |cnt|
    requires Used(cnt, max) == Pow2(max) && |lens| <= Alphabet(kind)
    ensures 0 <= base + used <= |t| && Decodes(t[..base + used], base, a.root, kind, lens, cnt)
    ensures huff == 0
  {
    EnteredEnd(t, base, a, kind, lens, cnt, max, used, huff);
    hide Entered, EntryOf, Starts, Counts, Fits, NoCode, Finds;
    forall x, s: nat | Starts(lens, cnt, x, s)
      ensures s < |lens| && Finds(t[..base + used], base, a.root, x, EntryOf(kind, s, lens[s]))
    {
      StartsPositive(lens, cnt, x, s);
      assert Rev(x, max) < Pow2(max);
      EnteredFinds(t, base, a, kind, lens, cnt, max, used, huff, x, s);
    }
    forall x ensures !NoCode(lens, cnt, x) {
      AllStart(lens, cnt, max, x);
    }
  }

  lemma EnteredEnd(t: seq<Entry>, base: nat, a: Area, kind: CodeType, lens: seq<int>, cnt: seq<int>, max: nat,
                   used: int, huff: int)
    requires Entered(t, base, a, kind, lens, cnt, max, used, huff)
    ensures 0 <= base + used <= |t| && max < |cnt| && Used(cnt, max) >= 1
            && huff == NextReversed(Used(cnt, max) - 1, max)
    ensures Used(cnt, max) == Pow2(max) ==> huff == 0
  {
    hide Progress, Used, Rev;
  }

  lemma EnteredFinds(t: seq<Entry>, base: nat, a: Area, kind: CodeType, lens: seq<int>, cnt: seq<int>, max: nat,
                     used: int,
                     huff: int, x: int, s: nat)
    requires Entered(t, base, a, kind, lens, cnt, max, used, huff) && Starts(lens, cnt, x, s)
             && Rev(x, max) < Used(cnt, max)
    ensures 0 <= base + used <= |t| && s < |lens| <= Alphabet(kind)
    ensures Finds(t[..base + used], base, a.root, x, EntryOf(kind, s, lens[s]))
  {
    hide *;
    EnteredParts(t, base, a, kind, lens, cnt, max, used, huff);
    ProgressAt(t, base, a, kind, lens, cnt, max, Used(cnt, max), x, s);
    SymbolIsNoLink(kind, s, lens[s]);
    FindsLinked(t, base, a, x, EntryOf(kind, s, lens[s]));
  }

  lemma EnteredParts(t: seq<Entry>, base: nat, a: Area, kind: CodeType, lens: seq<int>, cnt: seq<int>, max: nat,
                     used: int, huff: int)
    requires Entered(t, base, a, kind, lens, cnt, max, used, huff)
    ensures max < |cnt| && Progress(t, base, a, kind, lens, cnt, max, Used(cnt, max)) && used == a.next + Pow2(a.curr)
    ensures base + a.next + Pow2(a.curr) <= |t|
    ensures a.drop == 0 ==> a.next == 0 && a.curr == a.root
    ensures a.drop != 0 ==> 0 < a.curr < 16 && a.next >= Pow2(a.root) && 0 <= a.low < Pow2(a.root)
  {
    hide Progress, Used, NextReversed, Pow2;
  }

  lemma LoneState(t: seq<Entry>, base: nat, a: Area, kind: CodeType, lens: seq<int>, cnt: seq<int>, used: int,
                  huff: int)
    requires Entered(t, base, a, kind, lens, cnt, 1, used, huff) && Used(cnt, 1) == 1
    ensures huff == 1 && a.drop == 0 && a.root == 1 && a.next == 0 && used == 2 && base + 2 <= |t|
    ensures Progress(t, base, a, kind, lens, cnt, 1, 1)
  {
    assert Rev(1, 1) == 1 && Pow2(1) == 2;
    hide Progress;
  }

  lemma OneBit(x: int)
    requires x >= 0
    ensures Rev(x, 1) == 0 || Rev(x, 1) == 1
    ensures Low(x, 1) == Rev(x, 1)
  {
    assert Rev(1, 1) == 1 && Rev(0, 1) == 0 && Pow2(1) == 2;
  }

  lemma LoneSymbol(lens: seq<int>, cnt: seq<int>) returns (s0: nat)
    requires Counts(lens, cnt) && |cnt| > 1 && Used(cnt, 1) == 1
    ensures forall x :: x >= 0 && Rev(x, 1) == 0 ==> Starts(lens, cnt, x, s0)
  {
    s0 := Nth(lens, 1, 0);
  }

  /** A lone code of one bit: the other bit is no code. */
  lemma DecodesLone(t: seq<Entry>, base: nat, a: Area, kind: CodeType, lens: seq<int>, cnt: seq<int>, used: int,
                    huff: int)
    requires Entered(t, base, a, kind, lens, cnt, 1, used, huff) && Counts(lens, cnt) && Fits(cnt)
             && |lens| <= Alphabet(kind)
    requires |cnt| > 1 && Used(cnt, 1) == 1 && forall b :: 2 <= b < |cnt| ==> cnt[b] == 0
    ensures huff == 1 && a.drop == 0 && a.root == 1 && a.next == 0 && used == 2 && base + 2 <= |t|
    ensures Decodes(t[base + 1 := INVALID][..base + 2], base, 1, kind, lens, cnt)
  {
    hide *;
    LoneState(t, base, a, kind, lens, cnt, used, huff);
    var u := t[base + 1 := INVALID][..base + 2];
    var s0 := LoneSymbol(lens, cnt);
    forall x, s: nat | Starts(lens, cnt, x, s)
      ensures s < |lens| && Finds(u, base, 1, x, EntryOf(kind, s, lens[s]))
    {
      StartsPositive(lens, cnt, x, s);
      LoneFinds(t, base, a, kind, lens, cnt, x, s);
    }
    forall x | NoCode(lens, cnt, x) ensures Finds(u, base, 1, x, INVALID) {
      LoneGap(lens, cnt, x, s0);
      OneBit(x);
      NoLink();
      FindsDirect(u, base, x, INVALID);
    }
    MakeDecodes(u, base, 1, kind, lens, cnt);
  }

  lemma MakeDecodes(t: seq<Entry>, base: nat, root: nat, kind: CodeType, lens: seq<int>, cnt: seq<int>)
    requires |lens| <= Alphabet(kind)
    requires forall x, s: nat :: Starts(lens, cnt, x, s) ==>
             s < |lens| && Finds(t, base, root, x, EntryOf(kind, s, lens[s]))
    requires forall x :: NoCode(lens, cnt, x) ==> Finds(t, base, root, x, INVALID)
    ensures Decodes(t, base, root, kind, lens, cnt)
  {
    hide Starts, EntryOf, Finds, NoCode;
  }

  lemma NoLink()
    ensures !Link(INVALID)
  {
  }

  lemma FindsDirect(u: seq<Entry>, base: nat, x: int, e: Entry)
    requires x >= 0 && base + Low(x, 1) < |u| && u[base + Low(x, 1)] == e && !Link(e)
    ensures Finds(u, base, 1, x, e)
  {
    hide Low;
  }

  lemma LoneGap(lens: seq<int>, cnt: seq<int>, x: int, s0: nat)
    requires NoCode(lens, cnt, x) && forall x :: x >= 0 && Rev(x, 1) == 0 ==> Starts(lens, cnt, x, s0)
    ensures x >= 0 && Rev(x, 1) == 1
  {
    OneBit(x);
    hide Starts;
  }

  lemma LoneFinds(t: seq<Entry>, base: nat, a: Area, kind: CodeType, lens: seq<int>, cnt: seq<int>, x: int, s: nat)
    requires Progress(t, base, a, kind, lens, cnt, 1, 1) && a.drop == 0 && a.root == 1 && base + 2 <= |t|
    requires Starts(lens, cnt, x, s) && Counts(lens, cnt) && Fits(cnt)
    requires |cnt| > 1 && Used(cnt, 1) == 1 && forall b :: 2 <= b < |cnt| ==> cnt[b] == 0
    ensures s < |lens| <= Alphabet(kind)
            && Finds(t[base + 1 := INVALID][..base + 2], base, 1, x, EntryOf(kind, s, lens[s]))
  {
    hide *;
    LoneStarts(lens, cnt, x, s);
    StartsPositive(lens, cnt, x, s);
    ProgressAt(t, base, a, kind, lens, cnt, 1, 1, x, s);
    SymbolIsNoLink(kind, s, lens[s]);
    OneBit(x);
    PlacedDirect(t, base, a, x, EntryOf(kind, s, lens[s]));
    FindsDirect(t[base + 1 := INVALID][..base + 2], base, x, EntryOf(kind, s, lens[s]));
  }

  lemma PlacedDirect(t: seq<Entry>, base: nat, a: Area, x: int, e: Entry)
    requires a.drop == 0 && a.root == 1 && x >= 0 && Placed(t, base, a, x, e)
    ensures base + Low(x, 1) < |t| && t[base + Low(x, 1)] == e
  {
    hide Low;
  }

  lemma LoneStarts(lens: seq<int>, cnt: seq<int>, x: int, s: nat)
    requires Starts(lens, cnt, x, s) && Counts(lens, cnt) && Fits(cnt)
    requires |cnt| > 1 && Used(cnt, 1) == 1 && forall b :: 2 <= b < |cnt| ==> cnt[b] == 0
    ensures Rev(x, 1) == 0
  {
    CountStep(lens, s, lens[s]);
    CountMono(lens, s + 1, |lens|, lens[s]);
    assert lens[..|lens|] == lens;
    CodeBounds(lens, cnt, s);
  }

  /** No codes at all: everything is invalid. */
  lemma DecodesNone(t: seq<Entry>, base: nat, kind: CodeType, lens: seq<int>, cnt: seq<int>)
    requires Counts(lens, cnt) && (forall b :: 1 <= b < |cnt| ==> cnt[b] == 0) && |lens| <= Alphabet(kind)
    requires base + 2 == |t| && t[base] == INVALID && t[base + 1] == INVALID
    ensures Decodes(t, base, 1, kind, lens, cnt)
  {
    forall x, s: nat ensures !Starts(lens, cnt, x, s) {
      if s < |lens| {
        CountStep(lens, s, lens[s]);
        CountMono(lens, s + 1, |lens|, lens[s]);
        assert lens[..|lens|] == lens;
      }
    }
    hide Starts;
    forall x | x >= 0 ensures Finds(t, base, 1, x, INVALID) {
      OneBit(x);
      FindsDirect(t, base, x, INVALID);
    }
  }

  // ----- the whole

  /** The root index: as requested, but within the lengths in use. */
  lemma RootFits(lens: seq<int>, cnt: seq<int>, kind: CodeType, min: nat, max: nat, bits: nat, root: nat, size: nat,
                 base: nat)
    requires Counted(lens, cnt) && Acceptable(kind, cnt) && 0 < min <= max <= MAXBITS && cnt[max] != 0
    requires (forall i :: 1 <= i < min ==> cnt[i] == 0) && (forall b :: max < b <= MAXBITS ==> cnt[b] == 0)
    requires 1 <= bits <= 9 && (kind.Lens? ==> bits == 9) && |lens| < Pow2(bits + 1) && |lens| <= Alphabet(kind)
    requires base + Enough(bits, |lens|) <= size
    requires root == var r := if bits > max then max else bits; if r < min then min else r
    ensures Space(size, base, kind, root, max, |lens|) && min <= root <= bits && (root < max ==> root == bits)
    ensures Used(cnt, max) == Pow2(max) || (max == 1 && Used(cnt, 1) == 1)
  {
    hide Counted, Acceptable, Used, Pow2, Alphabet;
    SpaceFilled(lens, cnt, kind, max);
    if max > 1 {
      ShortestWithin(lens, cnt, min, max, bits);
    }
    Pow2Mono(root, bits);
  }

  /** An acceptable set of lengths is complete at its longest length, or a lone code of one bit. */
  lemma SpaceFilled(lens: seq<int>, cnt: seq<int>, kind: CodeType, max: nat)
    requires Counted(lens, cnt) && Acceptable(kind, cnt) && 0 < max <= MAXBITS && cnt[max] != 0
    requires forall b :: max < b <= MAXBITS ==> cnt[b] == 0
    ensures Used(cnt, max) == Pow2(max) || (max == 1 && Used(cnt, 1) == 1)
  {
    hide *;
    CountedCounts(lens, cnt);
    LongestCases(kind, cnt, max);
    if max > 1 {
      SkipLengths(cnt, max, MAXBITS);
      UpOne(max);
      UpUp(1, max, MAXBITS - max);
      UpOne(MAXBITS);
      UpInjective(Used(cnt, max), Pow2(max), MAXBITS - max);
    }
  }

  lemma LongestCases(kind: CodeType, cnt: seq<int>, max: nat)
    requires |cnt| == MAXBITS + 1 && Acceptable(kind, cnt) && 0 < max <= MAXBITS && cnt[max] != 0
    requires forall b :: 0 <= b < |cnt| ==> cnt[b] >= 0
    ensures |cnt| == MAXBITS + 1 && MAXBITS == 15
    ensures max > 1 ==> Used(cnt, MAXBITS) == Pow2(MAXBITS)
    ensures max == 1 ==> Used(cnt, max) == Pow2(max) || Used(cnt, 1) == 1
  {
    hide Used, Pow2;
    UsedOne(cnt);
  }

  lemma UsedOne(cnt: seq<int>)
    requires |cnt| > 1
    ensures Used(cnt, 1) == cnt[1] && Pow2(1) == 2
  {
  }

  lemma {:induction false} UpInjective(a: int, b: int, k: nat)
    requires Up(a, k) == Up(b, k)
    ensures a == b
  {
    if k > 0 {
      UpInjective(a, b, k - 1);
    }
  }

  lemma ReadyFacts(w: seq<int>, kind: CodeType, lens: seq<int>, cnt: seq<int>, max: nat)
    requires Ready(w, kind, lens, cnt, max)
    ensures Counts(lens, cnt) && Fits(cnt) && |cnt| == MAXBITS + 1 && 0 < max < |cnt| && |lens| <= Alphabet(kind)
  {
  }

  lemma UsedBound(t: seq<Entry>, base: nat, a: Area, kind: CodeType, lens: seq<int>, cnt: seq<int>, max: nat, used: int,
                  huff: int,
                  root: nat, bits: nat)
    requires Entered(t, base, a, kind, lens, cnt, max, used, huff) && a.root == root <= bits <= 9
             && (root < max ==> root == bits)
    ensures 0 <= base + used <= |t| && used >= 0 && used <= Enough(bits, |lens|) && a.drop <= max
  {
    hide Progress, NextReversed, Used;
    Pow2Mono(root, bits);
  }

  /** Enter the codes of an acceptable set of lengths and fill the rest of the table. */
  method BuildTable(kind: CodeType, lens: seq<int>, table: array<Entry>, base: nat, root: nat, min: nat, max: nat,
                    count: array<int>, work: array<int>, ghost bits: nat, ghost cnt: seq<int>, ghost w: seq<int>)
    returns (ret: int, used: nat)
    requires count != work && cnt == count[..] && w == work[..] && Ready(w, kind, lens, cnt, max)
    requires Space(table.Length, base, kind, root, max, |lens|) && min <= root <= bits <= 9
             && (root < max ==> root == bits)
    requires 1 <= min <= max && cnt[min] != 0 && forall b :: 1 <= b < min ==> cnt[b] == 0
    requires max < |cnt| && (Used(cnt, max) == Pow2(max) || (max == 1 && Used(cnt, 1) == 1))
    requires forall b :: max < b <= MAXBITS ==> cnt[b] == 0
    modifies table, count
    ensures ret == 0 && base + used <= table.Length && table[..base] == old(table[..base])
    ensures Decodes(table[..base + used], base, root, kind, lens, cnt) && used <= Enough(bits, |lens|)
  {
    hide *;
    ghost var t0 := table[..];
    ReadyFacts(w, kind, lens, cnt, max);
    var huff, drop, low, next;
    ghost var a;
    ret, huff, drop, low, next, used, a := EnterCodes(kind, lens, table, base, root, min, max, count, work, cnt, w);
    ghost var t := table[..];
    UsedBound(t, base, a, kind, lens, cnt, max, used, huff, root, bits);
    if Used(cnt, max) == Pow2(max) {
      DecodesComplete(t, base, a, kind, lens, cnt, max, used, huff);
    } else {
      DecodesLone(t, base, a, kind, lens, cnt, used, huff);
    }
    FillRest(table, base, root, max, drop, low, next, huff);
    if huff != 0 {
      assert table[..base] == t[..base];
    }
  }

  /** `inflate_table`'s verdict: the counts admit a table unless this is negative. */
  lemma Verdict(kind: CodeType, cnt: seq<int>, max: nat, left: int)
    requires |cnt| == MAXBITS + 1 && 0 < max <= MAXBITS && cnt[max] != 0
             && forall b :: max < b <= MAXBITS ==> cnt[b] == 0
    requires (left < 0 <==> !Fits(cnt)) && (left >= 0 ==> left == Pow2(MAXBITS) - Used(cnt, MAXBITS))
    ensures Acceptable(kind, cnt) <==> left >= 0 && !(left > 0 && (kind == Codes || max != 1))
  {
    hide Fits, Used, Pow2;
  }

  /** What `inflate_table` leaves: a table that decodes the code, unless the lengths are refused. */
  ghost predicate Built(t: seq<Entry>, base: nat, kind: CodeType, lens: seq<int>, cnt: seq<int>, bits0: nat, ret: int,
                        used: nat, bits: nat) {
    && Counted(lens, cnt) && |cnt| == MAXBITS + 1 && ret == (if Acceptable(kind, cnt) then 0 else -1) && bits0 <= 15
    && (ret == 0 ==> 1 <= bits <= bits0 && used <= Enough(bits0, |lens|) && base + used <= |t|
                     && Fits(cnt) && Decodes(t[..base + used], base, bits, kind, lens, cnt)
                     && (bits == bits0 || NoLonger(lens, bits)))
  }

  ghost predicate NoLonger(lens: seq<int>, top: int) {
    forall s :: 0 <= s < |lens| ==> lens[s] <= top
  }

  lemma NoLongerMore(lens: seq<int>, a: int, b: int)
    requires NoLonger(lens, a) && a <= b
    ensures NoLonger(lens, b)
  {
  }

  lemma LongestUsed(lens: seq<int>, cnt: seq<int>, max: nat)
    requires Counted(lens, cnt) && (forall b :: max < b <= MAXBITS ==> cnt[b] == 0)
    requires forall i :: 0 <= i < |lens| ==> 0 <= lens[i] <= MAXBITS
    ensures NoLonger(lens, max)
  {
    forall s | 0 <= s < |lens| ensures lens[s] <= max {
      CountStep(lens, s, lens[s]);
      CountMono(lens, s + 1, |lens|, lens[s]);
      assert lens[..|lens|] == lens;
    }
  }

  /** The case where some symbol has a code. */
  method SomeCodes(kind: CodeType, lens: seq<int>, table: array<Entry>, base: nat, bits0: nat, work: array<int>,
                   count: array<int>, min: nat, max: nat, ghost cnt: seq<int>)
    returns (ret: int, used: nat, bits: nat)
    requires |lens| <= Alphabet(kind) && |lens| <= work.Length
             && forall i :: 0 <= i < |lens| ==> 0 <= lens[i] <= MAXBITS
    requires 1 <= bits0 <= 9 && (kind.Lens? ==> bits0 == 9) && |lens| < Pow2(bits0 + 1)
    requires base + Enough(bits0, |lens|) <= table.Length
    requires count != work && cnt == count[..] && Counted(lens, cnt) && |cnt| == MAXBITS + 1
    requires 1 <= min <= max <= MAXBITS && cnt[min] != 0 && cnt[max] != 0
    requires (forall b :: 1 <= b < min ==> cnt[b] == 0) && (forall b :: max < b <= MAXBITS ==> cnt[b] == 0)
    modifies table, work, count
    ensures base <= table.Length && table[..base] == old(table[..base])
    ensures Built(table[..], base, kind, lens, cnt, bits0, ret, used, bits)
  {
    hide *;
    CountedCounts(lens, cnt);
    LongestUsed(lens, cnt, max);
    used, bits := 0, bits0;
    var root := bits0;
    if root > max {
      root := max;
    }
    if root < min {
      root := min;
    }
    var left := SpaceLeft(count, cnt);
    Verdict(kind, cnt, max, left);
    ret := -1;
    if !(left < 0) {
      if !(left > 0 && (kind == Codes || max != 1)) {
        SortSymbols(lens, count, work, cnt);
        RootFits(lens, cnt, kind, min, max, bits0, root, table.Length, base);
        MakeReady(work[..], kind, lens, cnt, max);
        ret, used := BuildTable(kind, lens, table, base, root, min, max, count, work, bits0, cnt, work[..]);
        bits := root;
      }
    }
    MakeBuilt(table[..], base, kind, lens, cnt, bits0, ret, used, bits);
  }

  lemma MakeBuilt(t: seq<Entry>, base: nat, kind: CodeType, lens: seq<int>, cnt: seq<int>, bits0: nat, ret: int,
                  used: nat, bits: nat)
    requires Counted(lens, cnt) && |cnt| == MAXBITS + 1 && ret == (if Acceptable(kind, cnt) then 0 else -1)
             && bits0 <= 15
    requires ret == 0 ==> 1 <= bits <= bits0 && used <= Enough(bits0, |lens|) && base + used <= |t|
    requires ret == 0 ==> base + used <= |t| && Decodes(t[..base + used], base, bits, kind, lens, cnt)
    requires ret == 0 ==> bits == bits0 || NoLonger(lens, bits)
    ensures Built(t, base, kind, lens, cnt, bits0, ret, used, bits)
  {
    hide Counted, Decodes, Fits, NoLonger;
  }

  /**
   Build a decoding table at table[base..] for the given code lengths.  The result is
   zero exactly when the lengths form a complete code, no code at all, or, outside the
   code length code, a lone code of one bit; then the table decodes that code.  The
   space check never fires: `used` is at most Enough(bits0, |lens|).
   */
  method InflateTable(kind: CodeType, lens: seq<int>, table: array<Entry>, base: nat, bits0: nat, work: array<int>)
    returns (ret: int, used: nat, bits: nat, ghost cnt: seq<int>)
    requires |lens| <= Alphabet(kind) && |lens| <= work.Length
             && forall i :: 0 <= i < |lens| ==> 0 <= lens[i] <= MAXBITS
    requires 1 <= bits0 <= 9 && (kind.Lens? ==> bits0 == 9) && |lens| < Pow2(bits0 + 1)
    requires base + Enough(bits0, |lens|) <= table.Length
    modifies table, work
    ensures base <= table.Length && table[..base] == old(table[..base])
    ensures Built(table[..], base, kind, lens, cnt, bits0, ret, used, bits)
  {
    var count := new int[MAXBITS + 1];
    hide *;
    CountLengths(lens, count);
    cnt := count[..];
    CountedCounts(lens, cnt);
    var min, max := LengthRange(count, cnt);
    EnoughRoom(bits0, |lens|);
    if max == 0 {
      ret, used, bits := NoCodes(kind, lens, table, base, bits0, cnt);
    } else {
      ret, used, bits := SomeCodes(kind, lens, table, base, bits0, work, count, min, max, cnt);
    }
  }

  /** Without any codes the table has two entries, both invalid. */
  method NoCodes(kind: CodeType, lens: seq<int>, table: array<Entry>, base: nat, bits0: nat, ghost cnt: seq<int>)
    returns (ret: int, used: nat, bits: nat)
    requires |lens| <= Alphabet(kind) && Counted(lens, cnt) && |cnt| == MAXBITS + 1 && Counts(lens, cnt)
    requires (forall b :: 1 <= b < |cnt| ==> cnt[b] == 0) && cnt[0] >= 0 && 1 <= bits0 <= 9
    requires forall i :: 0 <= i < |lens| ==> 0 <= lens[i] <= MAXBITS
    requires Enough(bits0, |lens|) >= 2 && base + Enough(bits0, |lens|) <= table.Length
    modifies table
    ensures base <= table.Length && table[..base] == old(table[..base])
    ensures Built(table[..], base, kind, lens, cnt, bits0, ret, used, bits)
  {
    hide *;
    table[base] := INVALID;
    table[base + 1] := INVALID;
    ret, used, bits := 0, 2, 1;
    NoneAcceptable(kind, cnt);
    LongestUsed(lens, cnt, 0);
    NoLongerMore(lens, 0, 1);
    DecodesNone(table[..base + 2], base, kind, lens, cnt);
    MakeBuilt(table[..], base, kind, lens, cnt, bits0, ret, used, bits);
  }

  lemma EnoughRoom(bits: nat, codes: nat)
    requires 1 <= bits <= 9
    ensures 2 <= Enough(bits, codes)
  {
    Pow2Mono(1, bits);
  }

  lemma NoneAcceptable(kind: CodeType, cnt: seq<int>)
    requires |cnt| == MAXBITS + 1 && (forall b :: 0 < b <= MAXBITS ==> cnt[b] == 0) && cnt[0] >= 0
    ensures Acceptable(kind, cnt) && Fits(cnt)
  {
    forall b: nat | b < |cnt| ensures Used(cnt, b) == 0 {
      SkipLengths(cnt, 0, b);
      ZeroUp(b);
    }
    hide Used;
  }

  lemma MakeReady(w: seq<int>, kind: CodeType, lens: seq<int>, cnt: seq<int>, max: nat)
    requires Counted(lens, cnt) && Acceptable(kind, cnt) && Sorted(w, lens, cnt) && 0 < max <= MAXBITS && cnt[max] != 0
    requires |lens| <= Alphabet(kind)
    ensures Ready(w, kind, lens, cnt, max) && Fits(cnt)
  {
    hide Counted, Sorted, Fits;
  }
}
