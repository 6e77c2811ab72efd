/**
 How `inflate_table` fills the table, code by code.  Codes are taken in
 increasing order, so at every moment the bit strings below the current code are
 the ones already placed; the lemmas carry that frontier forward.
 */
module TableFill {
  import opened Arith
  import opened Canonical
  import opened BitOrder
  import opened DecodeTable

  /** The table being filled: curr index bits at next; drop is zero for the root table. */
  datatype Area = Area(root: nat, drop: nat, curr: nat, next: nat, low: int)

  /** The entry for x stands where a lookup will find it, once the current table is complete. */
  ghost predicate Placed(t: seq<Entry>, base: nat, a: Area, x: int, e: Entry)
    requires x >= 0
  {
    if a.drop == 0 then
      base + Low(x, a.root) < |t| && t[base + Low(x, a.root)] == e
    else if Low(x, a.root) == a.low then
      && base + a.next + Low(Shr(x, a.root), a.curr) < |t| && base + a.low < |t|
      && t[base + a.low] == Entry(a.curr, a.root, a.next) && e.bits > a.root
      && t[base + a.next + Low(Shr(x, a.root), a.curr)] == Entry(e.op, e.bits - a.root, e.val)
    else
      base + a.next <= |t| && Finds(t[..base + a.next], base, a.root, x, e)
  }

  /** Every bit string that starts with a code below c of len bits is placed. */
  ghost predicate Progress(t: seq<Entry>, base: nat, a: Area, kind: CodeType, lens: seq<int>, cnt: seq<int>, len: nat,
                           c: int) {
    && |lens| <= Alphabet(kind)
    && forall x, s: nat :: Starts(lens, cnt, x, s) && Rev(x, len) < c ==>
    Placed(t, base, a, x, EntryOf(kind, s, lens[s]))
  }

  /** Entries of the region of size 2^k at index i whose low n bits are h are set to e. */
  ghost predicate Replicated(t: seq<Entry>, u: seq<Entry>, i: nat, k: nat, n: nat, h: int, e: Entry) {
    && |u| == |t| && i + Pow2(k) <= |t|
    && (forall j :: 0 <= j < Pow2(k) ==> u[i + j] == if Low(j, n) == h then e else t[i + j])
    && (forall m :: 0 <= m < |t| && !(i <= m < i + Pow2(k)) ==> u[m] == t[m])
  }

  /** The symbol whose code the current code is. */
  ghost predicate Current(lens: seq<int>, cnt: seq<int>, s: nat, len: nat, c: int) {
    s < |lens| && lens[s] == len && 0 < len < |cnt| && c == Code(lens, cnt, s)
  }

  /** A bit string whose first bits are the current code starts with the current symbol alone. */
  lemma CurrentStarts(lens: seq<int>, cnt: seq<int>, s: nat, len: nat, c: int, x: int, u: nat)
    requires Counts(lens, cnt) && Fits(cnt) && Current(lens, cnt, s, len, c)
    requires Starts(lens, cnt, x, u) && Rev(x, len) == c
    ensures u == s
  {
    StartsUnique(lens, cnt, x, s, u);
  }

  lemma FillRootAt(t: seq<Entry>, t': seq<Entry>, base: nat, a: Area, kind: CodeType, lens: seq<int>, cnt: seq<int>,
                   len: nat, c: int, s: nat, x: int, u: nat)
    requires Progress(t, base, a, kind, lens, cnt, len, c) && Counts(lens, cnt) && Fits(cnt)
    requires a.drop == 0 && 0 < len <= a.root && 0 <= c < Pow2(len) && Current(lens, cnt, s, len, c)
    requires Replicated(t, t', base, a.root, len, Rev(c, len), EntryOf(kind, s, len))
    requires Starts(lens, cnt, x, u) && Rev(x, len) < c + 1
    ensures Placed(t', base, a, x, EntryOf(kind, u, lens[u]))
  {
    LowLow(x, len, a.root);
    LowRev(x, len, c);
    if Rev(x, len) == c {
      CurrentStarts(lens, cnt, s, len, c, x, u);
    }
    CurrentLen(lens, cnt, s, len, c);
    StartsPositive(lens, cnt, x, u);
    hide *;
    ProgressAt(t, base, a, kind, lens, cnt, len, c, x, u);
    RootWrite(t, t', base, a, x, EntryOf(kind, u, lens[u]), len, Rev(c, len), EntryOf(kind, s, len));
  }

  lemma CurrentLen(lens: seq<int>, cnt: seq<int>, s: nat, len: nat, c: int)
    requires Current(lens, cnt, s, len, c)
    ensures s < |lens| && lens[s] == len
  {
  }

  lemma StartsPositive(lens: seq<int>, cnt: seq<int>, x: int, s: nat)
    requires Starts(lens, cnt, x, s)
    ensures x >= 0 && s < |lens|
  {
  }

  lemma ProgressAt(t: seq<Entry>, base: nat, a: Area, kind: CodeType, lens: seq<int>, cnt: seq<int>, len: nat, c: int,
                   x: int, u: nat)
    requires Progress(t, base, a, kind, lens, cnt, len, c) && Starts(lens, cnt, x, u)
    ensures x >= 0 && u < |lens| <= Alphabet(kind)
    ensures Rev(x, len) < c ==> Placed(t, base, a, x, EntryOf(kind, u, lens[u]))
  {
    hide EntryOf, Placed, Rev;
  }

  /** What a write to the root table does to the placement of x. */
  lemma RootWrite(t: seq<Entry>, t': seq<Entry>, base: nat, a: Area, x: int, e: Entry, n: nat, h: int, v: Entry)
    requires a.drop == 0 && x >= 0 && Replicated(t, t', base, a.root, n, h, v)
    requires if Low(Low(x, a.root), n) == h then e == v else Placed(t, base, a, x, e)
    ensures Placed(t', base, a, x, e)
  {
    hide Low;
  }

  /** A code no longer than the root index is placed in the root table. */
  lemma FillRoot(t: seq<Entry>, t': seq<Entry>, base: nat, a: Area, kind: CodeType, lens: seq<int>, cnt: seq<int>,
                 len: nat, c: int, s: nat)
    requires Progress(t, base, a, kind, lens, cnt, len, c) && Counts(lens, cnt) && Fits(cnt)
    requires a.drop == 0 && 0 < len <= a.root && 0 <= c < Pow2(len) && Current(lens, cnt, s, len, c)
    requires Replicated(t, t', base, a.root, len, Rev(c, len), EntryOf(kind, s, len))
    ensures Progress(t', base, a, kind, lens, cnt, len, c + 1)
  {
    forall x, u: nat | Starts(lens, cnt, x, u) && Rev(x, len) < c + 1
      ensures Placed(t', base, a, x, EntryOf(kind, u, lens[u]))
    {
      FillRootAt(t, t', base, a, kind, lens, cnt, len, c, s, x, u);
    }
  }

  /** The current sub-table belongs to the prefix of the current code and has room for it. */
  ghost predicate InSubTable(a: Area, len: nat, c: int) {
    && 0 < a.root == a.drop < len <= a.root + a.curr && 0 <= c < Pow2(len)
    && a.low == Low(Rev(c, len), a.root) && a.next >= Pow2(a.root)
  }

  lemma FillSubAt(t: seq<Entry>, t': seq<Entry>, base: nat, a: Area, kind: CodeType, lens: seq<int>, cnt: seq<int>,
                  len: nat, c: int, s: nat, x: int, u: nat)
    requires Progress(t, base, a, kind, lens, cnt, len, c) && Counts(lens, cnt) && Fits(cnt)
    requires InSubTable(a, len, c) && Current(lens, cnt, s, len, c)
    requires base + a.low < |t| && t[base + a.low] == Entry(a.curr, a.root, a.next)
    requires var e := EntryOf(kind, s, len);
             Replicated(t, t', base + a.next, a.curr, len - a.root, Shr(Rev(c, len), a.root),
                        Entry(e.op, e.bits - a.root, e.val))
    requires Starts(lens, cnt, x, u) && Rev(x, len) < c + 1
    ensures Placed(t', base, a, x, EntryOf(kind, u, lens[u]))
  {
    StartsPositive(lens, cnt, x, u);
    if Rev(x, len) == c {
      CurrentStarts(lens, cnt, s, len, c, x, u);
      SubSame(x, c, a, len);
    } else {
      SubOther(x, c, a, len);
    }
    CurrentLen(lens, cnt, s, len, c);
    SubTableLow(a, len, c);
    hide *;
    ProgressAt(t, base, a, kind, lens, cnt, len, c, x, u);
    var e := EntryOf(kind, s, len);
    SubWrite(t, t', base, a, x, EntryOf(kind, u, lens[u]), len - a.root, Shr(Rev(c, len), a.root),
             Entry(e.op, e.bits - a.root, e.val));
  }

  lemma SubTableLow(a: Area, len: nat, c: int)
    requires InSubTable(a, len, c)
    ensures 0 <= a.low < Pow2(a.root) <= a.next && a.drop == a.root > 0 && c >= 0 && a.root < len
  {
  }

  /** What a write to the current sub-table does to the placement of x. */
  lemma SubWrite(t: seq<Entry>, t': seq<Entry>, base: nat, a: Area, x: int, e: Entry, n: nat, h: int, v: Entry)
    requires a.drop != 0 && x >= 0 && Replicated(t, t', base + a.next, a.curr, n, h, v)
    requires 0 <= a.low < Pow2(a.root) <= a.next && base + a.low < |t|
             && t[base + a.low] == Entry(a.curr, a.root, a.next)
    requires if Low(x, a.root) == a.low && Low(Low(Shr(x, a.root), a.curr), n) == h
             then v == Entry(e.op, e.bits - a.root, e.val) && e.bits > a.root
             else Placed(t, base, a, x, e)
    ensures Placed(t', base, a, x, e)
  {
    assert t'[..base + a.next] == t[..base + a.next];
    hide Low, Finds, Shr;
  }

  lemma RootLow(x: int, c: int, root: nat, len: nat)
    requires x >= 0 && 0 <= c < Pow2(len) && root <= len
    ensures Low(x, root) == Low(Rev(c, len), root) <==> Rev(x, root) == Shr(c, len - root)
  {
    var h := Rev(c, len);
    RevRev(c, len);
    RevPrefix(h, len, root);
    RevRev(Rev(x, root), root);
    RevRev(Rev(h, root), root);
  }

  lemma SubSame(x: int, c: int, a: Area, len: nat)
    requires InSubTable(a, len, c) && x >= 0 && Rev(x, len) == c
    ensures Low(x, a.root) == a.low
    ensures Low(Low(Shr(x, a.root), a.curr), len - a.root) == Shr(Rev(c, len), a.root)
  {
    RootLow(x, c, a.root, len);
    RevPrefix(x, len, a.root);
    SplitCode(x, c, a.root, len);
    LowLow(Shr(x, a.root), len - a.root, a.curr);
  }

  lemma SubOther(x: int, c: int, a: Area, len: nat)
    requires InSubTable(a, len, c) && x >= 0 && Rev(x, len) != c
    ensures Low(x, a.root) == a.low ==> Low(Low(Shr(x, a.root), a.curr), len - a.root) != Shr(Rev(c, len), a.root)
  {
    RootLow(x, c, a.root, len);
    SplitCode(x, c, a.root, len);
    LowLow(Shr(x, a.root), len - a.root, a.curr);
  }

  /** A longer code is placed in the current sub-table. */
  lemma FillSub(t: seq<Entry>, t': seq<Entry>, base: nat, a: Area, kind: CodeType, lens: seq<int>, cnt: seq<int>,
                len: nat, c: int, s: nat)
    requires Progress(t, base, a, kind, lens, cnt, len, c) && Counts(lens, cnt) && Fits(cnt)
    requires InSubTable(a, len, c) && Current(lens, cnt, s, len, c)
    requires base + a.low < |t| && t[base + a.low] == Entry(a.curr, a.root, a.next)
    requires var e := EntryOf(kind, s, len);
             Replicated(t, t', base + a.next, a.curr, len - a.root, Shr(Rev(c, len), a.root),
                        Entry(e.op, e.bits - a.root, e.val))
    ensures Progress(t', base, a, kind, lens, cnt, len, c + 1)
    ensures t'[base + a.low] == Entry(a.curr, a.root, a.next)
  {
    SubTableLow(a, len, c);
    forall x, u: nat | Starts(lens, cnt, x, u) && Rev(x, len) < c + 1
      ensures Placed(t', base, a, x, EntryOf(kind, u, lens[u]))
    {
      FillSubAt(t, t', base, a, kind, lens, cnt, len, c, s, x, u);
    }
  }

  // ----- the next code

  /** The frontier in longer codes. */
  lemma Lengthen(t: seq<Entry>, base: nat, a: Area, kind: CodeType, lens: seq<int>, cnt: seq<int>, len: nat, c: int,
                 k: nat)
    requires Progress(t, base, a, kind, lens, cnt, len, c)
    ensures Progress(t, base, a, kind, lens, cnt, len + k, Up(c, k))
  {
    forall x, s: nat | Starts(lens, cnt, x, s) && Rev(x, len + k) < Up(c, k)
      ensures Placed(t, base, a, x, EntryOf(kind, s, lens[s]))
    {
      RevBelow(x, len, k, c);
    }
  }

  /** c is a multiple of 2^k. */
  ghost predicate Aligned(c: int, k: nat) {
    c >= 0 && c == Up(Shr(c, k), k)
  }

  lemma AlignedIs(c: int, k: nat)
    requires Aligned(c, k)
    ensures c >= 0 && c == Up(Shr(c, k), k)
  {
  }

  lemma MakeAligned(p: int, c: int, k: nat)
    requires c >= 0 && c == Up(p, k) && Shr(c, k) == p
    ensures Aligned(c, k)
  {
  }

  lemma {:induction false} ShrBelow(y: int, p: int, k: nat)
    requires y >= 0 && p >= 0
    ensures y < Up(p, k) <==> Shr(y, k) < p
    decreases k
  {
    if k > 0 {
      ShrBelow(y / 2, p, k - 1);
    }
  }

  /** When the prefix changes from c to c + 1, the rest of c + 1 is zero. */
  lemma {:induction false} Carry(c: int, k: nat)
    requires c >= 0 && Shr(c + 1, k) != Shr(c, k)
    ensures Aligned(c + 1, k)
  {
    if k > 0 {
      assert (c + 1) / 2 != c / 2;
      assert (c + 1) / 2 == c / 2 + 1;
      Carry(c / 2, k - 1);
    }
  }

  lemma AlignedUp(c: int, j: nat, k: nat)
    requires Aligned(c, k)
    ensures Aligned(Up(c, j), k + j) && Shr(Up(c, j), k + j) == Shr(c, k)
  {
    ShrUp(c, j);
    ShrAdd(Up(c, j), j, k);
    UpUp(Shr(c, k), k, j);
  }

  lemma FindsMore(t: seq<Entry>, t': seq<Entry>, base: nat, root: nat, x: int, e: Entry)
    requires Finds(t, base, root, x, e) && t <= t'
    ensures Finds(t', base, root, x, e)
  {
  }

  lemma FindsLinked(t: seq<Entry>, base: nat, a: Area, x: int, e: Entry)
    requires x >= 0 && Placed(t, base, a, x, e) && !Link(e) && base + a.next + Pow2(a.curr) <= |t|
    requires a.drop == 0 ==> a.next == 0 && a.curr == a.root
    requires a.drop != 0 ==> 0 < a.curr < 16 && a.next >= Pow2(a.root) && 0 <= a.low < Pow2(a.root)
    ensures Finds(t[..base + a.next + Pow2(a.curr)], base, a.root, x, e)
  {
    var u := t[..base + a.next + Pow2(a.curr)];
    if a.drop != 0 && Low(x, a.root) != a.low {
      FindsMore(t[..base + a.next], u, base, a.root, x, e);
    }
  }

  lemma FindsUpdate(t: seq<Entry>, base: nat, root: nat, x: int, e: Entry, i: nat, v: Entry)
    requires Finds(t, base, root, x, e) && i < Pow2(root) && i != Low(x, root) && base + i < |t|
    ensures Finds(t[base + i := v], base, root, x, e)
  {
    hide Low, Shr;
  }

  /** Starting a sub-table for a prefix that no placed bit string has. */
  lemma NewSub(t: seq<Entry>, base: nat, a: Area, b: Area, kind: CodeType, lens: seq<int>, cnt: seq<int>, len: nat,
               c: int)
    requires Progress(t, base, a, kind, lens, cnt, len, c) && base + a.next + Pow2(a.curr) <= |t|
    requires a.drop == 0 ==> a.next == 0 && a.curr == a.root
    requires a.drop != 0 ==> 0 < a.curr < 16 && a.next >= Pow2(a.root) && 0 <= a.low < Pow2(a.root)
    requires 0 < a.root == b.root == b.drop < len && b.next == a.next + Pow2(a.curr) && b.next >= Pow2(a.root)
    requires 0 <= c < Pow2(len) && b.low == Low(Rev(c, len), a.root) && Aligned(c, len - a.root)
    ensures Progress(t[base + b.low := Entry(b.curr, b.root, b.next)], base, b, kind, lens, cnt, len, c)
  {
    var v := Entry(b.curr, b.root, b.next);
    var t' := t[base + b.low := v];
    forall x, s: nat | Starts(lens, cnt, x, s) && Rev(x, len) < c
      ensures Placed(t', base, b, x, EntryOf(kind, s, lens[s]))
    {
      var e := EntryOf(kind, s, lens[s]);
      SymbolIsNoLink(kind, s, lens[s]);
      PrefixBelow(x, c, a.root, len);
      assert Placed(t, base, a, x, e);
      NewSubAt(t, base, a, b, x, e);
    }
  }

  lemma PrefixBelow(x: int, c: int, root: nat, len: nat)
    requires x >= 0 && 0 <= c < Pow2(len) && root <= len && Aligned(c, len - root) && Rev(x, len) < c
    ensures Low(x, root) != Low(Rev(c, len), root)
  {
    hide *;
    RootLow(x, c, root, len);
    RevPrefix(x, len, root);
    AlignedIs(c, len - root);
    ShrBelow(Rev(x, len), Shr(c, len - root), len - root);
  }

  lemma NewSubAt(t: seq<Entry>, base: nat, a: Area, b: Area, x: int, e: Entry)
    requires x >= 0 && Placed(t, base, a, x, e) && !Link(e) && base + a.next + Pow2(a.curr) <= |t|
    requires a.drop == 0 ==> a.next == 0 && a.curr == a.root
    requires a.drop != 0 ==> 0 < a.curr < 16 && a.next >= Pow2(a.root) && 0 <= a.low < Pow2(a.root)
    requires 0 < a.root == b.root == b.drop && b.next == a.next + Pow2(a.curr) && b.next >= Pow2(a.root)
    requires 0 <= b.low < Pow2(a.root) && Low(x, a.root) != b.low
    ensures Placed(t[base + b.low := Entry(b.curr, b.root, b.next)], base, b, x, e)
  {
    FindsLinked(t, base, a, x, e);
    var v := Entry(b.curr, b.root, b.next);
    var u := t[..base + b.next];
    FindsUpdate(u, base, a.root, x, e, b.low, v);
    assert t[base + b.low := v][..base + b.next] == u[base + b.low := v];
  }
}
