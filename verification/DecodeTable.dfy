/**
 The decoding table that `inflate_table` builds and what looking up a bit string
 in it means.  A root table is indexed with the first bits of the input; codes
 longer than that continue in a sub-table named by the root entry.
 */
module DecodeTable {
  import opened Arith
  import opened Canonical
  import opened BitOrder

  datatype Entry = Entry(op: int, bits: int, val: int)

  datatype CodeType = Codes | Lens | Dists

  const LBASE: seq<int> := [
    3, 4, 5, 6, 7, 8, 9, 10, 11, 13, 15, 17, 19, 23, 27, 31,
    35, 43, 51, 59, 67, 83, 99, 115, 131, 163, 195, 227, 258, 0, 0]
  const LEXT: seq<int> := [
    16, 16, 16, 16, 16, 16, 16, 16, 17, 17, 17, 17, 18, 18, 18, 18,
    19, 19, 19, 19, 20, 20, 20, 20, 21, 21, 21, 21, 16, 201, 196]
  const DBASE: seq<int> := [
    1, 2, 3, 4, 5, 7, 9, 13, 17, 25, 33, 49, 65, 97, 129, 193,
    257, 385, 513, 769, 1025, 1537, 2049, 3073, 4097, 6145,
    8193, 12289, 16385, 24577, 0, 0]
  const DEXT: seq<int> := [
    16, 16, 16, 16, 17, 17, 18, 18, 19, 19, 20, 20, 21, 21, 22, 22,
    23, 23, 24, 24, 25, 25, 26, 26, 27, 27,
    28, 28, 29, 29, 64, 64]

  /** Size of the alphabet of each code. */
  function Alphabet(t: CodeType): nat {
    match t
    case Codes => 19
    case Lens => 288
    case Dists => 32
  }

  /** The entry of symbol s, of which b bits remain to be dropped. */
  function EntryOf(t: CodeType, s: nat, b: int): Entry
    requires s < Alphabet(t)
  {
    match t
    case Codes => Entry(0, b, s)
    case Lens =>
      if s < 256 then Entry(0, b, s)
      else if s == 256 then Entry(96, b, 0)
      else Entry(LEXT[s - 257], b, LBASE[s - 257])
    case Dists => Entry(DEXT[s], b, DBASE[s])
  }

  /** An entry that points at a sub-table indexed with op bits. */
  predicate Link(e: Entry) {
    0 < e.op < 16
  }

  lemma SymbolIsNoLink(t: CodeType, s: nat, b: int)
    requires s < Alphabet(t)
    ensures !Link(EntryOf(t, s, b))
  {
  }

  /** The low n bits of x. */
  function Low(x: int, n: nat): (r: int)
    requires x >= 0
    ensures 0 <= r < Pow2(n)
  {
    Rev(Rev(x, n), n)
  }

  lemma LowIsMod(x: int, n: nat)
    requires x >= 0
    ensures Low(x, n) == x % Pow2(n)
  {
    RevMod(x, n);
    DivMod(x, Pow2(n));
    RevRev(x % Pow2(n), n);
  }

  /**
   Looking up the bit string x in the table that starts at t[base] finds the entry e,
   the bits of a link counted in.  All entries read lie in t, sub-tables after the root.
   */
  ghost predicate Finds(t: seq<Entry>, base: nat, root: nat, x: int, e: Entry) {
    && x >= 0 && base + Low(x, root) < |t|
    && var first := t[base + Low(x, root)];
       if Link(first) then
         && first.val >= Pow2(root) && base + first.val + Low(Shr(x, root), first.op) < |t|
         && var second := t[base + first.val + Low(Shr(x, root), first.op)];
            && !Link(second) && first.bits == root && second.bits > 0
            && e == Entry(second.op, first.bits + second.bits, second.val)
       else e == first
  }

  const INVALID := Entry(64, 1, 0)

  /** x starts with no code. */
  ghost predicate NoCode(lens: seq<int>, cnt: seq<int>, x: int) {
    x >= 0 && forall s: nat :: !Starts(lens, cnt, x, s)
  }

  /** Looking up a bit string that starts with a symbol's code finds the symbol. */
  ghost predicate FindsCodes(t: seq<Entry>, base: nat, root: nat, kind: CodeType, lens: seq<int>, cnt: seq<int>) {
    && |lens| <= Alphabet(kind)
    && forall x, s: nat :: Starts(lens, cnt, x, s) ==> Finds(t, base, root, x, EntryOf(kind, s, lens[s]))
  }

  /** Looking up a bit string that starts with no code finds the invalid code marker. */
  ghost predicate FindsGaps(t: seq<Entry>, base: nat, root: nat, lens: seq<int>, cnt: seq<int>) {
    forall x :: NoCode(lens, cnt, x) ==> Finds(t, base, root, x, INVALID)
  }

  /** The table decodes exactly the canonical code of lens, and marks what is no code. */
  ghost predicate Decodes(t: seq<Entry>, base: nat, root: nat, kind: CodeType, lens: seq<int>, cnt: seq<int>) {
    FindsCodes(t, base, root, kind, lens, cnt) && FindsGaps(t, base, root, lens, cnt)
  }

  // ----- bits of x, in both orders

  /** A number of n bits is its own low part. */
  lemma LowAll(x: int, n: nat)
    requires 0 <= x < Pow2(n)
    ensures Low(x, n) == x
  {
    RevRev(x, n);
  }

  /** The first n bits and the next m bits make up the first n + m bits. */
  lemma {:induction false} RevSplit(x: int, n: nat, m: nat)
    requires x >= 0
    ensures Rev(x, n + m) == Up(Rev(x, n), m) + Rev(Shr(x, n), m)
    decreases m
  {
    if m > 0 {
      RevSplit(x, n, m - 1);
      ShrAdd(x, n, m - 1);
    }
  }

  /** c followed by k zero bits. */
  function Up(c: int, k: nat): int {
    if k == 0 then c else 2 * Up(c, k - 1)
  }

  lemma {:induction false} ZeroUp(k: nat)
    ensures Up(0, k) == 0
  {
    if k > 0 {
      ZeroUp(k - 1);
    }
  }

  lemma {:induction false} UpMono(a: int, b: int, k: nat)
    requires a <= b
    ensures Up(a, k) <= Up(b, k)
  {
    if k > 0 {
      UpMono(a, b, k - 1);
    }
  }

  lemma {:induction false} UpSum(a: int, b: int, k: nat)
    ensures Up(a + b, k) == Up(a, k) + Up(b, k)
  {
    if k > 0 {
      UpSum(a, b, k - 1);
    }
  }

  lemma {:induction false} UpOne(k: nat)
    ensures Up(1, k) == Pow2(k)
  {
    if k > 0 {
      UpOne(k - 1);
    }
  }

  lemma {:induction false} UpUp(c: int, j: nat, k: nat)
    ensures Up(Up(c, j), k) == Up(c, j + k)
  {
    if k > 0 {
      UpUp(c, j, k - 1);
    }
  }

  lemma EightUp(x: int)
    ensures Up(x, 8) == 256 * x
  {
    assert Up(x, 1) == 2 * x;
    assert Up(x, 3) == 8 * x;
    assert Up(x, 5) == 32 * x;
    assert Up(x, 7) == 128 * x;
  }

  lemma {:induction false} ShrUp(c: int, k: nat)
    requires c >= 0
    ensures Up(c, k) >= 0 && Shr(Up(c, k), k) == c
  {
    if k > 0 {
      ShrUp(c, k - 1);
      assert Up(c, k) / 2 == Up(c, k - 1);
    }
  }

  /** Below c in the first n bits is below c with zeros appended in more bits. */
  lemma {:induction false} RevBelow(x: int, n: nat, k: nat, c: int)
    requires x >= 0
    ensures Rev(x, n + k) < Up(c, k) <==> Rev(x, n) < c
    decreases k
  {
    if k > 0 {
      RevBelow(x, n, k - 1, c);
    }
  }

  /** Appending zero bits to a code leaves its reversal as a number unchanged. */
  lemma {:induction false} RevUp(c: int, n: nat, k: nat)
    requires c >= 0
    ensures Up(c, k) >= 0 && Rev(Up(c, k), n + k) == Rev(c, n)
    decreases k
  {
    if k > 0 {
      RevUp(c, n, k - 1);
      RevFirst(Up(c, k), n + k);
      assert Up(c, k) / 2 == Up(c, k - 1) && Up(c, k) % 2 == 0;
    }
  }

  /** Same first n bits, same number below 2^n. */
  lemma LowRev(x: int, n: nat, c: int)
    requires x >= 0 && 0 <= c < Pow2(n)
    ensures Low(x, n) == Rev(c, n) <==> Rev(x, n) == c
  {
    RevRev(Rev(x, n), n);
    RevRev(c, n);
  }

  /** The low bits of the low bits. */
  lemma LowLow(x: int, n: nat, m: nat)
    requires x >= 0 && n <= m
    ensures Rev(Low(x, m), n) == Rev(x, n) && Low(Low(x, m), n) == Low(x, n)
  {
    var y := Low(x, m);
    RevRev(Rev(x, m), m);
    assert Rev(y, m) == Rev(x, m);
    RevPrefix(x, m, n);
    RevPrefix(y, m, n);
  }

  /** x starts with the n-bit code c exactly when its first bits and the bits after them do. */
  lemma SplitCode(x: int, c: int, root: nat, len: nat)
    requires x >= 0 && 0 <= c < Pow2(len) && root <= len
    ensures Rev(x, len) == c <==>
      Rev(x, root) == Shr(c, len - root) && Low(Shr(x, root), len - root) == Shr(Rev(c, len), root)
  {
    var h := Rev(c, len);
    RevRev(c, len);
    RevPrefix(h, len, root);
    RevPrefix(x, len, root);
    SplitRest(x, h, root, len);
    ShrBound(h, root, len);
    RevRev(Shr(h, root), len - root);
    RevRev(Rev(Shr(x, root), len - root), len - root);
  }

  /** Equal first bits leave the remaining bits to decide. */
  lemma SplitRest(x: int, h: int, root: nat, len: nat)
    requires x >= 0 && h >= 0 && root <= len
    ensures Rev(x, len) == Rev(h, len) <==>
      Rev(x, root) == Rev(h, root) && Rev(Shr(x, root), len - root) == Rev(Shr(h, root), len - root)
  {
    hide *;
    RevPrefix(x, len, root);
    RevPrefix(h, len, root);
    RevSplit(x, root, len - root);
    RevSplit(h, root, len - root);
  }

  /** Bits above the first n do not show in them. */
  lemma {:induction false} RevHigh(v: int, b: int, m: nat, n: nat)
    requires v >= 0 && b >= 0 && n <= m
    ensures Up(b, m) >= 0 && Rev(v + Up(b, m), n) == Rev(v, n)
    decreases n
  {
    hide *;
    ShrUp(b, m);
    if n == 0 {
      RevZero(v);
      RevZero(v + Up(b, m));
    } else {
      RevFirst(v, n);
      RevFirst(v + Up(b, m), n);
      HalfUp(v, b, m);
      RevHigh(v / 2, b, m - 1, n - 1);
    }
  }

  lemma HalfUp(v: int, b: int, m: nat)
    requires v >= 0 && b >= 0 && m > 0
    ensures Up(b, m) >= 0 && (v + Up(b, m)) / 2 == v / 2 + Up(b, m - 1) && (v + Up(b, m)) % 2 == v % 2
  {
    ShrUp(b, m);
  }

  /** What is above bit n of a + b * 2^m is what is above bit n - m of b, when a has m bits. */
  lemma {:induction false} ShrJoin(a: int, b: int, m: nat, n: nat)
    requires 0 <= a < Pow2(m) && b >= 0 && m <= n
    ensures Up(b, m) >= 0 && Shr(a + Up(b, m), n) == Shr(b, n - m)
    decreases m
  {
    ShrUp(b, m);
    if m > 0 {
      ShrUp(b, m - 1);
      ShrJoin(a / 2, b, m - 1, n - 1);
      assert (a + Up(b, m)) / 2 == a / 2 + Up(b, m - 1);
    }
  }

  /** The low bits of a piece and what follows it. */
  lemma LowJoin(a: int, b: int, m: nat)
    requires 0 <= a < Pow2(m) && b >= 0
    ensures Up(b, m) >= 0 && Low(a + Up(b, m), m) == a && Shr(a + Up(b, m), m) == b
  {
    ShrJoin(a, b, m, m);
    RevHigh(a, b, m, m);
    LowAll(a, m);
  }
}
