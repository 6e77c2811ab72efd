/**
 Adler-32 (`adler32.c`, RFC 1950 section 8.2): sums that are reduced only once in
 5552 bytes, in words of 32 bits, and the combination of two checksums.
 */
module Adler {
  import opened Arith
  import opened InflateSpec
  import opened InflateRuns

  const BASE := 65521
  const NMAX := 5552

  type Word = x: int | 0 <= x < 0x1_0000_0000

  // ----- the definition

  /** Both sums, reduced after every byte. */
  datatype Sums = Sums(a: int, b: int)

  function Step(p: Sums, x: Byte): Sums {
    var a := (p.a + x) % BASE;
    Sums(a, (p.b + a) % BASE)
  }

  function Run(p: Sums, s: seq<Byte>): Sums
    decreases |s|
  {
    if s == [] then p else Run(Step(p, s[0]), s[1..])
  }

  /** The checksum of RFC 1950. */
  function Checksum(s: seq<Byte>): Word {
    RunReduced(Sums(1, 0), s);
    Pack(Run(Sums(1, 0), s))
  }

  ghost predicate Reduced(p: Sums) {
    0 <= p.a < BASE && 0 <= p.b < BASE
  }

  /** What a half may be after a combination: as much as BASE itself. */
  ghost predicate Loose(p: Sums) {
    0 <= p.a <= BASE && 0 <= p.b <= BASE
  }

  function Pack(p: Sums): Word
    requires 0 <= p.a < 0x1_0000 && 0 <= p.b < 0x1_0000
  {
    p.a + 0x1_0000 * p.b
  }

  function Unpack(w: Word): (p: Sums)
    ensures 0 <= p.a < 0x1_0000 && 0 <= p.b < 0x1_0000 && Pack(p) == w
  {
    Sums(w % 0x1_0000, w / 0x1_0000)
  }

  lemma Unpacked(p: Sums)
    requires 0 <= p.a < 0x1_0000 && 0 <= p.b < 0x1_0000
    ensures Unpack(Pack(p)) == p
  {
  }

  lemma {:induction false} RunReduced(p: Sums, s: seq<Byte>)
    requires Reduced(p)
    ensures Reduced(Run(p, s))
    decreases |s|
  {
    if s != [] {
      RunReduced(Step(p, s[0]), s[1..]);
    }
  }

  lemma {:induction false} RunAppend(p: Sums, s: seq<Byte>, t: seq<Byte>)
    ensures Run(p, s + t) == Run(Run(p, s), t)
    decreases |s|
  {
    hide Step;
    if s == [] {
      assert s + t == t;
    } else {
      assert (s + t)[1..] == s[1..] + t;
      RunAppend(Step(p, s[0]), s[1..], t);
    }
  }

  lemma RunSnoc(p: Sums, s: seq<Byte>, i: nat)
    requires i < |s|
    ensures Run(p, s[..i + 1]) == Step(Run(p, s[..i]), s[i])
  {
    hide Step;
    assert s[..i + 1] == s[..i] + [s[i]];
    RunAppend(p, s[..i], [s[i]]);
    assert [s[i]][1..] == [];
  }

  // ----- the same modulo BASE

  ghost predicate Same(p: Sums, q: Sums) {
    p.a % BASE == q.a % BASE && p.b % BASE == q.b % BASE
  }

  /** Sums that are not reduced. */
  lemma SameStep(p: Sums, q: Sums, x: Byte)
    requires Same(p, q)
    ensures Same(Sums(p.a + x, p.b + (p.a + x)), Step(q, x))
  {
    ModSum(p.a, x);
    ModSum(q.a, x);
    ModSum(p.b, p.a + x);
    ModSum(q.b, (q.a + x) % BASE);
  }

  lemma ModSum(x: int, y: int)
    ensures (x + y) % BASE == (x % BASE + y % BASE) % BASE == (x % BASE + y) % BASE == (x + y % BASE) % BASE
    ensures x % BASE % BASE == x % BASE
  {
  }

  lemma {:induction false} SameRun(p: Sums, q: Sums, s: seq<Byte>)
    requires Same(p, q)
    ensures Same(Run(p, s), Run(q, s)) && (s != [] ==> Run(p, s) == Run(q, s))
    decreases |s|
  {
    if s != [] {
      SameStepped(p, q, s[0]);
      hide Step;
    }
  }

  lemma SameStepped(p: Sums, q: Sums, x: Byte)
    requires Same(p, q)
    ensures Step(p, x) == Step(q, x)
  {
    ModSum(p.a, x);
    ModSum(q.a, x);
    ModSum(p.b, (p.a + x) % BASE);
    ModSum(q.b, (p.a + x) % BASE);
  }

  // ----- no overflow

  /** The most that n bytes can add to the second sum by themselves. */
  function Triangle(n: nat): nat {
    if n == 0 then 0 else Triangle(n - 1) + 255 * n
  }

  lemma {:induction false} TriangleIs(n: nat)
    ensures 2 * Triangle(n) == 255 * (n * (n + 1))
  {
    if n > 0 {
      TriangleIs(n - 1);
      assert n * (n + 1) == (n - 1) * n + 2 * n;
    }
  }

  lemma {:induction false} TriangleMono(m: nat, n: nat)
    requires m <= n
    ensures Triangle(m) <= Triangle(n)
    decreases n
  {
    if m < n {
      TriangleMono(m, n - 1);
    }
  }

  /** What n bytes may have made of halves of 16 bits. */
  ghost predicate Bounded(a: int, b: int, n: nat) {
    0 <= a <= 0xffff + 255 * n && 0 <= b <= 0xffff + 0xffff * n + Triangle(n)
  }

  lemma Fits(a: int, b: int, n: nat)
    requires Bounded(a, b, n) && n <= NMAX
    ensures 0 <= a < 0x1_0000_0000 && 0 <= b < 0x1_0000_0000
  {
    TriangleIs(NMAX);
    TriangleMono(n, NMAX);
  }

  lemma BoundedNext(a: int, b: int, n: nat, x: Byte)
    requires Bounded(a, b, n)
    ensures Bounded(a + x, b + (a + x), n + 1)
  {
  }

  lemma BoundedStart(a: int, b: int)
    requires 0 <= a < 0x1_0000 && 0 <= b < 0x1_0000
    ensures Bounded(a, b, 0)
  {
  }

  // ----- adler32

  /** The sums of up to NMAX bytes, none of which passes 32 bits. */
  method AddBytes(a0: Word, b0: Word, s: seq<Byte>, ghost q: Sums) returns (a: Word, b: Word)
    requires a0 < 0x1_0000 && b0 < 0x1_0000 && |s| <= NMAX && Same(Sums(a0, b0), q)
    ensures Same(Sums(a, b), Run(q, s)) && Bounded(a, b, |s|)
  {
    hide *;
    a, b := a0, b0;
    BoundedStart(a, b);
    RunNone(q);
    assert s[..0] == [];
    for i := 0 to |s|
      invariant Same(Sums(a, b), Run(q, s[..i])) && Bounded(a, b, i)
    {
      SameStep(Sums(a, b), Run(q, s[..i]), s[i]);
      RunSnoc(q, s, i);
      BoundedNext(a, b, i, s[i]);
      Fits(a + s[i], b + (a + s[i]), i + 1);
      a := a + s[i];
      b := b + a;
    }
    assert s[..|s|] == s;
  }

  lemma RunNone(p: Sums)
    ensures Run(p, []) == p
  {
  }

  lemma SameSelf(p: Sums)
    ensures Same(p, p)
  {
  }

  /** Subtracting BASE, or taking the remainder, changes nothing modulo BASE. */
  lemma Less(x: int)
    ensures (x - BASE) % BASE == x % BASE && (x - 2 * BASE) % BASE == x % BASE && x % BASE % BASE == x % BASE
    ensures 0 <= x < BASE ==> x % BASE == x
  {
  }

  /** The result is the packed sums: reduced if it started from no more than BASE, and exact if from reduced halves. */
  ghost predicate Result(r: Word, p: Sums, s: seq<Byte>) {
    && Same(Unpack(r), Run(p, s)) && (Loose(p) ==> Reduced(Unpack(r))) && (Reduced(p) ==> Unpack(r) == Run(p, s))
  }

  lemma MakeResult(p: Sums, s: seq<Byte>, a: int, b: int)
    requires Same(Sums(a, b), Run(p, s)) && 0 <= a < BASE && 0 <= b < 0x1_0000 && (Loose(p) ==> b < BASE)
    ensures 0 <= a + 0x1_0000 * b < 0x1_0000_0000 && Result(a + 0x1_0000 * b, p, s)
  {
    var q := Sums(a, b);
    assert Pack(q) == a + 0x1_0000 * b;
    Unpacked(q);
    if Reduced(p) {
      RunReduced(p, s);
      var r := Run(p, s);
      hide Run, Pack, Unpack;
      Less(a);
      Less(b);
      Less(r.a);
      Less(r.b);
    }
  }

  /** `adler32` */
  method Adler32(adler0: Word, buf: Option<seq<Byte>>) returns (r: Word)
    ensures buf == None ==> r == 1
    ensures buf.Some? ==> Result(r, Unpack(adler0), buf.value)
  {
    hide Result;
    if buf == None {
      return 1;
    }
    var s := buf.value;
    var sum2: Word, adler: Word := adler0 / 0x1_0000, adler0 % 0x1_0000;
    if |s| == 1 {
      r := OneByte(adler, sum2, s);
    } else if |s| < 16 {
      r := FewBytes(adler, sum2, s);
    } else {
      r := ManyBytes(adler, sum2, s);
    }
  }

  method OneByte(adler0: Word, sum20: Word, s: seq<Byte>) returns (r: Word)
    requires |s| == 1 && adler0 < 0x1_0000 && sum20 < 0x1_0000
    ensures Result(r, Sums(adler0, sum20), s)
  {
    ghost var p := Sums(adler0, sum20);
    var adler, sum2 := adler0, sum20;
    adler := adler + s[0];
    Less(adler);
    if adler >= BASE {
      adler := adler - BASE;
    }
    ModSum(sum2, adler);
    sum2 := sum2 + adler;
    Less(sum2);
    if sum2 >= BASE {
      sum2 := sum2 - BASE;
    }
    RunOne(p, s);
    Less(adler);
    ModSum(adler0, s[0]);
    ModSum(sum20, (adler0 + s[0]) % BASE);
    MakeResult(p, s, adler, sum2);
    r := adler + 0x1_0000 * sum2;
  }

  lemma RunOne(p: Sums, s: seq<Byte>)
    requires |s| == 1
    ensures Run(p, s) == Step(p, s[0])
  {
    assert s[1..] == [];
  }

  method FewBytes(adler0: Word, sum20: Word, s: seq<Byte>) returns (r: Word)
    requires |s| < 16 && adler0 < 0x1_0000 && sum20 < 0x1_0000
    ensures Result(r, Sums(adler0, sum20), s)
  {
    hide *;
    ghost var p := Sums(adler0, sum20);
    SameSelf(p);
    Base();
    var adler, sum2 := AddBytes(adler0, sum20, s, p);
    FewBounds(adler, sum2, |s|);
    SameLess(adler, sum2, Run(p, s));
    if adler >= BASE {
      adler := adler - BASE;
    }
    sum2 := sum2 % BASE;
    MakeResult(p, s, adler, sum2);
    r := adler + 0x1_0000 * sum2;
  }

  lemma Base()
    ensures BASE == 65521 && NMAX == 5552
  {
  }

  lemma FewBounds(a: int, b: int, n: nat)
    requires Bounded(a, b, n) && n < 16
    ensures 0 <= a < 2 * BASE && b >= 0
  {
  }

  lemma SameLess(a: int, b: int, q: Sums)
    requires Same(Sums(a, b), q)
    ensures Same(Sums(a - BASE, b % BASE), q) && Same(Sums(a % BASE, b % BASE), q) && Same(Sums(a, b % BASE), q)
    ensures 0 <= a % BASE < BASE && 0 <= b % BASE < BASE
  {
    Less(a);
    Less(b);
  }

  /** Blocks of NMAX bytes, each reduced once, and the rest. */
  method ManyBytes(adler0: Word, sum20: Word, s: seq<Byte>) returns (r: Word)
    requires |s| >= 16 && adler0 < 0x1_0000 && sum20 < 0x1_0000
    ensures Result(r, Sums(adler0, sum20), s)
  {
    hide *;
    Base();
    ghost var p := Sums(adler0, sum20);
    var adler, sum2, i := adler0, sum20, 0;
    SameSelf(p);
    RunNone(p);
    assert s[..0] == [];
    while |s| - i >= NMAX
      invariant i <= |s| && 0 <= adler < 0x1_0000 && 0 <= sum2 < 0x1_0000 && Same(Sums(adler, sum2), Run(p, s[..i]))
      invariant i > 0 ==> adler < BASE && sum2 < BASE
    {
      adler, sum2 := Block(adler, sum2, p, s, i, i + NMAX);
      i := i + NMAX;
    }
    if i < |s| {
      adler, sum2 := Block(adler, sum2, p, s, i, |s|);
    }
    assert s[..|s|] == s;
    MakeResult(p, s, adler, sum2);
    r := adler + 0x1_0000 * sum2;
  }

  /** The bytes from i to j, and one reduction. */
  method Block(adler0: Word, sum20: Word, ghost p: Sums, s: seq<Byte>, i: nat, j: nat) returns (adler: Word, sum2: Word)
    requires i <= j <= |s| && j - i <= NMAX && adler0 < 0x1_0000 && sum20 < 0x1_0000
             && Same(Sums(adler0, sum20), Run(p, s[..i]))
    ensures Same(Sums(adler, sum2), Run(p, s[..j])) && adler < BASE && sum2 < BASE
  {
    hide *;
    Base();
    assert s[..j] == s[..i] + s[i..j];
    RunAppend(p, s[..i], s[i..j]);
    adler, sum2 := AddBytes(adler0, sum20, s[i..j], Run(p, s[..i]));
    SameLess(adler, sum2, Run(p, s[..j]));
    adler, sum2 := adler % BASE, sum2 % BASE;
  }

  /** A word whose halves, of BASE at most, are those of the checksum of s modulo BASE. */
  ghost predicate StandsFor(w: Word, s: seq<Byte>) {
    Loose(Unpack(w)) && Same(Unpack(w), Run(Sums(1, 0), s))
  }

  lemma ChecksumStands(s: seq<Byte>)
    ensures StandsFor(Checksum(s), s)
  {
    ChecksumIs(s);
  }

  /** It is the checksum if and only if it is reduced. */
  lemma StandsExactly(w: Word, s: seq<Byte>)
    requires StandsFor(w, s)
    ensures w == Checksum(s) <==> Reduced(Unpack(w))
  {
    hide *;
    ChecksumIs(s);
    StandsIs(w, s);
    SameWord(w, Checksum(s));
    ReducedIs(Unpack(w));
    if Reduced(Unpack(w)) {
      Less(Unpack(w).a);
      Less(Unpack(w).b);
      Less(Unpack(Checksum(s)).a);
      Less(Unpack(Checksum(s)).b);
    }
  }

  lemma ReducedIs(p: Sums)
    ensures Reduced(p) <==> 0 <= p.a < 65521 && 0 <= p.b < 65521
    ensures BASE == 65521
  {
  }

  /** Going on from any word that stands for s, checksum or not, gives the checksum. */
  lemma Continued(w: Word, s: seq<Byte>, t: seq<Byte>, r: Word)
    requires StandsFor(w, s) && Result(r, Unpack(w), t)
    ensures r == Checksum(s + t)
  {
    var p := Sums(1, 0);
    RunAppend(p, s, t);
    SameRun(Unpack(w), Run(p, s), t);
    hide Run;
    StandsExactly(r, s + t);
  }

  // ----- combining two checksums

  /** The first sum adds up; the second counts the first once for every later byte. */
  lemma {:induction false} Shifted(p: Sums, q: Sums, s: seq<Byte>, d: int)
    requires q.a == p.a + d
    ensures (Run(q, s).a - Run(p, s).a - d) % BASE == 0
    ensures (Run(q, s).b - Run(p, s).b - (q.b - p.b) - d * |s|) % BASE == 0
    decreases |s|
  {
    if s == [] {
      assert d * |s| == 0;
    } else {
      ShiftedStep(p, q, s[0], d);
      var p', q' := Step(p, s[0]), Step(q, s[0]);
      var d' := q'.a - p'.a;
      Shifted(p', q', s[1..], d');
      hide *;
      Base();
      ShiftedSum(Run(q, s).a - Run(p, s).a, Run(q, s).b - Run(p, s).b, d, d', q.b - p.b, q'.b - p'.b, |s|);
    }
  }

  lemma ShiftedStep(p: Sums, q: Sums, x: Byte, d: int)
    requires q.a == p.a + d
    ensures (Step(q, x).a - Step(p, x).a - d) % BASE == 0
    ensures (Step(q, x).b - Step(p, x).b - (q.b - p.b) - d) % BASE == 0
  {
  }

  lemma ShiftedSum(a: int, b: int, d: int, d': int, e: int, e': int, n: int)
    requires n > 0 && (a - d') % BASE == 0 && (d' - d) % BASE == 0 && (b - e' - d' * (n - 1)) % BASE == 0
             && (e' - e - d) % BASE == 0
    ensures (a - d) % BASE == 0 && (b - e - d * n) % BASE == 0
  {
    var x, y, z := b - e' - d' * (n - 1), e' - e - d, (d' - d) * (n - 1);
    assert b - e - d * n == x + y + z by {
      assert d' * (n - 1) - d * (n - 1) == z && d * n == d * (n - 1) + d;
    }
    hide *;
    ZeroProduct(d' - d, n - 1);
    ZeroSum(x, y);
    ZeroSum(x + y, z);
    ZeroSum(a - d', d' - d);
  }

  lemma ZeroSum(x: int, y: int)
    requires x % BASE == 0 && y % BASE == 0
    ensures (x + y) % BASE == 0
  {
  }

  lemma ZeroProduct(x: int, y: int)
    requires x % BASE == 0
    ensures (x * y) % BASE == 0
  {
    var k := x / BASE;
    assert x == BASE * k;
    assert x * y == BASE * (k * y);
    MultipleZero(k * y);
  }

  lemma MultipleZero(k: int)
    ensures (BASE * k) % BASE == 0
  {
  }

  /** What the halves of the two checksums and the length make, before they are brought down. */
  function Sum1(p: Sums, q: Sums): int {
    p.a + q.a + BASE - 1
  }

  function Sum2(p: Sums, q: Sums, len2: nat): int {
    (len2 % BASE * p.a) % BASE + p.b + q.b + BASE - len2 % BASE
  }

  /** Brought down to 1 up to BASE. */
  ghost predicate Lowered(x: int, y: int) {
    1 <= y <= BASE && (x - y) % BASE == 0
  }

  /** What `adler32_combine` gives for two words and the length of the second string. */
  ghost predicate Combines(r: Word, v: Word, w: Word, len2: nat) {
    && Lowered(Sum1(Unpack(v), Unpack(w)), Unpack(r).a)
    && Lowered(Sum2(Unpack(v), Unpack(w), len2), Unpack(r).b)
  }

  /** The combined halves are those of both strings together, modulo BASE. */
  lemma CombinedSums(s: seq<Byte>, t: seq<Byte>)
    ensures var p, q, r := Run(Sums(1, 0), s), Run(Sums(1, 0), t), Run(Sums(1, 0), s + t);
            (Sum1(p, q) - r.a) % BASE == 0 && (Sum2(p, q, |t|) - r.b) % BASE == 0
  {
    var one := Sums(1, 0);
    var p, q, r := Run(one, s), Run(one, t), Run(one, s + t);
    RunAppend(one, s, t);
    Shifted(one, p, t, p.a - 1);
    hide Run;
    ZeroSum(q.a + p.a - 1 - r.a, BASE) by {
      Negated(r.a - q.a - (p.a - 1));
    }
    var m := |t| % BASE;
    var x, y := r.b - q.b - p.b - (p.a - 1) * |t|, (p.a - 1) * |t| - (m * p.a) % BASE + m;
    assert y % BASE == 0 by {
      Length(p.a, |t|);
    }
    ZeroSum(x, y);
    Negated(x + y);
    ZeroSum(-(x + y), BASE);
  }

  lemma Negated(x: int)
    requires x % BASE == 0
    ensures (-x) % BASE == 0
  {
  }

  lemma Length(a: int, n: nat)
    ensures ((a - 1) * n - (n % BASE * a) % BASE + n % BASE) % BASE == 0
  {
    var m := n % BASE;
    var k := n - m;
    Remainder(n);
    Distribute(a, m, k);
    hide *;
    ZeroProduct(k, a - 1);
    Remainder(m * a);
    ZeroSum(k * (a - 1), m * a - (m * a) % BASE);
  }

  lemma Distribute(a: int, m: int, k: int)
    ensures (a - 1) * (m + k) == m * a - m + k * (a - 1)
  {
  }

  lemma Remainder(x: int)
    ensures (x - x % BASE) % BASE == 0
  {
  }

  lemma ProductFits(x: int, y: int)
    requires 0 <= x < BASE && 0 <= y <= BASE
    ensures 0 <= x * y < 0x1_0000_0000
  {
    MulMono(x, 65520, y);
  }

  /** `adler32_combine` */
  method Adler32Combine(adler1: Word, adler2: Word, len2: nat) returns (r: Word)
    requires Loose(Unpack(adler1)) && Loose(Unpack(adler2))
    ensures Combines(r, adler1, adler2, len2) && Loose(Unpack(r))
  {
    var rem := len2 % BASE;
    var sum1: Word := adler1 % 0x1_0000;
    ProductFits(rem, sum1);
    var sum2: Word := rem * sum1;
    sum2 := sum2 % BASE;
    sum1 := sum1 + (adler2 % 0x1_0000 + BASE - 1);
    sum2 := sum2 + (adler1 / 0x1_0000 % 0x1_0000 + adler2 / 0x1_0000 % 0x1_0000 + BASE - rem);
    assert sum1 == Sum1(Unpack(adler1), Unpack(adler2)) && sum2 == Sum2(Unpack(adler1), Unpack(adler2), len2);
    sum1 := LessTwice(sum1);
    sum2 := LessFour(sum2);
    Unpacked(Sums(sum1, sum2));
    r := sum1 + 0x1_0000 * sum2;
  }

  method LessTwice(x: int) returns (y: int)
    requires BASE - 1 <= x < 3 * BASE
    ensures Lowered(x, y)
  {
    y := x;
    if y > BASE {
      y := y - BASE;
    }
    if y > BASE {
      y := y - BASE;
    }
  }

  method LessFour(x: int) returns (y: int)
    requires 1 <= x < 4 * BASE
    ensures Lowered(x, y)
  {
    y := x;
    if y > 2 * BASE {
      y := y - 2 * BASE;
    }
    if y > BASE {
      y := y - BASE;
    }
  }

  /**
   The combination of words that stand for two strings stands for both together, so any chain of combinations
   does. It is their checksum if and only if neither sum comes to a multiple of BASE: in that case the half is BASE
   where it should be zero.
   */
  lemma CombineExact(v: Word, w: Word, s: seq<Byte>, t: seq<Byte>, r: Word)
    requires StandsFor(v, s) && StandsFor(w, t) && Combines(r, v, w, |t|)
    ensures StandsFor(r, s + t)
    ensures (r == Checksum(s + t))
            <==> Sum1(Unpack(v), Unpack(w)) % BASE != 0 && Sum2(Unpack(v), Unpack(w), |t|) % BASE != 0
  {
    hide *;
    CombinesIs(r, v, w, |t|);
    StandsIs(v, s);
    StandsIs(w, t);
    ChecksumIs(s + t);
    CombinedSums(s, t);
    var p, q, c := Run(Sums(1, 0), s), Run(Sums(1, 0), t), Unpack(Checksum(s + t));
    SameSums(Unpack(v), p, Unpack(w), q, |t|);
    var x, y := Sum1(Unpack(v), Unpack(w)), Sum2(Unpack(v), Unpack(w), |t|);
    ZeroSum(x - Sum1(p, q), Sum1(p, q) - c.a);
    ZeroSum(y - Sum2(p, q, |t|), Sum2(p, q, |t|) - c.b);
    LoweredEqual(x, Unpack(r).a, c.a);
    LoweredEqual(y, Unpack(r).b, c.b);
    MakeStands(r, s + t);
    SameWord(r, Checksum(s + t));
  }

  lemma StandsIs(w: Word, s: seq<Byte>)
    requires StandsFor(w, s)
    ensures Unpack(w).a % BASE == Run(Sums(1, 0), s).a % BASE && Unpack(w).b % BASE == Run(Sums(1, 0), s).b % BASE
  {
    hide Run, Unpack;
  }

  lemma MakeStands(r: Word, s: seq<Byte>)
    requires 0 <= Unpack(r).a <= BASE && 0 <= Unpack(r).b <= BASE
    requires Unpack(r).a % BASE == Run(Sums(1, 0), s).a % BASE && Unpack(r).b % BASE == Run(Sums(1, 0), s).b % BASE
    ensures StandsFor(r, s)
  {
    hide Run, Unpack;
  }

  /** Halves that agree modulo BASE have sums that do. */
  lemma SameSums(p: Sums, p': Sums, q: Sums, q': Sums, n: nat)
    requires p.a % BASE == p'.a % BASE && p.b % BASE == p'.b % BASE && q.a % BASE == q'.a % BASE
             && q.b % BASE == q'.b % BASE
    ensures (Sum1(p, q) - Sum1(p', q')) % BASE == 0 && (Sum2(p, q, n) - Sum2(p', q', n)) % BASE == 0
  {
    var m := n % BASE;
    SameDifference(p.a, p'.a);
    SameDifference(p.b, p'.b);
    SameDifference(q.a, q'.a);
    SameDifference(q.b, q'.b);
    ZeroProduct(p.a - p'.a, m);
    Products(m, p.a, p'.a);
    hide *;
    SumsDiffer(p, p', q, q', n);
    ZeroSum(p.a - p'.a, q.a - q'.a);
    Remainder(m * p.a);
    Remainder(m * p'.a);
    Negated(m * p.a - (m * p.a) % BASE);
    ZeroSum((m * p.a) % BASE - m * p.a, (p.a - p'.a) * m);
    ZeroSum((m * p.a) % BASE - m * p'.a, m * p'.a - (m * p'.a) % BASE);
    ZeroSum(p.b - p'.b, q.b - q'.b);
    ZeroSum((m * p.a) % BASE - (m * p'.a) % BASE, (p.b - p'.b) + (q.b - q'.b));
  }

  lemma Products(m: int, a: int, b: int)
    ensures (a - b) * m == m * a - m * b
  {
  }

  lemma SumsDiffer(p: Sums, p': Sums, q: Sums, q': Sums, n: nat)
    ensures Sum1(p, q) - Sum1(p', q') == (p.a - p'.a) + (q.a - q'.a)
    ensures Sum2(p, q, n) - Sum2(p', q', n)
            == ((n % BASE * p.a) % BASE - (n % BASE * p'.a) % BASE) + ((p.b - p'.b) + (q.b - q'.b))
  {
  }

  lemma SameDifference(x: int, y: int)
    requires x % BASE == y % BASE
    ensures (x - y) % BASE == 0
  {
  }

  lemma CombinesIs(r: Word, v: Word, w: Word, n: nat)
    requires Combines(r, v, w, n)
    ensures Lowered(Sum1(Unpack(v), Unpack(w)), Unpack(r).a) && Lowered(Sum2(Unpack(v), Unpack(w), n), Unpack(r).b)
    ensures 1 <= Unpack(r).a <= BASE && 1 <= Unpack(r).b <= BASE
  {
    hide Sum1, Sum2, Unpack;
  }

  lemma ChecksumIs(s: seq<Byte>)
    ensures Unpack(Checksum(s)) == Run(Sums(1, 0), s) && 0 <= Unpack(Checksum(s)).a < BASE
            && 0 <= Unpack(Checksum(s)).b < BASE
    ensures Reduced(Unpack(Checksum(s)))
  {
    RunReduced(Sums(1, 0), s);
    hide Run;
    Unpacked(Run(Sums(1, 0), s));
  }

  lemma SameWord(v: Word, w: Word)
    ensures v == w <==> (Unpack(v).a == Unpack(w).a && Unpack(v).b == Unpack(w).b)
  {
  }

  lemma LoweredEqual(x: int, y: int, w: int)
    requires Lowered(x, y) && (x - w) % BASE == 0 && 0 <= w < BASE
    ensures y % BASE == w % BASE && (y == w <==> x % BASE != 0)
  {
  }

  /** Strings for which the combined value is not the checksum: the sum of their bytes is 65520. */
  lemma CombineFails() returns (s: seq<Byte>, t: seq<Byte>)
    ensures Sum1(Unpack(Checksum(s)), Unpack(Checksum(t))) % BASE == 0
    ensures forall r: Word | Combines(r, Checksum(s), Checksum(t), |t|) :: r != Checksum(s + t)
  {
    hide *;
    s, t := [], seq(256, i => 255) + [240];
    SumOfBytes(t);
    ChecksumStands(s);
    ChecksumStands(t);
    forall r: Word | Combines(r, Checksum(s), Checksum(t), |t|)
      ensures r != Checksum(s + t)
    {
      CombineExact(Checksum(s), Checksum(t), s, t, r);
    }
  }

  lemma SumOfBytes(t: seq<Byte>)
    requires t == seq(256, i => 255) + [240]
    ensures Sum1(Unpack(Checksum([])), Unpack(Checksum(t))) % BASE == 0
  {
    var one := Sums(1, 0);
    RunReduced(one, []);
    RunReduced(one, t);
    Unpacked(one);
    Unpacked(Run(one, t));
    RunTotal(one, t);
    TotalAppend(seq(256, i => 255), [240]);
    TotalMany(seq(256, i => 255));
    assert Total([240]) == 240 + Total([]);
    assert [240][1..] == [];
  }

  function Total(s: seq<Byte>): int {
    if s == [] then 0 else s[0] + Total(s[1..])
  }

  lemma {:induction false} RunTotal(p: Sums, s: seq<Byte>)
    requires 0 <= p.a < BASE
    ensures Run(p, s).a == (p.a + Total(s)) % BASE
    decreases |s|
  {
    if s != [] {
      RunTotal(Step(p, s[0]), s[1..]);
      ModSum(p.a + s[0], Total(s[1..]));
    }
  }

  lemma {:induction false} TotalAppend(s: seq<Byte>, t: seq<Byte>)
    ensures Total(s + t) == Total(s) + Total(t)
  {
    if s == [] {
      assert s + t == t;
    } else {
      assert (s + t)[1..] == s[1..] + t;
      TotalAppend(s[1..], t);
    }
  }

  lemma {:induction false} TotalMany(s: seq<Byte>)
    requires forall i :: 0 <= i < |s| ==> s[i] == 255
    ensures Total(s) == 255 * |s|
  {
    if s != [] {
      TotalMany(s[1..]);
    }
  }
}
