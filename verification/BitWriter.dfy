/**
 The bit stream that the compressor writes.  A stream is a list of pieces, each a value
 of so many bits, the first bit least significant; the writer packs them into bytes.
 */
module BitWriter {
  import opened Arith
  import opened Canonical
  import opened BitOrder
  import opened Bitwise
  import opened DecodeTable
  import opened InflateSpec
  import opened InflateRuns
  import opened InflateSound

  datatype Piece = Piece(value: int, len: nat)

  ghost predicate Small(p: Piece) {
    0 <= p.value < Pow2(p.len)
  }

  ghost predicate AllSmall(ps: seq<Piece>) {
    forall i :: 0 <= i < |ps| ==> Small(ps[i])
  }

  /** How many bits the pieces have. */
  function Width(ps: seq<Piece>): (n: nat) {
    if ps == [] then 0 else ps[0].len + Width(ps[1..])
  }

  /** The pieces as one number. */
  ghost function Num(ps: seq<Piece>): (v: int)
    requires AllSmall(ps)
    ensures 0 <= v < Pow2(Width(ps))
  {
    if ps == [] then 0
    else
      JoinBound(ps[0].value, Num(ps[1..]), ps[0].len, Width(ps[1..]));
      ps[0].value + Up(Num(ps[1..]), ps[0].len)
  }

  lemma JoinBound(a: int, b: int, n: nat, m: nat)
    requires 0 <= a < Pow2(n) && 0 <= b < Pow2(m)
    ensures 0 <= Up(b, n) && 0 <= a + Up(b, n) < Pow2(n + m)
  {
    ShrUp(b, n);
    UpMono(b + 1, Pow2(m), n);
    UpSum(b, 1, n);
    UpOne(n);
    UpOne(m);
    UpUp(1, m, n);
    UpOne(m + n);
  }

  lemma {:induction false} WidthAppend(a: seq<Piece>, b: seq<Piece>)
    ensures Width(a + b) == Width(a) + Width(b)
  {
    if a == [] {
      assert a + b == b;
    } else {
      assert (a + b)[1..] == a[1..] + b;
      WidthAppend(a[1..], b);
    }
  }

  lemma {:induction false} NumAppend(a: seq<Piece>, b: seq<Piece>)
    requires AllSmall(a) && AllSmall(b)
    ensures AllSmall(a + b) && Num(a + b) == Num(a) + Up(Num(b), Width(a))
  {
    if a == [] {
      assert a + b == b;
    } else {
      assert (a + b)[1..] == a[1..] + b;
      NumAppend(a[1..], b);
      UpSum(Num(a[1..]), Up(Num(b), Width(a[1..])), a[0].len);
      UpUp(Num(b), Width(a[1..]), a[0].len);
    }
  }

  lemma NumOne(p: Piece)
    requires Small(p)
    ensures AllSmall([p]) && Num([p]) == p.value && Width([p]) == p.len
  {
    ZeroUp(p.len);
  }

  // ----- splitting a number

  /** A number is its low bits and the rest. */
  lemma {:induction false} LowHigh(x: int, n: nat)
    requires x >= 0
    ensures x == Low(x, n) + Up(Shr(x, n), n)
  {
    if n == 0 {
      assert Rev(x, 0) == 0;
    } else {
      LowHigh(x / 2, n - 1);
      LowHalf(x, n);
    }
  }

  lemma LowHalf(x: int, n: nat)
    requires x >= 0 && n > 0
    ensures Low(x, n) == x % 2 + 2 * Low(x / 2, n - 1)
  {
    hide *;
    LowIsMod(x, n);
    LowIsMod(x / 2, n - 1);
    DoublePow(n);
    ModHalf(x, Pow2(n - 1));
  }

  lemma DoublePow(n: nat)
    requires n > 0
    ensures Pow2(n) == 2 * Pow2(n - 1) && Pow2(n - 1) > 0
  {
  }

  lemma ModHalf(x: int, p: int)
    requires x >= 0 && p > 0
    ensures x % (2 * p) == x % 2 + 2 * ((x / 2) % p)
  {
    var q, r := (x / 2) / p, (x / 2) % p;
    DivMod(x / 2, p);
    MulAssoc(q, 2, p);
    DivModUnique(x, 2 * p, q, x % 2 + 2 * r);
  }

  // ----- reading a stream

  /** x, of which n bits are there, begins with the pieces. */
  ghost predicate Carries(x: int, n: int, ps: seq<Piece>) {
    AllSmall(ps) && x >= 0 && Width(ps) <= n && Low(x, Width(ps)) == Num(ps)
  }

  /** The first piece can be read off, and leaves the others. */
  lemma CarriesHead(x: int, n: int, p: Piece, ps: seq<Piece>)
    requires Carries(x, n, [p] + ps)
    ensures 0 <= p.len <= n && Low(x, p.len) == p.value && Carries(Shr(x, p.len), n - p.len, ps)
  {
    CarriesParts(x, n, p, ps);
    var a, b := Width(ps), p.len;
    ShrUp(Shr(x, a + b), a);
    hide *;
    LowHigh(x, a + b);
    UpUp(Shr(x, a + b), a, b);
    UpSum(Num(ps), Up(Shr(x, a + b), a), b);
    var rest := Num(ps) + Up(Shr(x, a + b), a);
    assert x == p.value + Up(rest, b);
    LowJoin(p.value, rest, b);
    LowJoin(Num(ps), Shr(x, a + b), a);
    MakeCarries(Shr(x, b), n - b, ps);
  }

  lemma CarriesParts(x: int, n: int, p: Piece, ps: seq<Piece>)
    requires Carries(x, n, [p] + ps)
    ensures AllSmall(ps) && 0 <= p.value < Pow2(p.len) && x >= 0 && p.len + Width(ps) <= n
            && 0 <= Num(ps) < Pow2(Width(ps))
    ensures Low(x, p.len + Width(ps)) == p.value + Up(Num(ps), p.len)
  {
    hide Low, Up, Pow2, Num, Width, AllSmall, Small;
    NumCons(p, ps);
  }

  lemma NumCons(p: Piece, ps: seq<Piece>)
    requires AllSmall([p] + ps)
    ensures Small(p) && 0 <= p.value < Pow2(p.len) && AllSmall(ps) && 0 <= Num(ps) < Pow2(Width(ps))
    ensures Width([p] + ps) == p.len + Width(ps) && Num([p] + ps) == p.value + Up(Num(ps), p.len)
  {
    var all := [p] + ps;
    assert all[0] == p && all[1..] == ps;
    assert Small(all[0]);
    forall i | 0 <= i < |ps| ensures Small(ps[i]) {
      assert Small(all[i + 1]);
    }
    hide Up, Pow2, Small;
  }

  lemma MakeCarries(x: int, n: int, ps: seq<Piece>)
    requires AllSmall(ps) && x >= 0 && Width(ps) <= n && Low(x, Width(ps)) == Num(ps)
    ensures Carries(x, n, ps)
  {
  }

  /** A list of pieces in front. */
  lemma {:induction false} CarriesMore(x: int, n: int, ps: seq<Piece>, qs: seq<Piece>)
    requires Carries(x, n, ps + qs)
    ensures Carries(x, n, ps) && Carries(Shr(x, Width(ps)), n - Width(ps), qs)
    decreases |ps|
  {
    if ps == [] {
      assert ps + qs == qs;
      LowZero(x);
    } else {
      assert ps + qs == [ps[0]] + (ps[1..] + qs);
      CarriesHead(x, n, ps[0], ps[1..] + qs);
      CarriesMore(Shr(x, ps[0].len), n - ps[0].len, ps[1..], qs);
      ShrAdd(x, ps[0].len, Width(ps[1..]));
      CarriesJoin(x, n, ps[0], ps[1..]);
    }
  }

  lemma LowZero(x: int)
    requires x >= 0
    ensures Low(x, 0) == 0
  {
    assert Rev(x, 0) == 0;
  }

  /** Reading one piece and then others is reading them all. */
  lemma CarriesJoin(x: int, n: int, p: Piece, ps: seq<Piece>)
    requires x >= 0 && Small(p) && p.len <= n && Low(x, p.len) == p.value && Carries(Shr(x, p.len), n - p.len, ps)
    ensures [p] + ps != [] && Carries(x, n, [p] + ps)
  {
    var all := [p] + ps;
    assert all[0] == p && all[1..] == ps;
    var a, b, y := Width(ps), p.len, Shr(x, p.len);
    LowHigh(x, b);
    LowHigh(y, a);
    ShrUp(Shr(y, a), a);
    UpSum(Num(ps), Up(Shr(y, a), a), b);
    UpUp(Shr(y, a), a, b);
    assert x == Num(all) + Up(Shr(y, a), a + b);
    LowJoin(Num(all), Shr(y, a), a + b);
  }

  // ----- the writer

  lemma ShortValue(out: seq<Byte>, w: int)
    requires 0 <= w < 0x1_0000
    ensures Value(out + [w % 256, w / 256]) == Value(out) + Up(w, 8 * |out|)
  {
    hide *;
    var lo: Byte, hi: Byte := w % 256, w / 256;
    assert out + [lo, hi] == (out + [lo]) + [hi];
    ByteValue(out, lo);
    ByteValue(out + [lo], hi);
    EightUp(hi);
    UpUp(hi, 8, 8 * |out|);
    UpSum(lo, Up(hi, 8), 8 * |out|);
  }

  /** The bytes written and the bits pending are the pieces sent. */
  ghost predicate Written(sent: seq<Piece>, out: seq<Byte>, biBuf: int, biValid: nat) {
    && AllSmall(sent) && 0 <= biBuf < Pow2(biValid)
    && Width(sent) == 8 * |out| + biValid && Num(sent) == Value(out) + Up(biBuf, 8 * |out|)
  }

  /** One more piece, not yet flushed. */
  lemma SentMore(sent: seq<Piece>, out: seq<Byte>, biBuf: int, biValid: nat, p: Piece)
    requires Written(sent, out, biBuf, biValid) && Small(p)
    ensures 0 <= Up(p.value, biValid) && Written(sent + [p], out, biBuf + Up(p.value, biValid), biValid + p.len)
  {
    hide Value, Up, Num, Width, Pow2;
    NumOne(p);
    NumAppend(sent, [p]);
    WidthAppend(sent, [p]);
    JoinBound(biBuf, p.value, biValid, p.len);
    UpUp(p.value, biValid, 8 * |out|);
    UpSum(biBuf, Up(p.value, biValid), 8 * |out|);
  }

  /** Some of the pending bits become bytes. */
  lemma FlushBits(sent: seq<Piece>, out: seq<Byte>, buf: int, valid: nat, k: nat, bs: seq<Byte>)
    requires Written(sent, out, buf, valid) && k <= valid && 8 * |bs| == k
    requires Value(out + bs) == Value(out) + Up(Low(buf, k), 8 * |out|)
    ensures Written(sent, out + bs, Shr(buf, k), valid - k)
  {
    hide *;
    WrittenParts(sent, out, buf, valid);
    LowHigh(buf, k);
    ShrRange(buf, k);
    ShrBound(buf, k, valid);
    UpUp(Shr(buf, k), k, 8 * |out|);
    UpSum(Low(buf, k), Up(Shr(buf, k), k), 8 * |out|);
    MakeWritten(sent, out + bs, Shr(buf, k), valid - k);
  }

  lemma WrittenParts(sent: seq<Piece>, out: seq<Byte>, biBuf: int, biValid: nat)
    requires Written(sent, out, biBuf, biValid)
    ensures AllSmall(sent) && 0 <= biBuf < Pow2(biValid)
    ensures Width(sent) == 8 * |out| + biValid && Num(sent) == Value(out) + Up(biBuf, 8 * |out|)
  {
  }

  lemma MakeWritten(sent: seq<Piece>, out: seq<Byte>, biBuf: int, biValid: nat)
    requires AllSmall(sent) && 0 <= biBuf < Pow2(biValid)
    requires Width(sent) == 8 * |out| + biValid && Num(sent) == Value(out) + Up(biBuf, 8 * |out|)
    ensures Written(sent, out, biBuf, biValid)
  {
  }

  lemma ShrRange(x: int, n: nat)
    requires x >= 0
    ensures Shr(x, n) >= 0
  {
  }

  lemma LowRange(x: int, n: nat)
    requires x >= 0
    ensures 0 <= Low(x, n) < Pow2(n)
  {
  }

  /** Sixteen of the pending bits become two bytes. */
  lemma FlushShort(sent: seq<Piece>, out: seq<Byte>, buf: int, valid: nat)
    requires Written(sent, out, buf, valid) && valid >= 16
    ensures Pow2(16) == 0x1_0000 && 0 <= Low(buf, 16) < 0x1_0000
    ensures Written(sent, out + [Low(buf, 16) % 256, Low(buf, 16) / 256], Shr(buf, 16), valid - 16)
  {
    hide *;
    WrittenBits(sent, out, buf, valid);
    LowRange(buf, 16);
    var w := Low(buf, 16);
    ShortValue(out, w);
    FlushBits(sent, out, buf, valid, 16, [w % 256, w / 256]);
  }

  lemma FlushByte(sent: seq<Piece>, out: seq<Byte>, buf: int, valid: nat)
    requires Written(sent, out, buf, valid) && valid >= 8
    ensures 0 <= Low(buf, 8) < 256 && Written(sent, out + [Low(buf, 8)], Shr(buf, 8), valid - 8)
  {
    hide *;
    WrittenBits(sent, out, buf, valid);
    LowRange(buf, 8);
    ByteValue(out, Low(buf, 8));
    FlushBits(sent, out, buf, valid, 8, [Low(buf, 8)]);
  }

  /** Zero bits that fill up the last byte. */
  function Padding(n: nat): (ps: seq<Piece>)
    ensures (n + Width(ps)) % 8 == 0 && Width(ps) < 8
  {
    if n % 8 == 0 then [] else [Piece(0, 8 - n % 8)]
  }

  lemma Padded(sent: seq<Piece>, out: seq<Byte>, buf: int, valid: nat, n: nat)
    requires Written(sent, out, buf, valid) && n >= 0 && (n == 0 || n % 8 != 0) && valid % 8 == n % 8
    ensures AllSmall(sent + Padding(n)) && Written(sent + Padding(n), out, buf, valid + Width(Padding(n)))
  {
    if n % 8 != 0 {
      SentMore(sent, out, buf, valid, Piece(0, 8 - n % 8));
      ZeroUp(valid);
    } else {
      assert sent + [] == sent;
    }
  }

  lemma PaddingIs(n: nat)
    ensures n % 8 == 0 ==> Padding(n) == Padding(0) == [] && Width(Padding(n)) == 0
    ensures n % 8 != 0 ==> Width(Padding(n)) == 8 - n % 8
  {
  }

  /** Padding depends on the place within a byte only. */
  lemma SamePadding(n: nat, m: nat)
    requires n % 8 == m % 8
    ensures Padding(n) == Padding(m)
  {
  }

  // ----- whole bytes

  /** Whole bytes, eight bits each. */
  function BytePieces(bs: seq<Byte>): seq<Piece> {
    if bs == [] then [] else [Piece(bs[0], 8)] + BytePieces(bs[1..])
  }

  lemma {:induction false} BytesSnoc(bs: seq<Byte>, b: Byte)
    ensures BytePieces(bs + [b]) == BytePieces(bs) + [Piece(b, 8)]
  {
    if bs == [] {
      assert [b][1..] == [];
    } else {
      assert (bs + [b])[1..] == bs[1..] + [b];
      BytesSnoc(bs[1..], b);
    }
  }

  lemma NoBytes()
    ensures BytePieces([]) == []
  {
  }

  /** A byte put after whole bytes. */
  lemma WholeByte(sent: seq<Piece>, out: seq<Byte>, b: Byte)
    requires Written(sent, out, 0, 0)
    ensures Written(sent + [Piece(b, 8)], out + [b], 0, 0)
  {
    hide *;
    EightBits();
    SmallPiece(b, 8);
    SentMore(sent, out, 0, 0, Piece(b, 8));
    UpNone(b);
    FlushByte(sent + [Piece(b, 8)], out, b, 8);
    LowWhole(b, 8);
  }

  /** Two bytes put after whole bytes. */
  lemma WholeShort(sent: seq<Piece>, out: seq<Byte>, w: int)
    requires Written(sent, out, 0, 0) && 0 <= w < 0x1_0000
    ensures Written(sent + [Piece(w, 16)], out + [w % 256, w / 256], 0, 0)
  {
    hide *;
    EightBits();
    SmallPiece(w, 16);
    SentMore(sent, out, 0, 0, Piece(w, 16));
    UpNone(w);
    FlushShort(sent + [Piece(w, 16)], out, w, 16);
    LowWhole(w, 16);
  }

  lemma EightBits()
    ensures Pow2(8) == 256 && Pow2(16) == 0x1_0000
  {
    SmallPowers();
  }

  lemma UpNone(x: int)
    ensures Up(x, 0) == x
  {
  }

  // ----- the pending buffer

  /** The memory holds, from a place on, the last of the bytes put out; those that found no room are lost. */
  ghost predicate Stock(mem: seq<Byte>, at: nat, pending: nat, out: seq<Byte>) {
    && pending <= |out| && (pending == 0 ==> at == 0)
    && (at + pending <= |mem| ==> mem[at..at + pending] == out[|out| - pending..])
  }

  /** What a writer has put out, the bits it holds back, and the memory it writes to. */
  datatype Snap = Snap(out: seq<Byte>, valid: nat, pending: nat, mem: seq<Byte>)

  /** More bytes were put; the memory behind them is as it was. */
  ghost predicate Grows(a: Snap, b: Snap) {
    && a.out <= b.out && |b.out| - b.pending == |a.out| - a.pending && |b.mem| == |a.mem|
    && forall i :: b.pending <= i < |b.mem| ==> b.mem[i] == a.mem[i]
  }

  /** They were put two at a time, and the last bits are held back. */
  ghost predicate Extends(a: Snap, b: Snap) {
    Grows(a, b) && (b.pending - a.pending) % 2 == 0 && (a.valid >= 1 ==> b.valid >= 1)
  }

  lemma GrowsOn(a: Snap, b: Snap, c: Snap)
    requires Grows(a, b) && Grows(b, c)
    ensures Grows(a, c)
  {
  }

  lemma ExtendsOn(a: Snap, b: Snap, c: Snap)
    requires Extends(a, b) && Extends(b, c)
    ensures Extends(a, c)
  {
    GrowsOn(a, b, c);
    hide Grows;
    assert c.pending - a.pending == (c.pending - b.pending) + (b.pending - a.pending);
  }

  lemma ExtendsSame(a: Snap)
    ensures Extends(a, a) && Grows(a, a)
  {
  }

  lemma ExtendsGrows(a: Snap, b: Snap)
    requires Extends(a, b)
    ensures Grows(a, b) && (b.pending - a.pending) % 2 == 0 && (a.valid >= 1 ==> b.valid >= 1)
  {
    hide Grows;
  }

  lemma GrowsParts(a: Snap, b: Snap)
    requires Grows(a, b)
    ensures a.out <= b.out && |b.out| - b.pending == |a.out| - a.pending && |b.mem| == |a.mem|
    ensures forall i :: b.pending <= i < |b.mem| ==> b.mem[i] == a.mem[i]
  {
  }

  /** The memory after a byte was put. */
  function Laid(mem: seq<Byte>, pending: nat, b: Byte): seq<Byte> {
    if pending < |mem| then mem[pending := b] else mem
  }

  lemma LaidStock(a: Snap, b: Byte)
    requires Stock(a.mem, 0, a.pending, a.out)
    ensures Stock(Laid(a.mem, a.pending, b), 0, a.pending + 1, a.out + [b])
    ensures Grows(a, Snap(a.out + [b], a.valid, a.pending + 1, Laid(a.mem, a.pending, b)))
  {
    var mem, out := Laid(a.mem, a.pending, b), a.out + [b];
    if a.pending + 1 <= |mem| {
      assert mem[0..a.pending + 1] == a.mem[0..a.pending] + [b];
      assert out[|out| - (a.pending + 1)..] == a.out[|a.out| - a.pending..] + [b];
    }
  }

  lemma LaidTwice(a: Snap, b: Byte, c: Byte, valid: nat)
    requires Stock(a.mem, 0, a.pending, a.out)
    ensures Stock(Laid(Laid(a.mem, a.pending, b), a.pending + 1, c), 0, a.pending + 2, a.out + [b, c])
    ensures Grows(a, Snap(a.out + [b, c], valid, a.pending + 2, Laid(Laid(a.mem, a.pending, b), a.pending + 1, c)))
  {
    var m := Snap(a.out + [b], a.valid, a.pending + 1, Laid(a.mem, a.pending, b));
    LaidStock(a, b);
    LaidStock(m, c);
    assert m.out + [c] == a.out + [b, c];
    var e := Snap(a.out + [b, c], a.valid, a.pending + 2, Laid(m.mem, a.pending + 1, c));
    GrowsOn(a, m, e);
    GrowsValid(a, e, valid);
  }

  lemma GrowsValid(a: Snap, b: Snap, valid: nat)
    requires Grows(a, b)
    ensures Grows(a, b.(valid := valid))
  {
  }

  /** The bit buffer, and the memory that it is emptied into. */
  class Writer {
    var mem: seq<Byte>     // pending_buf, and what else lives in its memory
    var pending: nat       // how many bytes are pending
    var pendingOut: nat    // where they begin
    var biBuf: int
    var biValid: nat
    ghost var out: seq<Byte>     // all bytes put so far
    ghost var sent: seq<Piece>

    constructor (size: nat)
      ensures Valid() && sent == [] && out == [] && biValid == 0 && pending == 0 && |mem| == size
    {
      mem, pending, pendingOut := seq(size, i => 0), 0, 0;
      biBuf, biValid := 0, 0;
      out, sent := [], [];
    }

    ghost function Now(): Snap
      reads `out, `biValid, `pending, `mem
    {
      Snap(out, biValid, pending, mem)
    }

    lemma NowIs()
      ensures Now() == Snap(out, biValid, pending, mem)
    {
    }

    /** The bytes put and the bits held back are the pieces sent, and the pending bytes are in memory. */
    ghost predicate Kept()
      reads `out, `biBuf, `biValid, `sent, `mem, `pending, `pendingOut
    {
      biValid <= 16 && Written(sent, out, biBuf, biValid) && Stock(mem, pendingOut, pending, out)
    }

    /** More may be put only when what is pending begins where the memory does. */
    ghost predicate Valid()
      reads `out, `biBuf, `biValid, `sent, `mem, `pending, `pendingOut
    {
      Kept() && pendingOut == 0
    }

    /** What lives in the memory beside the pending bytes may change while there are none. */
    method Put(mem': seq<Byte>)
      requires Kept() && pending == 0 && |mem'| == |mem|
      modifies `mem
      ensures Kept() && mem == mem'
    {
      hide Written;
      mem := mem';
    }

    /** Some of the pending bytes are taken; when all are, the next ones begin where the memory does. */
    method Take(len: nat) returns (bytes: seq<Byte>)
      requires Kept() && len <= pending && pendingOut + pending <= |mem|
      modifies `pending, `pendingOut
      ensures Kept() && pending == old(pending) - len && pendingOut + pending <= |mem|
      ensures |out| - old(pending) >= 0 && bytes == out[|out| - old(pending)..][..len]
    {
      hide Written;
      bytes := mem[pendingOut..pendingOut + len];
      ghost var rest := mem[pendingOut..pendingOut + pending];
      assert rest == out[|out| - pending..] && bytes == rest[..len];
      pendingOut := pendingOut + len;
      pending := pending - len;
      assert mem[pendingOut..pendingOut + pending] == rest[len..] == out[|out| - pending..];
      if pending == 0 {
        pendingOut := 0;
      }
    }

    lemma NonePending()
      requires Kept() && pending == 0
      ensures Valid()
    {
      hide Written;
    }

    /** How many bits were sent. */
    lemma WidthNow()
      requires Kept()
      ensures Width(sent) == 8 * |out| + biValid && pending <= |out| && biValid <= 16
              && Now() == Snap(out, biValid, pending, mem)
    {
      hide Width, Num, Value;
    }

    /** The place in the stream before the pieces that were sent last. */
    lemma SentWidth(before: seq<Piece>, first: Snap, ps: seq<Piece>)
      requires Valid() && Grows(first, Now()) && sent == before + ps && Width(before) == 8 * |first.out| + first.valid
      ensures 8 * pending + biValid == 8 * first.pending + first.valid + Width(ps)
    {
      hide *;
      WriterParts();
      WrittenParts(sent, out, biBuf, biValid);
      GrowsParts(first, Now());
      WidthAppend(before, ps);
    }

    /** `put_byte` */
    method PutByte(b: Byte)
      modifies `mem, `pending, `out
      ensures out == old(out) + [b] && pending == old(pending) + 1 && mem == Laid(old(mem), old(pending), b)
    {
      if pending < |mem| {
        mem := mem[pending := b];
      }
      pending := pending + 1;
      out := out + [b];
    }

    /** `put_short` of sixteen bits. */
    method PutShort(w: int)
      requires 0 <= w < 0x1_0000
      modifies `mem, `pending, `out
      ensures out == old(out) + [w % 256, w / 256] && pending == old(pending) + 2
      ensures mem == Laid(Laid(old(mem), old(pending), w % 256), old(pending) + 1, w / 256)
    {
      PutByte(w % 256);
      PutByte(w / 256);
    }

    /** `send_bits`: append a value of some bits. */
    method SendBits(value: int, length: nat)
      requires Valid() && 1 <= length <= 16 && 0 <= value < Pow2(length)
      modifies this
      ensures Valid() && sent == old(sent) + [Piece(value, length)] && biValid >= 1
      ensures Extends(old(Now()), Now())
    {
      hide *;
      ghost var buf, b, v, before := biBuf, biValid, value, Now();
      NowIs();
      WriterParts();
      SmallPiece(value, length);
      SentMore(sent, out, biBuf, biValid, Piece(value, length));
      OrApart(biBuf, value, biValid);
      WrittenBits(sent + [Piece(value, length)], out, biBuf + Up(value, biValid), biValid + length);
      ghost var total := biBuf + Up(value, biValid);
      sent := sent + [Piece(value, length)];
      if biValid > 16 - length {
        biBuf := Or(biBuf, Up(value, biValid)) % 0x1_0000;
        FlushShort(sent, out, total, b + length);
        LowIsMod(total, 16);
        LaidTwice(before, biBuf % 256, biBuf / 256, b + length - 16);
        PutShort(biBuf);
        ShrJoin(buf, v, b, 16);
        biBuf := Shr(value, 16 - biValid);
        biValid := biValid + length - 16;
        NowIs();
        MakeExtends(before);
      } else {
        biBuf := Or(biBuf, Up(value, biValid));
        biValid := biValid + length;
        NowIs();
        SameExtends(before);
      }
      MakeWriter();
    }

    lemma MakeExtends(before: Snap)
      requires Grows(before, Now()) && pending == before.pending + 2 && biValid >= 1
      ensures Extends(before, Now())
    {
      hide Grows;
    }

    lemma SameExtends(before: Snap)
      requires out == before.out && pending == before.pending && mem == before.mem && biValid >= 1
      ensures Extends(before, Now())
    {
    }

    lemma WriterParts()
      requires Valid()
      ensures Kept() && biValid <= 16 && Written(sent, out, biBuf, biValid) && 0 <= biBuf < Pow2(biValid)
      ensures pendingOut == 0 && Stock(mem, 0, pending, out) && Now() == Snap(out, biValid, pending, mem)
    {
    }

    lemma ValidKept()
      requires Valid()
      ensures Kept() && pendingOut == 0
    {
      hide Kept;
    }

    lemma KeptParts()
      requires Kept()
      ensures biValid <= 16 && Written(sent, out, biBuf, biValid) && 0 <= biBuf < Pow2(biValid)
      ensures Stock(mem, pendingOut, pending, out) && pending <= |out|
    {
    }

    lemma MakeWriter()
      requires biValid <= 16 && Written(sent, out, biBuf, biValid) && pendingOut == 0 && Stock(mem, 0, pending, out)
      ensures Valid()
    {
    }

    /** `bi_flush`: keep at most seven bits. */
    method BiFlush()
      requires Valid()
      modifies this
      ensures Valid() && sent == old(sent) && Grows(old(Now()), Now())
      ensures biValid < 16 && (old(biValid) < 16 ==> biValid < 8)
      ensures biValid == if old(biValid) == 16 then 0 else if old(biValid) >= 8 then old(biValid) - 8 else old(biValid)
    {
      hide *;
      WriterParts();
      ghost var b, before := biBuf, Now();
      NowIs();
      if biValid == 16 {
        FlushShort(sent, out, biBuf, 16);
        LowWhole(biBuf, 16);
        LaidTwice(before, biBuf % 256, biBuf / 256, 0);
        PutShort(biBuf);
        biBuf := 0;
        biValid := 0;
      } else if biValid >= 8 {
        FlushByte(sent, out, biBuf, biValid);
        LowIsMod(biBuf, 8);
        SmallPowers();
        LaidStock(before, biBuf % 256);
        PutByte(biBuf % 256);
        biBuf := Shr(biBuf, 8);
        biValid := biValid - 8;
        GrowsValid(before, Snap(out, before.valid, pending, mem), biValid);
      } else {
        ExtendsSame(before);
      }
      NowIs();
      MakeWriter();
    }

    /** `bi_windup`: fill up the last byte with zero bits and empty the buffer. */
    method BiWindup()
      requires Valid()
      modifies this
      ensures Valid() && biValid == 0 && sent == old(sent) + Padding(Width(old(sent))) && Grows(old(Now()), Now())
    {
      hide *;
      WriterParts();
      PaddingIs(biValid);
      WrittenParts(sent, out, biBuf, biValid);
      SamePadding(Width(sent), biValid);
      if biValid % 8 == 0 {
        Padded(sent, out, biBuf, biValid, 0);
      } else {
        Padded(sent, out, biBuf, biValid, biValid);
      }
      ghost var pad, before := Padding(biValid), Now();
      NowIs();
      WrittenBits(sent, out, biBuf, biValid);
      if biValid > 8 {
        FlushShort(sent + pad, out, biBuf, 16);
        LowWhole(biBuf, 16);
        WrittenBits(sent + pad, out, biBuf, 16);
        LaidTwice(before, biBuf % 256, biBuf / 256, 0);
        PutShort(biBuf);
      } else if biValid > 0 {
        FlushByte(sent + pad, out, biBuf, 8);
        LowWhole(biBuf, 8);
        WrittenBits(sent + pad, out, biBuf, 8);
        LaidStock(before, biBuf);
        PutByte(biBuf);
        GrowsValid(before, Snap(out, before.valid, pending, mem), 0);
      } else {
        ExtendsSame(before);
        GrowsValid(before, before, 0);
      }
      sent := sent + pad;
      biBuf := 0;
      biValid := 0;
      NowIs();
      MakeWriter();
    }

    /** `copy_block` with its header: the length, its complement, and the bytes, from a byte boundary on. */
    method CopyBlock(buf: seq<Byte>)
      requires Valid() && |buf| <= 0xFFFF
      modifies this
      ensures Valid() && biValid == 0 && Grows(old(Now()), Now())
      ensures sent == old(sent) + (Padding(Width(old(sent)))
                                   + ([Piece(|buf|, 16), Piece(0xFFFF - |buf|, 16)] + BytePieces(buf)))
    {
      hide *;
      ghost var first := Now();
      BiWindup();
      ghost var aligned := Now();
      WriterParts();
      WrittenBits(sent, out, biBuf, biValid);
      ghost var s, p, q := sent, Piece(|buf|, 16), Piece(0xFFFF - |buf|, 16);
      CopyHeader(|buf|);
      GrowsOn(first, aligned, Now());
      NoBytes();
      assert sent + [] == sent;
      for i := 0 to |buf|
        invariant biBuf == 0 && biValid == 0 && Grows(first, Now())
        invariant Valid() && sent == s + [p] + [q] + BytePieces(buf[..i])
      {
        ghost var before := Now();
        BytesSnoc(buf[..i], buf[i]);
        assert buf[..i + 1] == buf[..i] + [buf[i]];
        CopyByte(buf[i]);
        GrowsOn(first, before, Now());
      }
      assert buf[..|buf|] == buf;
    }

    /** The length and its complement. */
    method CopyHeader(n: nat)
      requires Valid() && biBuf == 0 && biValid == 0 && n <= 0xFFFF
      modifies this
      ensures Valid() && biBuf == 0 && biValid == 0 && Grows(old(Now()), Now())
      ensures sent == old(sent) + [Piece(n, 16)] + [Piece(0xFFFF - n, 16)]
    {
      hide *;
      WriterParts();
      ghost var before, p := Now(), Piece(n, 16);
      NowIs();
      WholeShort(sent, out, n);
      LaidTwice(before, n % 256, n / 256, 0);
      PutShort(n);
      ghost var middle := Now();
      NowIs();
      WholeShort(sent + [p], out, 0xFFFF - n);
      LaidTwice(middle, (0xFFFF - n) % 256, (0xFFFF - n) / 256, 0);
      PutShort(0xFFFF - n);
      NowIs();
      GrowsOn(before, middle, Now());
      sent := sent + [p] + [Piece(0xFFFF - n, 16)];
      MakeWriter();
    }

    method CopyByte(b: Byte)
      requires Valid() && biBuf == 0 && biValid == 0
      modifies this
      ensures Valid() && biBuf == 0 && biValid == 0 && sent == old(sent) + [Piece(b, 8)] && Grows(old(Now()), Now())
    {
      hide *;
      WriterParts();
      WholeByte(sent, out, b);
      NowIs();
      LaidStock(Now(), b);
      PutByte(b);
      NowIs();
      sent := sent + [Piece(b, 8)];
      MakeWriter();
    }
  }

  lemma SmallPiece(value: int, length: nat)
    requires 0 <= value < Pow2(length)
    ensures Small(Piece(value, length))
  {
  }

  lemma WrittenBits(sent: seq<Piece>, out: seq<Byte>, buf: int, valid: nat)
    requires Written(sent, out, buf, valid)
    ensures 0 <= buf < Pow2(valid) && Pow2(16) == 0x1_0000 && Pow2(8) == 256
    ensures (valid <= 16 ==> buf < 0x1_0000) && (valid == 0 ==> buf == 0)
  {
    SmallPowers();
    if valid <= 16 {
      Pow2Mono(valid, 16);
    }
  }

  /** A number of n bits has no others. */
  lemma LowWhole(x: int, n: nat)
    requires 0 <= x < Pow2(n)
    ensures Low(x, n) == x && Shr(x, n) == 0
  {
    LowAll(x, n);
    TopBit(x, n);
  }
}
