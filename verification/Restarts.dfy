/**
 A stream whose blocks from some byte boundary on do not refer to what is before them: those
 bytes alone are a stream for what the later blocks stand for.
 */
module Restarts {
  import opened Arith
  import opened DecodeTable
  import opened InflateSpec
  import opened InflateRuns
  import opened Lz77
  import opened BitWriter
  import opened ReadBack
  import opened Blocks
  import BlockPieces
  import HeaderBack
  import BitReservoir

  /** A place where everything was forgotten: so much data, so many blocks and bytes are before it. */
  datatype Restart = Restart(data: nat, log: nat, byte: nat)

  /**
   The blocks after the place stand alone for the data after it, and if the stream is sound it is where they begin.
   */
  ghost predicate Resumable(z: Tables, log: seq<Block>, told: seq<Byte>, size: nat, sound: bool, r: Restart) {
    && r.log <= |log| && r.data <= |told| && r.byte <= size
    && ValidLog(z, log[r.log..]) && Output(log[r.log..]) == told[r.data..]
    && (sound ==> && ValidLog(z, log[..r.log]) && Width(OpenBits(z, log[..r.log])) == 8 * r.byte
                  && Output(log[..r.log]) == told[..r.data])
  }

  lemma ResumableParts(z: Tables, log: seq<Block>, told: seq<Byte>, size: nat, sound: bool, r: Restart)
    requires Resumable(z, log, told, size, sound, r)
    ensures r.log <= |log| && r.data <= |told| && r.byte <= size
    ensures ValidLog(z, log[r.log..]) && Output(log[r.log..]) == told[r.data..]
    ensures sound ==> && ValidLog(z, log[..r.log]) && Width(OpenBits(z, log[..r.log])) == 8 * r.byte
                      && Output(log[..r.log]) == told[..r.data]
  {
    hide ValidLog, Output, OpenBits, Width;
  }

  lemma MakeResumable(z: Tables, log: seq<Block>, told: seq<Byte>, size: nat, sound: bool, r: Restart)
    requires r.log <= |log| && r.data <= |told| && r.byte <= size
    requires ValidLog(z, log[r.log..]) && Output(log[r.log..]) == told[r.data..]
    requires sound ==> && ValidLog(z, log[..r.log]) && Width(OpenBits(z, log[..r.log])) == 8 * r.byte
                       && Output(log[..r.log]) == told[..r.data]
    ensures Resumable(z, log, told, size, sound, r)
  {
    hide ValidLog, Output, OpenBits, Width;
  }

  /** At the place itself nothing comes after it. */
  lemma ResumeHere(z: Tables, log: seq<Block>, told: seq<Byte>, size: nat, sound: bool)
    requires sound ==> ValidLog(z, log) && Width(OpenBits(z, log)) == 8 * size && Output(log) == told
    ensures Resumable(z, log, told, size, sound, Restart(|told|, |log|, size))
  {
    assert log[..|log|] == log && log[|log|..] == [] && told[..|told|] == told && told[|told|..] == [];
    NoLog(z);
    hide ValidLog, Output, OpenBits, Width;
  }

  lemma NoLog(z: Tables)
    ensures ValidLog(z, []) && Output([]) == []
  {
  }

  /** One block more, which does not refer to what is before the place. */
  lemma ResumeMore(z: Tables, log: seq<Block>, b: Block, told: seq<Byte>, next: seq<Byte>, size: nat, size': nat,
                   sound: bool, sound': bool, r: Restart)
    requires Resumable(z, log, told, size, sound, r) && size <= size' && (sound' ==> sound) && told <= next
    requires ValidBlock(z, b) && r.data <= |told| && Rooted(b, told[r.data..])
    requires Adds(b, told[r.data..]) == next[r.data..]
    ensures Resumable(z, log + [b], next, size', sound', r)
  {
    hide *;
    ResumableParts(z, log, told, size, sound, r);
    LogMore(z, log[r.log..], b);
    assert (log + [b])[r.log..] == log[r.log..] + [b] && (log + [b])[..r.log] == log[..r.log];
    assert next[..r.data] == told[..r.data];
    MakeResumable(z, log + [b], next, size', sound', r);
  }

  // ----- tokens that do not reach back before a place

  lemma {:induction false} CopyFrom(before: seq<Byte>, out: seq<Byte>, len: nat, dist: nat)
    requires 1 <= dist <= |out|
    ensures CopyBack(before + out, len, dist) == before + CopyBack(out, len, dist)
  {
    hide *;
    CopyStep(before + out, len, dist);
    CopyStep(out, len, dist);
    if len > 0 {
      CopyFrom(before, out, len - 1, dist);
      var s := CopyBack(out, len - 1, dist);
      assert (before + s)[|before + s| - dist] == s[|s| - dist];
      assert before + s + [s[|s| - dist]] == before + (s + [s[|s| - dist]]);
    }
  }

  lemma CopyStep(out: seq<Byte>, len: nat, dist: nat)
    requires 1 <= dist <= |out|
    ensures
      CopyBack(out, len, dist)
      == if len == 0 then out else var s := CopyBack(out, len - 1, dist); s + [s[|s| - dist]]
  {
  }

  lemma PutFrom(before: seq<Byte>, out: seq<Byte>, t: Token)
    requires t.Pair2? ==> t.dist <= |out|
    ensures Put(before + out, t) == before + Put(out, t)
  {
    match t
    case Literal(b) =>
      assert before + out + [b] == before + (out + [b]);
    case Pair2(len, dist) =>
      if dist >= 1 {
        CopyFrom(before, out, len, dist);
      }
  }

  /** What is before does not matter to tokens that do not reach back to it. */
  lemma {:induction false} PutAllFrom(before: seq<Byte>, out: seq<Byte>, ts: seq<Token>)
    requires Grounded(out, ts)
    ensures PutAll(before + out, ts) == before + PutAll(out, ts) && Grounded(before + out, ts)
    decreases |ts|
  {
    if ts != [] {
      PutFrom(before, out, ts[0]);
      hide Put;
      PutAllFrom(before, Put(out, ts[0]), ts[1..]);
    }
  }

  lemma PutAllSince(told: seq<Byte>, d: nat, ts: seq<Token>)
    requires d <= |told| && Grounded(told[d..], ts)
    ensures PutAll(told, ts) == told[..d] + PutAll(told[d..], ts) && Grounded(told, ts)
    ensures |PutAll(told, ts)| >= d && PutAll(told[d..], ts) == PutAll(told, ts)[d..]
  {
    assert told[..d] + told[d..] == told;
    hide PutAll, Grounded;
    PutAllFrom(told[..d], told[d..], ts);
  }

  // ----- the bits from a byte boundary on

  /** Only the place within a byte matters to the bits of a block. */
  lemma BitsShift(z: Tables, b: Block, last: bool, pos: nat, k: nat)
    requires ValidBlock(z, b)
    ensures BlockBits(z, b, last, 8 * k + pos) == BlockBits(z, b, last, pos)
  {
    hide ValidBlock, BlockPieces.TokensPieces, HeaderBack.TreesPieces;
    PaddingShift(pos + 3, k);
    assert 8 * k + pos + 3 == 8 * k + (pos + 3);
    hide Padding;
  }

  lemma PaddingShift(pos: nat, k: nat)
    ensures Padding(8 * k + pos) == Padding(pos)
  {
    assert (8 * k + pos) % 8 == pos % 8;
  }

  lemma LogSplit(log: seq<Block>, k: nat)
    requires k < |log|
    ensures
      var n := |log| - 1;
      && log[..n][..k] == log[..k] && log[..n][k..] == log[k..][..n - k] && log[n] == log[k..][n - k]
      && |log[k..]| == n - k + 1
  {
  }

  lemma NoneOpen(z: Tables)
    ensures ValidLog(z, []) && OpenBits(z, []) == [] && Width([]) == 0
  {
  }

  /** The bits of the later blocks are those of a stream of their own. */
  lemma {:induction false} OpenSplit(z: Tables, log: seq<Block>, k: nat, byte: nat)
    requires ValidLog(z, log) && k <= |log| && ValidLog(z, log[..k]) && ValidLog(z, log[k..])
    requires Width(OpenBits(z, log[..k])) == 8 * byte
    ensures OpenBits(z, log) == OpenBits(z, log[..k]) + OpenBits(z, log[k..])
    decreases |log|
  {
    hide *;
    if k == |log| {
      assert log[..k] == log && log[k..] == [];
      NoneOpen(z);
      assert OpenBits(z, log) + [] == OpenBits(z, log);
    } else {
      var n := |log| - 1;
      LogSplit(log, k);
      LogParts(z, log);
      LogParts(z, log[k..]);
      OpenSplit(z, log[..n], k, byte);
      var a, b := OpenBits(z, log[..k]), OpenBits(z, log[k..][..n - k]);
      WidthAppend(a, b);
      BitsShift(z, log[n], false, Width(b), byte);
      var x := BlockBits(z, log[n], false, Width(b));
      assert a + b + x == a + (b + x);
    }
  }

  lemma ClosedSplit(z: Tables, log: seq<Block>, k: nat, byte: nat)
    requires ValidLog(z, log) && k < |log| && ValidLog(z, log[..k]) && ValidLog(z, log[k..])
    requires Width(OpenBits(z, log[..k])) == 8 * byte
    ensures log[k..] != [] && ClosedBits(z, log) == OpenBits(z, log[..k]) + ClosedBits(z, log[k..])
  {
    hide *;
    var n := |log| - 1;
    LogSplit(log, k);
    ClosedIs(z, log);
    ClosedIs(z, log[k..]);
    LogParts(z, log);
    OpenSplit(z, log[..n], k, byte);
    var a, b := OpenBits(z, log[..k]), OpenBits(z, log[k..][..n - k]);
    WidthAppend(a, b);
    BitsShift(z, log[n], true, Width(b), byte);
    var x := BlockBits(z, log[n], true, Width(b));
    assert a + b + x == a + (b + x);
    WidthAppend(a, b + x);
    PaddingShift(Width(b + x), byte);
    assert a + (b + x) + Padding(Width(b + x)) == a + (b + x + Padding(Width(b + x)));
  }

  // ----- the bytes from there on

  lemma {:induction false} ValueAppend(s: seq<Byte>, t: seq<Byte>)
    ensures Value(s + t) == Value(s) + Up(Value(t), 8 * |s|)
  {
    if s == [] {
      assert s + t == t;
    } else {
      var b, u := s[0], s[1..];
      assert s == [b] + u && s + t == [b] + (u + t);
      ValueCons(b, u);
      ValueCons(b, u + t);
      hide Value;
      ValueAppend(u, t);
      UpSum(Value(u), Up(Value(t), 8 * |u|), 8);
      UpUp(Value(t), 8 * |u|, 8);
    }
  }

  /** Two numbers laid end to end tell both. */
  lemma ApartUnique(a: int, b: int, c: int, d: int, n: nat)
    requires 0 <= a < Pow2(n) && 0 <= c < Pow2(n) && b >= 0 && d >= 0 && a + Up(b, n) == c + Up(d, n)
    ensures a == c && b == d
  {
    hide *;
    LowJoin(a, b, n);
    LowJoin(c, d, n);
  }

  /** The bytes from a boundary on hold the pieces from there on. */
  lemma LaterBytes(out: seq<Byte>, byte: nat, a: seq<Piece>, b: seq<Piece>)
    requires byte <= |out| && AllSmall(a) && AllSmall(b) && AllSmall(a + b) && Num(a + b) == Value(out)
    requires Width(a) == 8 * byte && Width(a + b) == 8 * |out|
    ensures Width(b) == 8 * |out[byte..]| && Num(b) == Value(out[byte..])
  {
    hide *;
    WidthAppend(a, b);
    NumAppend(a, b);
    assert out == out[..byte] + out[byte..];
    ValueAppend(out[..byte], out[byte..]);
    BitReservoir.ValueBound(out[..byte]);
    NumBound(a);
    NumBound(b);
    ValueBounds(out[byte..]);
    ApartUnique(Num(a), Num(b), Value(out[..byte]), Value(out[byte..]), 8 * byte);
  }

  lemma NumBound(a: seq<Piece>)
    requires AllSmall(a)
    ensures 0 <= Num(a) < Pow2(Width(a))
  {
  }

  lemma ValueBounds(s: seq<Byte>)
    ensures Value(s) >= 0
  {
  }

  lemma SmallBoth(a: seq<Piece>, b: seq<Piece>)
    requires AllSmall(a + b)
    ensures AllSmall(a) && AllSmall(b)
  {
    hide Small;
    forall i | 0 <= i < |a|
      ensures Small(a[i])
    {
      assert (a + b)[i] == a[i];
    }
    forall i | 0 <= i < |b|
      ensures Small(b[i])
    {
      assert (a + b)[|a| + i] == b[i];
    }
  }

  /** A decoder that begins at the place in a complete stream ends with what the later blocks stand for. */
  lemma ReadLater(out: seq<Byte>, z: Tables, log: seq<Block>, k: nat, byte: nat) returns (m: Machine)
    requires ValidLog(z, log) && k < |log| && ValidLog(z, log[..k]) && ValidLog(z, log[k..])
    requires Width(OpenBits(z, log[..k])) == 8 * byte && byte <= |out|
    requires AllSmall(ClosedBits(z, log)) && Width(ClosedBits(z, log)) == 8 * |out|
             && Num(ClosedBits(z, log)) == Value(out)
    ensures Reaches(out[byte..], m) && m.c == Config(Done, true, Output(log[k..])) && m.pos == 8 * |out[byte..]|
  {
    hide *;
    ClosedSplit(z, log, k, byte);
    var a, b := OpenBits(z, log[..k]), ClosedBits(z, log[k..]);
    SmallBoth(a, b);
    LaterBytes(out, byte, a, b);
    m := ReadClosed(out[byte..], z, log[k..]);
  }

  /** And in a stream that goes on. */
  lemma ReadLaterSoFar(out: seq<Byte>, z: Tables, log: seq<Block>, k: nat, byte: nat) returns (m: Machine)
    requires ValidLog(z, log) && k <= |log| && ValidLog(z, log[..k]) && ValidLog(z, log[k..])
    requires Width(OpenBits(z, log[..k])) == 8 * byte && byte <= |out|
    requires AllSmall(OpenBits(z, log)) && Width(OpenBits(z, log)) == 8 * |out| && Num(OpenBits(z, log)) == Value(out)
    ensures Reaches(out[byte..], m) && m.c == Config(Type, false, Output(log[k..])) && m.pos == 8 * |out[byte..]|
  {
    hide *;
    OpenSplit(z, log, k, byte);
    var a, b := OpenBits(z, log[..k]), OpenBits(z, log[k..]);
    SmallBoth(a, b);
    LaterBytes(out, byte, a, b);
    StartAt(out[byte..], b);
    assert b + [] == b;
    m := ReadOpen(out[byte..], z, log[k..], []);
    AtParts(out[byte..], m, []);
    LeftIs(out[byte..], m);
    NoWidth();
  }
}
