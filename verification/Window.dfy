/**
 The circular window of `inflate`: the last bytes put out by earlier calls, kept
 for matches that reach back before the current output buffer.
 */
module Window {
  import opened Arith
  import opened InflateSpec

  /** The cell that holds the byte d back from the write position. */
  function Back(write: int, size: int, d: int): int {
    if d <= write then write - d else size + write - d
  }

  /** The last have bytes of hist stand in b, ending just before cell write. */
  ghost predicate Mirrors(b: seq<Byte>, write: int, have: int, hist: seq<Byte>) {
    && 0 < |b| && 0 <= write < |b| && have == Min(|hist|, |b|)
    && (have < |b| ==> write == have)
    && (forall d :: 1 <= d <= have ==> b[Back(write, |b|, d)] == hist[|hist| - d])
  }

  /** The bytes of s written over b from cell i on. */
  function Over(b: seq<Byte>, i: nat, s: seq<Byte>): (r: seq<Byte>)
    requires i + |s| <= |b|
    ensures |r| == |b|
    ensures forall k :: 0 <= k < |b| ==> r[k] == if i <= k < i + |s| then s[k - i] else b[k]
  {
    b[..i] + s + b[i + |s|..]
  }

  /** Output of a full window or more replaces everything. */
  lemma Replaced(b: seq<Byte>, s: seq<Byte>, hist: seq<Byte>)
    requires 0 < |b| <= |s|
    ensures Mirrors(Over(b, 0, s[|s| - |b|..]), 0, |b|, hist + s)
  {
  }

  /** Output that fits before the end of the window. */
  lemma Appended(b: seq<Byte>, write: int, have: int, hist: seq<Byte>, s: seq<Byte>)
    requires Mirrors(b, write, have, hist) && write + |s| <= |b| && |s| < |b|
    ensures var w := write + |s|;
            Mirrors(Over(b, write, s), if w == |b| then 0 else w, if have < |b| then have + |s| else have, hist + s)
  {
    var w := if write + |s| == |b| then 0 else write + |s|;
    var h := if have < |b| then have + |s| else have;
    forall d | 1 <= d <= h ensures Over(b, write, s)[Back(w, |b|, d)] == (hist + s)[|hist + s| - d] {
      if d > |s| {
        assert b[Back(write, |b|, d - |s|)] == hist[|hist| - (d - |s|)];
      }
    }
  }

  /** Output that runs over the end of the window and goes on at its start. */
  lemma Wrapped(b: seq<Byte>, write: int, have: int, hist: seq<Byte>, s: seq<Byte>)
    requires Mirrors(b, write, have, hist) && write + |s| > |b| && |s| < |b|
    ensures var k := |b| - write;
            Mirrors(Over(Over(b, write, s[..k]), 0, s[k..]), |s| - k, |b|, hist + s)
  {
    var k := |b| - write;
    var w := |s| - k;
    var r := Over(Over(b, write, s[..k]), 0, s[k..]);
    forall d | 1 <= d <= |b| ensures r[Back(w, |b|, d)] == (hist + s)[|hist + s| - d] {
      if d > |s| {
        assert b[Back(write, |b|, d - |s|)] == hist[|hist| - (d - |s|)];
      }
    }
  }

  class SlidingWindow {
    const buf: array<Byte>
    var wsize: nat
    var whave: nat
    var write: nat

    /** A window that holds nothing, and is not in use yet. */
    constructor (wbits: nat)
      requires 8 <= wbits <= 15
      ensures fresh(buf) && wsize == 0 && Holds([]) && buf.Length == Pow2(wbits)
    {
      buf := new Byte[Pow2(wbits)](i => 0);
      wsize, whave, write := 0, 0, 0;
    }

    /** The window keeps the end of the output hist; while it is not in use there is none. */
    ghost predicate Holds(hist: seq<Byte>)
      reads this, buf
    {
      && 0 < buf.Length
      && if wsize == 0 then whave == 0 && hist == []
         else wsize == buf.Length && Mirrors(buf[..], write, whave, hist)
    }

    /** Copy s over the window from cell i on. */
    method Copy(i: nat, s: seq<Byte>)
      requires i + |s| <= buf.Length
      modifies buf
      ensures buf[..] == Over(old(buf[..]), i, s)
    {
      ghost var b := buf[..];
      for k := 0 to |s|
        invariant forall j :: 0 <= j < buf.Length ==> buf[j] == if i <= j < i + k then s[j - i] else b[j]
      {
        buf[i + k] := s[k];
      }
    }

    /** `updatewindow`: take in the output of this call. */
    method Update(out: seq<Byte>, ghost hist: seq<Byte>)
      requires Holds(hist)
      modifies this, buf
      ensures wsize == buf.Length && Holds(hist + out)
    {
      if wsize == 0 {
        wsize := buf.Length;
        write := 0;
        whave := 0;
      }
      ghost var b := buf[..];
      assert Mirrors(b, write, whave, hist);
      hide Mirrors, Over;
      var copy := |out|;
      if copy >= wsize {
        Replaced(b, out, hist);
        Copy(0, out[|out| - wsize..]);
        write := 0;
        whave := wsize;
      } else {
        Circulate(out, hist, b);
      }
    }

    /** Less output than a full window: up to the end of the window, then from its start. */
    method Circulate(out: seq<Byte>, ghost hist: seq<Byte>, ghost b: seq<Byte>)
      requires b == buf[..] && wsize == buf.Length && Mirrors(b, write, whave, hist) && |out| < wsize
      modifies this, buf
      ensures wsize == buf.Length && Mirrors(buf[..], write, whave, hist + out)
    {
      hide Mirrors, Over;
      MirrorsBound(b, write, whave, hist);
      var copy := |out|;
      var dist := wsize - write;
      if dist > copy {
        dist := copy;
      }
      ghost var s := out[..dist];
      if dist == |out| {
        assert s == out;
        Appended(b, write, whave, hist, out);
      } else {
        Wrapped(b, write, whave, hist, out);
      }
      Copy(write, out[..dist]);
      copy := copy - dist;
      if copy != 0 {
        Copy(0, out[|out| - copy..]);
        write := copy;
        whave := wsize;
      } else {
        write := write + dist;
        if write == wsize {
          write := 0;
        }
        if whave < wsize {
          whave := whave + dist;
        }
      }
    }
  }

  lemma MirrorsBound(b: seq<Byte>, write: int, have: int, hist: seq<Byte>)
    requires Mirrors(b, write, have, hist)
    ensures 0 <= write < |b| && 0 <= have == Min(|hist|, |b|)
  {
  }

  /** The bytes a match takes from the window: `copy` of them, reading forward from one cell. */
  lemma WindowBytes(b: seq<Byte>, write: int, have: int, hist: seq<Byte>, d: int, k: int)
    requires Mirrors(b, write, have, hist) && 1 <= d <= have && 0 <= k < (if d > write then d - write else d)
    ensures 0 <= Back(write, |b|, d) + k < |b| && 0 <= |hist| - d + k < |hist|
    ensures b[Back(write, |b|, d) + k] == hist[|hist| - d + k]
  {
    assert Back(write, |b|, d) + k == Back(write, |b|, d - k);
  }
}
