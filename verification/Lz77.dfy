/**
 LZ77 factorisations: literals and (length, distance) pairs, and what replaying
 them gives.  A pair copies a byte at a time, so it may overlap what it writes.
 */
module Lz77 {
  import opened InflateSpec

  datatype Token = Literal(byte: Byte) | Pair2(len: nat, dist: nat)

  /** len bytes copied from dist back, one at a time. */
  function CopyBack(out: seq<Byte>, len: nat, dist: nat): (r: seq<Byte>)
    requires 1 <= dist <= |out|
    ensures |r| == |out| + len && out <= r
  {
    if len == 0 then out
    else var s := CopyBack(out, len - 1, dist); s + [s[|s| - dist]]
  }

  /** What a token adds; a distance that reaches too far back adds nothing. */
  function Put(out: seq<Byte>, t: Token): seq<Byte> {
    match t
    case Literal(b) => out + [b]
    case Pair2(len, dist) => if 1 <= dist <= |out| then CopyBack(out, len, dist) else out
  }

  /** What the tokens add, one after the other. */
  function PutAll(out: seq<Byte>, ts: seq<Token>): seq<Byte>
    decreases |ts|
  {
    if ts == [] then out else PutAll(Put(out, ts[0]), ts[1..])
  }

  /** No distance reaches back before the start of the output. */
  ghost predicate Grounded(out: seq<Byte>, ts: seq<Token>)
    decreases |ts|
  {
    ts == [] || ((ts[0].Pair2? ==> ts[0].dist <= |out|) && Grounded(Put(out, ts[0]), ts[1..]))
  }

  lemma {:induction false} PutSnoc(out: seq<Byte>, ts: seq<Token>, t: Token)
    ensures PutAll(out, ts + [t]) == Put(PutAll(out, ts), t)
    ensures Grounded(out, ts) && (t.Pair2? ==> t.dist <= |PutAll(out, ts)|) ==> Grounded(out, ts + [t])
    decreases |ts|
  {
    if ts == [] {
      assert [t][1..] == [];
    } else {
      assert (ts + [t])[1..] == ts[1..] + [t];
      PutSnoc(Put(out, ts[0]), ts[1..], t);
    }
  }

  /** The n bytes of src from position i on repeat those dist before. */
  ghost predicate Repeats(src: seq<Byte>, i: int, n: nat, dist: int) {
    && 1 <= dist <= i && i + n <= |src|
    && forall k :: i <= k < i + n ==> src[k] == src[k - dist]
  }

  /** Copying a true match gives the bytes that the source has there. */
  lemma {:induction false} CopyTrue(src: seq<Byte>, i: nat, n: nat, dist: nat)
    requires Repeats(src, i, n, dist)
    ensures CopyBack(src[..i], n, dist) == src[..i + n]
  {
    if n > 0 {
      CopyTrue(src, i, n - 1, dist);
      assert src[i + n - 1] == src[i + n - 1 - dist];
      assert src[..i + n] == src[..i + n - 1] + [src[i + n - 1]];
    }
  }

  /** One more literal. */
  lemma LiteralTrue(src: seq<Byte>, out: seq<Byte>, ts: seq<Token>, i: nat)
    requires i < |src| && PutAll(out, ts) == src[..i] && Grounded(out, ts)
    ensures PutAll(out, ts + [Literal(src[i])]) == src[..i + 1] && Grounded(out, ts + [Literal(src[i])])
  {
    PutSnoc(out, ts, Literal(src[i]));
    assert src[..i + 1] == src[..i] + [src[i]];
  }

  /** One more match. */
  lemma MatchTrue(src: seq<Byte>, out: seq<Byte>, ts: seq<Token>, i: nat, n: nat, dist: nat)
    requires Repeats(src, i, n, dist) && PutAll(out, ts) == src[..i] && Grounded(out, ts)
    ensures PutAll(out, ts + [Pair2(n, dist)]) == src[..i + n] && Grounded(out, ts + [Pair2(n, dist)])
  {
    PutSnoc(out, ts, Pair2(n, dist));
    CopyTrue(src, i, n, dist);
  }
}
