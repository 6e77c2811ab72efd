/**
 The memory that the pending bytes share with the tokens of a block (`deflate.c`): of four
 times `lit_bufsize` bytes, the pending bytes grow from the first one on, the distances lie
 from the first quarter on, two bytes each, and the lengths or literals in the last quarter.
 A token can be read as long as the pending bytes have not reached its distance.
 */
module Overlay {
  import opened InflateSpec
  import opened Lz77
  import opened BitWriter
  import opened BlockPieces

  /** What d_buf holds for a token. */
  function DistField(t: Token): int {
    match t
    case Literal(_) => 0
    case Pair2(_, dist) => dist
  }

  /** What l_buf holds for a token. */
  function LengthField(t: Token): int {
    match t
    case Literal(b) => b
    case Pair2(len, _) => len - 3
  }

  /** Two bytes of memory as one number. */
  function Word(mem: seq<Byte>, at: nat): (w: nat)
    requires at + 1 < |mem|
    ensures w < 0x1_0000
  {
    var low: int, high: int := mem[at], mem[at + 1];
    low + 256 * high
  }

  predicate TokenIn(mem: seq<Byte>, size: nat, i: nat, t: Token) {
    && |mem| == 4 * size && i < size
    && Word(mem, size + 2 * i) == DistField(t) && mem[3 * size + i] == LengthField(t)
  }

  /** The tokens are in memory. */
  ghost predicate TokensIn(mem: seq<Byte>, size: nat, ts: seq<Token>) {
    |mem| == 4 * size && |ts| <= size && forall i :: 0 <= i < |ts| ==> TokenIn(mem, size, i, ts[i])
  }

  /** The token that a distance and a length or literal stand for. */
  function TokenOf(dist: nat, lc: Byte): Token {
    if dist == 0 then Literal(lc) else Pair2(lc + 3, dist)
  }

  lemma TokenRead(mem: seq<Byte>, size: nat, i: nat, t: Token)
    requires TokenIn(mem, size, i, t) && Proper(t)
    ensures TokenOf(Word(mem, size + 2 * i), mem[3 * size + i]) == t
  {
  }

  /** A token that the pending bytes have not reached is as it was. */
  lemma TokenStays(mem: seq<Byte>, mem': seq<Byte>, size: nat, i: nat, t: Token, pending: nat)
    requires TokenIn(mem, size, i, t) && |mem'| == |mem| && pending <= size + 2 * i
    requires forall j :: pending <= j < |mem| ==> mem'[j] == mem[j]
    ensures TokenIn(mem', size, i, t)
  {
  }

  /** The memory with one more token. */
  function WithToken(mem: seq<Byte>, size: nat, i: nat, t: Token): (mem': seq<Byte>)
    requires |mem| == 4 * size && i < size && Proper(t)
    ensures |mem'| == |mem|
  {
    mem[size + 2 * i := DistField(t) % 256][size + 2 * i + 1 := DistField(t) / 256][3 * size + i := LengthField(t)]
  }

  lemma StoredMore(mem: seq<Byte>, size: nat, ts: seq<Token>, t: Token)
    requires TokensIn(mem, size, ts) && |ts| < size && Proper(t)
    ensures TokensIn(WithToken(mem, size, |ts|, t), size, ts + [t])
  {
    var mem', n := WithToken(mem, size, |ts|, t), |ts|;
    assert TokenIn(mem', size, n, t);
    forall i | 0 <= i < |ts + [t]| ensures TokenIn(mem', size, i, (ts + [t])[i]) {
      if i < n {
        assert TokenIn(mem, size, i, ts[i]);
      }
    }
  }

  // ----- how far the pending bytes have come

  /** The bytes that so many bits fill when they leave the bit buffer sixteen at a time. */
  function PendingAt(bits: nat): (n: nat) {
    if bits == 0 then 0 else (bits - 1) / 16 * 2
  }

  lemma PendingIs(pending: nat, valid: nat, bits: nat)
    requires 8 * pending + valid == bits && 1 <= valid <= 16 && pending % 2 == 0
    ensures pending == PendingAt(bits)
  {
  }

  /** Before each token is read, `start` bits and those of the tokens before it have not reached its place in memory. */
  ghost predicate Ahead(m: Maps, ts: seq<Token>, lit: CodeTree, dist: CodeTree, start: nat, size: nat)
    requires AllSendable(m, ts, lit, dist)
  {
    forall k :: 0 <= k < |ts| ==> AheadAt(m, ts, lit, dist, start, size, k)
  }

  ghost predicate AheadAt(m: Maps, ts: seq<Token>, lit: CodeTree, dist: CodeTree, start: nat, size: nat, k: nat)
    requires AllSendable(m, ts, lit, dist) && k < |ts|
  {
    PendingAt(start + Width(TokensPieces(m, ts[..k], lit, dist))) <= size + 2 * k
  }
}
