/**
 What inflating means: a decoder for raw deflate data (RFC 1951) that works
 directly on the bit stream.  Symbols are found by their canonical codes, matches
 are copied a byte at a time, and nothing is known about buffers, tables or windows.
 The decoder is a step function; a step that needs more input than there is is stuck.
 */
module InflateSpec {
  import opened Arith
  import opened Canonical
  import opened BitOrder
  import opened DecodeTable
  import opened SymbolSort

  type Byte = x: int | 0 <= x < 256

  /** How many symbols have each code length. */
  function Cnt(lens: seq<int>): (cnt: seq<int>)
    ensures |cnt| == MAXBITS + 1 && Counted(lens, cnt)
  {
    seq(MAXBITS + 1, b => Count(lens, b))
  }

  // ----- decoding one symbol

  datatype Symbol = Found(sym: nat) | Gap | More

  /** No code starts with the first bit of x. */
  ghost predicate Dead(lens: seq<int>, x: int) {
    x >= 0 && forall y :: y >= 0 && Rev(y, 1) == Rev(x, 1) ==> NoCode(lens, Cnt(lens), y)
  }

  ghost predicate Complete(lens: seq<int>, x: int, n: nat, s: nat) {
    Starts(lens, Cnt(lens), x, s) && lens[s] <= n
  }

  /** The symbol whose code starts x, when that can be told from the first n bits. */
  ghost function SymbolAt(lens: seq<int>, x: int, n: nat): (r: Symbol)
    ensures r.Found? ==> Complete(lens, x, n, r.sym)
  {
    if exists s: nat :: Complete(lens, x, n, s) then
      var s: nat :| Complete(lens, x, n, s);
      Found(s)
    else if n >= 1 && Dead(lens, x) then Gap
    else More
  }

  // ----- the decoder's state

  /** The codes of a block: literals and lengths, distances. */
  datatype Pair = Pair(lit: seq<int>, dist: seq<int>)

  datatype State =
    | Type
    | Stored
    | StoredLen
    | Copy(length: nat)
    | Table
    | LenLens(nlen: nat, ndist: nat, ncode: nat, read: seq<int>)
    | CodeLens(nlen: nat, ndist: nat, code: seq<int>, lens: seq<int>)
    | Len(c: Pair)
    | Lit(c: Pair, byte: Byte)
    | LenExt(c: Pair, length: nat, extra: nat)
    | Dist(c: Pair, length: nat)
    | DistExt(c: Pair, length: nat, dist: nat, extra: nat)
    | Match(c: Pair, length: nat, dist: nat)
    | Check
    | Done
    | Bad

  /** The state within a block, whether the block is the last, and the output so far. */
  datatype Config = Config(st: State, last: bool, out: seq<Byte>)

  /** A step drops k bits; a stuck decoder waits for input, or has finished. */
  datatype Step = Move(k: nat, next: Config) | Stuck

  /** The order in which code length code lengths are sent. */
  const ORDER: seq<nat> := [16, 17, 18, 0, 8, 7, 9, 6, 10, 5, 11, 4, 12, 3, 13, 2, 14, 1, 15]

  /** Lengths read in the order of ORDER, put at their places; the rest are zero. */
  function Unordered(read: seq<int>, n: nat): (lens: seq<int>)
    requires n <= |read| && n <= 19
    ensures |lens| == 19
  {
    if n == 0 then seq(19, i => 0) else Unordered(read, n - 1)[ORDER[n - 1] := read[n - 1]]
  }

  function FixedLit(): (lens: seq<int>)
    ensures |lens| == 288
  {
    seq(144, i => 8) + seq(112, i => 9) + seq(24, i => 7) + seq(8, i => 8)
  }

  function FixedDist(): (lens: seq<int>)
    ensures |lens| == 32
  {
    seq(32, i => 5)
  }

  const FIXED := Pair(FixedLit(), FixedDist())

  // ----- steps, state by state

  /** The header of a block: three bits; after the last block, skip to a byte boundary. */
  function StepType(x: int, n: nat, c: Config): Step
    requires x >= 0
  {
    if c.last then Move(n % 8, c.(st := Check))
    else if n < 3 then Stuck
    else
      var kind := Low(Shr(x, 1), 2);
      var st := if kind == 0 then Stored else if kind == 1 then Len(FIXED) else if kind == 2 then Table else Bad;
      Move(3, c.(st := st, last := Low(x, 1) == 1))
  }

  /** A stored block's length and its complement. */
  function StepStoredLen(x: int, n: nat, c: Config): Step
    requires x >= 0
  {
    if n < 32 then Stuck
    else
      var len, nlen := Low(x, 16), Low(Shr(x, 16), 16);
      if len + nlen != 0xFFFF then Move(0, c.(st := Bad)) else Move(32, c.(st := Copy(len)))
  }

  function StepCopy(x: int, n: nat, c: Config): Step
    requires x >= 0 && c.st.Copy?
  {
    if c.st.length == 0 then Move(0, c.(st := Type))
    else if n < 8 then Stuck
    else Move(8, c.(st := Copy(c.st.length - 1), out := c.out + [ByteOf(x)]))
  }

  function ByteOf(x: int): Byte
    requires x >= 0
  {
    assert Pow2(8) == 256;
    Low(x, 8)
  }

  /** The sizes of a dynamic block's codes. */
  function StepTable(x: int, n: nat, c: Config): Step
    requires x >= 0
  {
    if n < 14 then Stuck
    else
      var nlen, ndist, ncode := Low(x, 5) + 257, Low(Shr(x, 5), 5) + 1, Low(Shr(x, 10), 4) + 4;
      Move(14, c.(st := if nlen > 286 || ndist > 30 then Bad else LenLens(nlen, ndist, ncode, [])))
  }

  ghost function StepLenLens(x: int, n: nat, c: Config): Step
    requires x >= 0 && c.st.LenLens?
  {
    var s := c.st;
    if |s.read| < s.ncode then
      if n < 3 then Stuck else Move(3, c.(st := s.(read := s.read + [Low(x, 3)])))
    else if |s.read| > 19 then Stuck
    else
      var code := Unordered(s.read, |s.read|);
      Move(0, c.(st := if Acceptable(Codes, Cnt(code)) then CodeLens(s.nlen, s.ndist, code, []) else Bad))
  }

  /** The run that code length symbol s stands for: extra bits, base count, value repeated. */
  function RunBits(s: nat): nat {
    if s == 16 then 2 else if s == 17 then 3 else 7
  }

  function RunBase(s: nat): nat {
    if s == 18 then 11 else 3
  }

  /** One code length symbol of k bits: a length, or a run of the previous length or of zeros. */
  function StepRun(x: int, n: nat, c: Config, s: nat, k: nat): Step
    requires x >= 0 && c.st.CodeLens? && k <= n
  {
    var t := c.st;
    if s < 16 then Move(k, c.(st := t.(lens := t.lens + [s])))
    else if n < k + RunBits(s) then Stuck
    else if s == 16 && t.lens == [] then Move(k, c.(st := Bad))
    else
      var count := RunBase(s) + Low(Shr(x, k), RunBits(s));
      var value := if s == 16 then t.lens[|t.lens| - 1] else 0;
      if |t.lens| + count > t.nlen + t.ndist then Move(k + RunBits(s), c.(st := Bad))
      else Move(k + RunBits(s), c.(st := t.(lens := t.lens + seq(count, i => value))))
  }

  /** A bit that is no code counts as the length zero; the empty code is refused later. */
  ghost function StepCodeLens(x: int, n: nat, c: Config): Step
    requires x >= 0 && c.st.CodeLens?
  {
    var t := c.st;
    if |t.lens| < t.nlen + t.ndist then
      match SymbolAt(t.code, x, n)
      case More => Stuck
      case Gap => StepRun(x, n, c, 0, 1)
      case Found(s) => StepRun(x, n, c, s, t.code[s])
    else if |t.lens| < t.nlen then Stuck
    else Move(0, c.(st := AfterLens(t.lens[..t.nlen], t.lens[t.nlen..])))
  }

  /** The codes of a dynamic block, unless their lengths are refused. */
  ghost function AfterLens(lit: seq<int>, dist: seq<int>): State {
    if Acceptable(Lens, Cnt(lit)) && Acceptable(Dists, Cnt(dist)) then Len(Pair(lit, dist)) else Bad
  }

  /** Base and number of extra bits of a length symbol. */
  function LengthBase(i: nat): nat
    requires i < 29
  {
    LBASE[i]
  }

  function LengthExtra(i: nat): nat
    requires i < 29
  {
    LEXT[i] - 16
  }

  /** Base and number of extra bits of a distance symbol. */
  function DistanceBase(i: nat): nat
    requires i < 30
  {
    DBASE[i]
  }

  function DistanceExtra(i: nat): nat
    requires i < 30
  {
    DEXT[i] - 16
  }

  /** What a literal/length symbol leads to; 286 and 287 do not occur in valid data. */
  function AfterLen(d: Pair, s: nat): State {
    if s < 256 then Lit(d, s)
    else if s == 256 then Type
    else if s < 286 then LenExt(d, LengthBase(s - 257), LengthExtra(s - 257))
    else Bad
  }

  ghost function StepLen(x: int, n: nat, c: Config): Step
    requires x >= 0 && c.st.Len?
  {
    var d := c.st.c;
    match SymbolAt(d.lit, x, n)
    case More => Stuck
    case Gap => Move(1, c.(st := Bad))
    case Found(s) => Move(d.lit[s], c.(st := AfterLen(d, s)))
  }

  function StepLenExt(x: int, n: nat, c: Config): Step
    requires x >= 0 && c.st.LenExt?
  {
    var s := c.st;
    if n < s.extra then Stuck else Move(s.extra, c.(st := Dist(s.c, s.length + Low(x, s.extra))))
  }

  function AfterDist(c: Pair, length: nat, d: nat): State {
    if d < 30 then DistExt(c, length, DistanceBase(d), DistanceExtra(d)) else Bad
  }

  ghost function StepDist(x: int, n: nat, c: Config): Step
    requires x >= 0 && c.st.Dist?
  {
    var s := c.st;
    match SymbolAt(s.c.dist, x, n)
    case More => Stuck
    case Gap => Move(1, c.(st := Bad))
    case Found(d) => Move(s.c.dist[d], c.(st := AfterDist(s.c, s.length, d)))
  }

  /** A distance must not reach back before the start of the output. */
  function StepDistExt(x: int, n: nat, c: Config): Step
    requires x >= 0 && c.st.DistExt?
  {
    var s := c.st;
    if n < s.extra then Stuck
    else
      var d := s.dist + Low(x, s.extra);
      Move(s.extra, c.(st := if d > |c.out| then Bad else Match(s.c, s.length, d)))
  }

  /** Copy one byte of a match. */
  function StepMatch(c: Config): Step
    requires c.st.Match?
  {
    var s := c.st;
    if s.length == 0 || s.dist == 0 || s.dist > |c.out| then Stuck
    else Move(0, c.(st := if s.length == 1 then Len(s.c) else s.(length := s.length - 1),
                    out := c.out + [c.out[|c.out| - s.dist]]))
  }

  /** One step, given that the unread input is x and holds n bits. */
  ghost function StepAt(x: int, n: nat, c: Config): Step
    requires x >= 0
  {
    match c.st
    case Type => StepType(x, n, c)
    case Stored => Move(n % 8, c.(st := StoredLen))
    case StoredLen => StepStoredLen(x, n, c)
    case Copy(_) => StepCopy(x, n, c)
    case Table => StepTable(x, n, c)
    case LenLens(_, _, _, _) => StepLenLens(x, n, c)
    case CodeLens(_, _, _, _) => StepCodeLens(x, n, c)
    case Len(_) => StepLen(x, n, c)
    case Lit(d, b) => Move(0, c.(st := Len(d), out := c.out + [b]))
    case LenExt(_, _, _) => StepLenExt(x, n, c)
    case Dist(_, _) => StepDist(x, n, c)
    case DistExt(_, _, _, _) => StepDistExt(x, n, c)
    case Match(_, _, _) => StepMatch(c)
    case Check => Move(0, c.(st := Done))
    case Done => Stuck
    case Bad => Stuck
  }
}
