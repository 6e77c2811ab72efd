/**
 `deflate`: the string matching over a sliding window with hash chains, greedy and
 lazy, the blocks it makes of the tokens, and the delivery of the bytes.  Whatever the
 calls, the blocks flushed stand for the bytes consumed.
 */
module Deflate {
  import opened Arith
  import opened InflateSpec
  import opened InflateRuns
  import opened Lz77
  import opened RunningHash
  import opened HashChains
  import opened Trees
  import opened Restarts
  import Blocks
  import BlockPieces
  import BitWriter
  import Costs

  const MIN_MATCH := 3
  const MAX_MATCH := 258
  const MIN_LOOKAHEAD := 262  // MAX_MATCH + MIN_MATCH + 1
  const NIL := 0
  const TOO_FAR := 4096

  datatype Strategy = Default | Filtered | HuffmanOnly | Rle | Fixed

  datatype BlockState = NeedMore | BlockDone | FinishStarted | FinishDone

  datatype Flush = NoFlush | PartialFlush | SyncFlush | FullFlush | Finish

  function Ord(flush: Flush): int {
    match flush
    case NoFlush => 0
    case PartialFlush => 1
    case SyncFlush => 2
    case FullFlush => 3
    case Finish => 4
  }

  datatype Code = Ok | StreamEnd | StreamError | BufError

  /** How hard to look for matches, by level. */
  datatype Tuning = Tuning(good: nat, lazy: nat, nice: nat, chain: nat)

  const CONFIGURATION: seq<Tuning> := [
    Tuning(0, 0, 0, 0), Tuning(4, 4, 8, 4), Tuning(4, 5, 16, 8), Tuning(4, 6, 32, 32), Tuning(4, 4, 16, 16),
    Tuning(8, 16, 32, 32), Tuning(8, 16, 128, 128), Tuning(8, 32, 128, 256), Tuning(32, 128, 258, 1024),
    Tuning(32, 258, 258, 4096)]

  /** The window holds the data from base on. */
  ghost predicate Holds(w: seq<Byte>, src: seq<Byte>, base: nat, end: nat) {
    end <= |w| && |src| == base + end && w[..end] == src[base..]
  }

  /** The n bytes at m are those at p, dist later. */
  ghost predicate SameBytes(w: seq<Byte>, m: int, p: int, n: int) {
    && 0 <= m < p && 0 <= n && p + n <= |w|
    && forall j :: p <= j < p + n ==> w[j] == w[j - (p - m)]
  }

  /** Equal bytes in the window are a repetition in the data. */
  lemma WindowRepeats(w: seq<Byte>, src: seq<Byte>, base: nat, end: nat, m: int, p: int, n: int)
    requires Holds(w, src, base, end) && SameBytes(w, m, p, n) && p + n <= end
    ensures Repeats(src, base + p, n, p - m)
  {
    forall k | base + p <= k < base + p + n ensures src[k] == src[k - (p - m)] {
      var i := k - base;
      assert w[..end][i] == src[base..][i] && w[..end][i - (p - m)] == src[base..][i - (p - m)];
      assert w[i] == w[i - (p - m)];
    }
  }

  /** Tokens within the limits of the format. */
  ghost predicate AllFit(ts: seq<Token>, maxDist: int) {
    forall t :: t in ts ==> t.Literal? || (MIN_MATCH <= t.len <= MAX_MATCH && 1 <= t.dist <= maxDist)
  }

  /** So are the tokens of all blocks. */
  ghost predicate Near(log: seq<Blocks.Block>, maxDist: int) {
    forall i :: 0 <= i < |log| ==> log[i].StoredBlock? || AllFit(log[i].tokens, maxDist)
  }

  lemma NearMore(log: seq<Blocks.Block>, b: Blocks.Block, ts: seq<Token>, buf: Option<seq<Byte>>, maxDist: int)
    requires Near(log, maxDist) && AllFit(ts, maxDist) && Encoder.Says(b, ts, buf)
    ensures Near(log + [b], maxDist)
  {
    hide AllFit;
  }

  lemma NearNone(log: seq<Blocks.Block>, b: Blocks.Block, maxDist: int)
    requires Near(log, maxDist) && (b.StoredBlock? || b == Blocks.StaticBlock([]))
    ensures Near(log + [b], maxDist)
  {
  }

  class Compressor {
    const z: Sizes
    const window: array<Byte>
    const head: array<int>
    const prev: array<int>
    const litBufsize: nat
    const level: nat
    const strategy: Strategy
    const enc: Encoder

    // how hard to look for matches
    var maxChain: nat
    var goodMatch: nat
    var niceMatch: nat
    var maxLazy: nat

    // the string being looked at, and the match found for it and for the one before
    var insH: int
    var strstart: nat
    var lookahead: nat
    var matchLength: nat
    var matchStart: int
    var prevLength: nat
    var prevMatch: int
    var matchAvailable: bool

    var blockStart: int        // where in the window the block begins; negative when that has left the window
    var avail: seq<Byte>       // input not read yet
    var availOut: nat          // room for output
    var dest: seq<Byte>        // the output delivered
    var delivered: nat         // how much that is
    var finished: bool         // FINISH_STATE
    var lastFlush: int

    ghost var src: seq<Byte>   // everything read
    ghost var base: nat        // how much of it has left the window
    ghost var end: nat         // where the data in the window ends
    ghost var ins: set<int>    // strings in the dictionary
    ghost var told: seq<Byte>  // what the blocks flushed stand for
    ghost var block: seq<Token>  // tokens of the current block
    ghost var restart: Restart   // the last full flush

    /** `deflateInit2`, for a raw stream. */
    constructor (level: nat, windowBits: nat, memLevel: nat, strategy: Strategy)
      requires level <= 9 && 8 <= windowBits <= 15 && 1 <= memLevel <= 9
      ensures fresh(window) && fresh(head) && fresh(prev) && fresh(enc.footprint)
      ensures Sound() && src == avail == [] && !finished && delivered == 0 && dest == [] && enc.short == 0
      ensures restart == Restart(0, 0, 0)
      ensures this.level == level && this.strategy == strategy && litBufsize == Pow2(memLevel + 6)
      ensures z.wsize == Pow2(if windowBits == 8 then 9 else windowBits)
    {
      hide *;
      Constants();
      var bits, shift, wbits := memLevel + 7, (memLevel + 9) / 3, if windowBits == 8 then 9 else windowBits;
      z := Sizes(Pow2(wbits), shift, bits);
      window := new Byte[2 * Pow2(wbits)](i => 0);
      prev := new int[Pow2(wbits)](i => 0);
      head := new int[Pow2(bits)](i => NIL);
      LitBufsizes(memLevel);
      litBufsize := Pow2(memLevel + 6);
      enc := new Encoder(Pow2(memLevel + 6));
      EnoughChain(level);
      var t := CONFIGURATION[level];
      maxChain, goodMatch, niceMatch, maxLazy := t.chain, t.good, t.nice, t.lazy;
      this.level, this.strategy := level, strategy;
      insH, strstart, lookahead, matchLength, matchStart, prevLength, prevMatch := 0, 0, 0, 2, 0, 2, 0;
      matchAvailable, avail, block, blockStart, availOut, delivered, dest := false, [], [], 0, 0, 0, [];
      finished, lastFlush := false, 0;
      src, base, end, ins, told, restart := [], 0, 0, {}, [], Restart(0, 0, 0);
      new;
      StartsSound(wbits, memLevel);
    }

    /** A new state is sound. */
    lemma StartsSound(wbits: nat, memLevel: nat)
      requires 9 <= wbits <= 15 && 1 <= memLevel <= 9 && z == Sizes(Pow2(wbits), (memLevel + 9) / 3, memLevel + 7)
      requires window.Length == 2 * Pow2(wbits) && prev.Length == Pow2(wbits) && head.Length == Pow2(memLevel + 7)
      requires litBufsize == enc.litBufsize == Pow2(memLevel + 6) && level <= 9 && (level > 0 ==> maxChain >= 4)
      requires head != prev && forall h :: 0 <= h < head.Length ==> head[h] == NIL
      requires forall i :: 0 <= i < prev.Length ==> prev[i] == 0
      requires head !in enc.footprint && prev !in enc.footprint && window !in enc.footprint && this !in enc.footprint
      requires enc.Counting([]) && enc.Tallied([]) && enc.w.Valid() && enc.w.sent == [] && enc.w.out == []
      requires enc.w.pending == enc.w.biValid == 0
      requires enc.log == [] && enc.left == [] && !enc.spoiled
      requires insH == 0 && strstart == 0 && lookahead == 0 && matchLength == 2 && prevLength == 2 && !matchAvailable
      requires block == [] && blockStart == 0 && delivered == 0 && dest == [] && !finished
      requires src == told == [] && base == end == 0 && ins == {} && restart == Restart(0, 0, 0)
      ensures Sound()
    {
      hide *;
      SizesFit(wbits, memLevel);
      LitBufsizes(memLevel);
      enc.CountingParts([]);
      Starts(wbits, memLevel);
      MakeLayout();
      Constants();
      MakeFilling();
      NoBlocks();
      NoneDelivered();
      StartResuming();
      MakeEmitting();
      MakeToldEmpty(0);
      if level == 0 {
        FillingParts();
        BlockSizes();
        MakeStoring();
      } else {
        MakeBetween();
        HeldIs();
        MakePending();
        MakeDeferring();
      }
      MakeSound();
    }

    static lemma SizesFit(wbits: nat, memLevel: nat)
      requires 9 <= wbits <= 15 && 1 <= memLevel <= 9
      ensures 512 <= Pow2(wbits) <= 32768 && 2 <= Pow2(memLevel + 6) <= 32768
    {
      assert Pow2(4) == 16 && Pow2(8) == 16 * Pow2(4);
      assert Pow2(9) == 512 && Pow2(12) == 4096;
      assert Pow2(15) == 32768;
      Pow2Mono(9, wbits);
      Pow2Mono(wbits, 15);
      Pow2Mono(7, memLevel + 6);
      Pow2Mono(memLevel + 6, 15);
    }

    static lemma LitBufsizes(memLevel: nat)
      requires 1 <= memLevel <= 9
      ensures 128 <= Pow2(memLevel + 6) <= 32768
    {
      assert Pow2(7) == 128;
      assert Pow2(8) == 256 && Pow2(12) == 4096;
      assert Pow2(15) == 32768;
      Pow2Mono(7, memLevel + 6);
      Pow2Mono(memLevel + 6, 15);
    }

    static lemma EnoughChain(level: nat)
      requires level <= 9
      ensures |CONFIGURATION| == 10 && (level > 0 ==> CONFIGURATION[level].chain >= 4)
    {
    }

    /** What the blocks of an empty stream stand for. */
    lemma NoBlocks()
      requires enc.log == [] && enc.left == [] && !enc.spoiled && enc.w.sent == []
      ensures enc.Streaming([]) && Near(enc.log, Reach())
    {
    }

    lemma StartResuming()
      requires enc.log == [] && told == [] && restart == Restart(0, 0, 0)
      ensures Resuming() && Grounded([], [])
    {
      assert |enc.log| == |told| == 0;
      NoneOpen(enc.z);
      NoLog(enc.z);
      assert enc.log[..0] == enc.log[0..] == [] && told[..0] == told[0..] == [];
      hide Blocks.ValidLog, Blocks.Output, Blocks.OpenBits, BitWriter.Width;
    }

    lemma NoneDelivered()
      requires enc.w.Valid() && enc.w.out == [] && enc.w.pending == 0 && delivered == 0 && dest == []
      ensures Delivering()
    {
      enc.w.ValidKept();
      hide enc.w.Kept;
    }

    // ----- the fixed parts

    /** The sizes are within their limits, and the encoder shares no array with the window and the dictionary. */
    ghost predicate Layout() {
      && enc.Shape() && head !in enc.footprint && prev !in enc.footprint && window !in enc.footprint
      && this !in enc.footprint
      && 512 <= z.wsize <= 32768 && window.Length == 2 * z.wsize && litBufsize == enc.litBufsize
      && 128 <= litBufsize <= 32768 && level <= 9
    }

    lemma MakeLayout()
      requires enc.Shape() && head !in enc.footprint && prev !in enc.footprint && window !in enc.footprint
               && this !in enc.footprint
      requires 512 <= z.wsize <= 32768 && window.Length == 2 * z.wsize && litBufsize == enc.litBufsize
               && 128 <= litBufsize <= 32768 && level <= 9
      ensures Layout()
    {
      hide enc.Shape;
    }

    lemma LayoutParts()
      requires Layout()
      ensures head !in enc.footprint && prev !in enc.footprint && window !in enc.footprint && this !in enc.footprint
      ensures 512 <= z.wsize <= 32768 && window.Length == 2 * z.wsize && litBufsize == enc.litBufsize
              && 128 <= litBufsize <= 32768 && level <= 9
      ensures enc.lDesc.fc in enc.footprint && enc.dDesc.fc in enc.footprint && enc.w in enc.footprint
              && enc in enc.footprint
      ensures enc.Shape()
    {
      enc.FootprintIs();
      hide enc.Shape;
    }

    lemma Starts(wbits: nat, memLevel: nat)
      requires 9 <= wbits <= 15 && 1 <= memLevel <= 9 && z == Sizes(Pow2(wbits), (memLevel + 9) / 3, memLevel + 7)
      requires window.Length == 2 * Pow2(wbits) && prev.Length == Pow2(wbits) && head.Length == Pow2(memLevel + 7)
      requires head != prev && ins == {} && src == [] && base == end == 0 && restart == Restart(0, 0, 0)
      requires forall h :: 0 <= h < head.Length ==> head[h] == NIL
      requires forall i :: 0 <= i < prev.Length ==> prev[i] == 0
      ensures Dict(0) && Holds(window[..], src, 0, 0)
    {
      SizesFit(wbits, memLevel);
      hide Pow2;
    }

    /** The dictionary is good up to the frontier f, and what was forgotten at a full flush is not in it. */
    ghost predicate Dict(f: int)
      reads `end, `ins, `base, `restart, window, head, prev
    {
      && head != prev && Recent(f)
      && Chained(z, window[..], head[..], prev[..], end, ins, f)
    }

    ghost predicate Recent(f: int)
      reads `ins, `base, `restart
    {
      restart.data - base <= f && Since(ins, restart.data - base)
    }

    /** The window holds the end of the data read. */
    ghost predicate Data()
      reads `src, `base, `end, window
    {
      end <= window.Length && Holds(window[..], src, base, end)
    }

    /** The running key is that of the two bytes at strstart, when there are enough bytes to insert. */
    ghost predicate Keyed()
      reads `insH, `strstart, `lookahead, window
    {
      && insH >= 0
      && (lookahead >= MIN_MATCH && strstart + lookahead <= window.Length ==>
            Running2(insH, window[strstart], window[strstart + 1], z.shift, z.bits))
    }

    /** How far back a match may lie; there are none if only the Huffman coding is asked for. */
    function Reach(): int {
      if strategy == HuffmanOnly then 0 else MaxDist()
    }

    function MaxDist(): int {
      z.wsize - MIN_LOOKAHEAD
    }

    /** The string at p, and what the links say about it. */
    ghost function SearchFor(p: nat, cur: int): Search
      reads `lookahead, `prevLength, window, prev
    {
      Search(window[..], prev[..], p, lookahead, cur, prevLength)
    }

    lemma SearchIs(p: nat, cur: int)
      ensures SearchFor(p, cur) == Search(window[..], prev[..], p, lookahead, cur, prevLength)
    {
    }

    /** INSERT_STRING: enter the string at p and return the previous head of its chain. */
    method InsertString(p: nat) returns (hashHead: int)
      requires Dict(p) && insH >= 0 && p + 2 < end && end <= window.Length
      requires Running2(insH, window[p], window[p + 1], z.shift, z.bits)
      modifies this`insH, this`ins, head, prev
      ensures Dict(p + 1) && ins == old(ins) + {p}
      ensures 0 <= hashHead && (hashHead == NIL || (hashHead < p && Names(z, window[..], end, ins, hashHead,
                                                                         KeyAt(window[..], p, z.shift, z.bits))))
      ensures insH >= 0 && Running2(insH, window[p + 1], window[p + 2], z.shift, z.bits)
      ensures Entered(z, SearchFor(p, hashHead), old(head[..]), old(prev[..]))
      ensures Heads(z, SearchFor(p, hashHead), old(head[..]), head[..])
    {
      hide *;
      ghost var w, h, v := window[..], head[..], prev[..];
      DictSizes(p);
      ThirdByte(insH, window[p], window[p + 1], window[p + 2], z.shift, z.bits);
      KeyIs(z, w, p);
      ghost var key := KeyAt(w, p, z.shift, z.bits);
      Inserted(z, w, h, v, end, ins, p, p, key);
      RecentParts(p);
      SinceMore(ins, restart.data - base, p);
      NamesLater(z, w, end, ins, h[key], key, p);
      insH := Update(insH, window[p + 2], z.shift, z.bits);
      hashHead := head[insH];
      prev[Slot(p, z.wsize)] := hashHead;
      head[insH] := p;
      ins := ins + {p};
      assert head[..] == h[key := p] && prev[..] == v[Slot(p, z.wsize) := h[key]];
      SearchIs(p, hashHead);
      MakeEntered(z, SearchFor(p, hashHead), h, v, head[..], key);
      MakeRecent(p + 1);
      MakeDict(p + 1);
    }

    lemma DictSizes(f: int)
      requires Dict(f)
      ensures window.Length == 2 * z.wsize && prev.Length == z.wsize && head.Length == Pow2(z.bits) && z.wsize >= 512
      ensures 8 <= z.bits <= 3 * z.shift && head != prev && NIL == 0
      ensures Chained(z, window[..], head[..], prev[..], end, ins, f) && Recent(f)
    {
      hide Names, LinkAt, Pow2, Since;
    }

    lemma RecentParts(f: int)
      requires Recent(f)
      ensures restart.data - base <= f && Since(ins, restart.data - base)
    {
      hide Since;
    }

    lemma MakeRecent(f: int)
      requires restart.data - base <= f && Since(ins, restart.data - base)
      ensures Recent(f)
    {
      hide Since;
    }

    lemma MakeDict(f: int)
      requires head != prev && Chained(z, window[..], head[..], prev[..], end, ins, f) && Recent(f)
      ensures Dict(f)
    {
      hide Chained;
    }

    /** How long the strings at `scan` and `match0` agree, the first three bytes apart; at most 258. */
    method MatchLength(scan: nat, match0: nat) returns (len: nat)
      requires match0 <= scan && scan + MAX_MATCH < window.Length
      ensures MIN_MATCH <= len <= MAX_MATCH
      ensures forall j :: scan + 3 <= j < scan + len ==> window[j] == window[j - (scan - match0)]
      ensures len == MAX_MATCH || window[scan + len] != window[match0 + len]
    {
      var i := 2;
      var same := true;
      while same && i < MAX_MATCH
        invariant 2 <= i <= MAX_MATCH && (same ==> (i - 2) % 8 == 0) && (!same ==> i >= 3)
        invariant !same ==> window[scan + i] != window[match0 + i]
        invariant forall j :: scan + 3 <= j < scan + i ==> window[j] == window[j - (scan - match0)]
        invariant same && i >= 3 ==> window[scan + i] == window[match0 + i]
        decreases same, MAX_MATCH - i
      {
        var k := 0;
        ghost var i0 := i;
        while k < 8 && same
          invariant 0 <= k <= 8 && i == i0 + k && (!same ==> i >= 3 && window[scan + i] != window[match0 + i])
          invariant forall j :: scan + 3 <= j < scan + i ==> window[j] == window[j - (scan - match0)]
          invariant same && i >= 3 ==> window[scan + i] == window[match0 + i]
          decreases 8 - k, same
        {
          i := i + 1;
          k := k + 1;
          same := window[scan + i] == window[match0 + i];
        }
      }
      len := i;
    }

    /** A candidate on the chain of the current string: an earlier string with the same key. */
    ghost predicate Candidate(cur: int)
      reads `strstart, `lookahead, `end, `ins, window
    {
      && lookahead >= MIN_MATCH && strstart + lookahead == end <= window.Length
      && cur != NIL && cur < strstart
      && Names(z, window[..], end, ins, cur, KeyAt(window[..], strstart, z.shift, z.bits))
    }

    /** A match found: r bytes, no further back than allowed. */
    ghost predicate Matched(m: int, r: int)
      reads `strstart, `base, `restart, window
    {
      SameBytes(window[..], m, strstart, r) && r <= MAX_MATCH && strstart - m <= MaxDist() && restart.data <= base + m
    }

    /** Where the search may begin: a candidate, when there are enough bytes for a match at all. */
    ghost predicate Searching(cur: int)
      reads `strstart, `lookahead, `end, `ins, `base, `restart, window, head, prev
    {
      && Dict(strstart + 1) && window.Length == 2 * z.wsize && strstart + MIN_LOOKAHEAD <= window.Length
      && 0 <= cur <= strstart && strstart - cur <= MaxDist()
      && (lookahead >= MIN_MATCH ==> Candidate(cur))
    }

    /** The string at m agrees with the current one on r bytes at most, of those that a match may have. */
    ghost predicate NoLonger(m: int, r: int)
      reads `strstart, `lookahead, window
    {
      forall n :: 0 <= n <= MAX_MATCH && n <= lookahead && SameBytes(window[..], m, strstart, n) ==> n <= r
    }

    /** What matches must lie above. */
    ghost function Limit(): int
      reads `strstart
    {
      if strstart <= MaxDist() then 0 else strstart - MaxDist()
    }

    /** How many strings are looked at: a quarter when there is a good match already. */
    ghost function Effort(): nat
      reads `maxChain, `goodMatch, `prevLength
    {
      if prevLength < goodMatch then maxChain else maxChain / 4
    }

    /** One of the strings that the links lead to from cur on. */
    ghost predicate Visited(cur: int, c: int)
      reads `strstart, `maxChain, `goodMatch, `prevLength, prev
    {
      prev.Length == z.wsize > 0 && Visits(prev[..], z.wsize, cur, Limit(), Effort(), c)
    }

    /** Every string looked at agrees on r bytes at most, or waits to be looked at, from cur on. */
    ghost predicate Looking(cur0: int, cur: int, chain: nat, r: int)
      reads `strstart, `lookahead, `maxChain, `goodMatch, `prevLength, window, prev
      requires prev.Length == z.wsize > 0
    {
      forall c :: Visited(cur0, c) ==> NoLonger(c, r) || Visits(prev[..], z.wsize, cur, Limit(), chain, c)
    }

    lemma LookStart(cur: int, r: int)
      requires prev.Length == z.wsize > 0
      ensures Looking(cur, cur, Effort(), r)
    {
      hide Visits, NoLonger;
    }

    lemma LookNext(cur0: int, cur: int, chain: nat, best: int, r: int)
      requires prev.Length == z.wsize > 0 && cur >= 0 && chain > 0 && best <= r
      requires Looking(cur0, cur, chain, best) && NoLonger(cur, r)
      ensures
        var q := prev[Slot(cur, z.wsize)];
        if q > Limit() && chain > 1 then Looking(cur0, q, chain - 1, r)
        else forall c :: Visited(cur0, c) ==> NoLonger(c, r)
    {
      VisitsNext(prev[..], z.wsize, cur, Limit(), chain);
      hide Visits, NoLonger, Limit, Effort, Slot, Visited;
      forall c | Visited(cur0, c) && NoLonger(c, best)
        ensures NoLonger(c, r)
      {
        StillLess(c, best, r);
      }
    }

    lemma StillLess(c: int, best: int, r: int)
      requires NoLonger(c, best) && best <= r
      ensures NoLonger(c, r)
    {
      hide SameBytes;
    }

    lemma CappedLess(c: int, best: int)
      requires NoLonger(c, best)
      ensures NoLonger(c, Min(best, lookahead))
    {
      hide SameBytes;
    }

    /** The string at c agrees with the one searched for on r bytes at most, of those that a match may have. */
    static ghost predicate NoMore(s: Search, c: int, r: int) {
      forall n :: 0 <= n <= MAX_MATCH && n <= s.ahead && SameBytes(s.w, c, s.p, n) ==> n <= r
    }

    /**
     The longest match of the strings that the links lead to while they lie above the limit, a quarter of them if
     there is a good match already; or a match that is long enough.
     */
    ghost predicate Best(s: Search, r: int)
      reads `maxChain, `goodMatch, `niceMatch
    {
      && |s.prev| == z.wsize > 0 && r >= Min(s.before, s.ahead)
      && (|| r >= Min(niceMatch, s.ahead)
          || forall c ::
               Visits(s.prev, z.wsize, s.cur, if s.p <= MaxDist() then 0 else s.p - MaxDist(),
                      if s.before < goodMatch then maxChain else maxChain / 4, c)
               ==> NoMore(s, c, r))
    }

    lemma MakeBest(cur: int, r: int)
      requires prev.Length == z.wsize > 0 && r >= Min(prevLength, lookahead)
      requires r >= Min(niceMatch, lookahead) || forall c :: Visited(cur, c) ==> NoLonger(c, r)
      ensures Best(SearchFor(strstart, cur), r)
    {
      var s := SearchFor(strstart, cur);
      forall c | Visited(cur, c) && NoLonger(c, r)
        ensures NoMore(s, c, r)
      {
        NoMoreIs(c, r, cur);
      }
      hide Visits, NoMore, NoLonger;
    }

    lemma NoMoreIs(c: int, r: int, cur: int)
      ensures NoLonger(c, r) <==> NoMore(SearchFor(strstart, cur), c, r)
    {
      hide SameBytes;
    }

    /**
     `longest_match`: the longest match on the chain from cur on, when it is longer than prevLength, or one that is
     long enough. The third bytes are not compared: the keys being equal, they are.
     */
    method LongestMatch(cur0: int) returns (r: nat)
      requires Searching(cur0) && 1 <= prevLength <= MAX_MATCH && maxChain >= 4
      modifies this`matchStart
      ensures r <= lookahead && r <= MAX_MATCH && r >= Min(prevLength, lookahead) && (lookahead >= 1 ==> r >= 1)
      ensures lookahead >= MIN_MATCH && r > prevLength ==> Matched(matchStart, r)
      ensures Best(SearchFor(strstart, cur0), r)
    {
      hide *;
      SearchFacts(cur0);
      LimitIs();
      LookStart(cur0, prevLength);
      var chain, best, cur := maxChain, prevLength, cur0;
      if prevLength >= goodMatch {
        chain := chain / 4;
      }
      var limit := if strstart > MaxDist() then strstart - MaxDist() else NIL;
      var nice := niceMatch;
      if nice > lookahead {
        nice := lookahead;
      }
      ghost var all := false;
      while true
        invariant Searching(cur) && prevLength <= best <= MAX_MATCH && chain >= 1
        invariant lookahead >= MIN_MATCH && best > prevLength ==> Matched(matchStart, best)
        invariant !all && prev.Length == z.wsize > 0 && Looking(cur0, cur, chain, best)
        decreases chain
      {
        SearchFacts(cur);
        var len := Compare(cur, best);
        ghost var was := best;
        if len > best {
          matchStart := cur;
          best := len;
          if len >= nice {
            break;
          }
        }
        LookNext(cur0, cur, chain, was, best);
        all := true;
        ghost var last := cur;
        cur := prev[Slot(cur, z.wsize)];
        if !(cur > limit) {
          break;
        }
        SearchOn(last, limit);
        chain := chain - 1;
        if chain == 0 {
          break;
        }
        all := false;
      }
      r := if best <= lookahead then best else lookahead;
      if all {
        forall c | Visited(cur0, c)
          ensures NoLonger(c, r)
        {
          CappedLess(c, best);
        }
      }
      MakeBest(cur0, r);
      if lookahead >= MIN_MATCH && r > prevLength {
        MatchedLess(matchStart, best, r);
      }
    }

    lemma SearchFacts(cur: int)
      requires Searching(cur)
      ensures window.Length == 2 * z.wsize && prev.Length == z.wsize && z.wsize >= 512
              && strstart + MIN_LOOKAHEAD <= window.Length
      ensures 0 <= cur <= strstart && MIN_LOOKAHEAD == 262 && MAX_MATCH == 258 && MIN_MATCH == 3 && NIL == 0
      ensures MaxDist() == z.wsize - 262 && 0 <= Slot(cur, z.wsize) < z.wsize
    {
      DictSizes(strstart + 1);
    }

    lemma LimitIs()
      ensures Limit() == if strstart > MaxDist() then strstart - MaxDist() else 0
      ensures Effort() == if prevLength >= goodMatch then maxChain / 4 else maxChain
      ensures Min(niceMatch, lookahead) == if niceMatch > lookahead then lookahead else niceMatch
      ensures forall a: int, b: int :: Min(a, b) == if a <= b then a else b
    {
    }

    lemma MatchedLess(m: int, n: int, r: int)
      requires Matched(m, n) && 0 <= r <= n
      ensures Matched(m, r)
    {
    }

    /** One candidate: the length of the match if it can be longer than best, else no more than best. */
    method Compare(cur: nat, best: nat) returns (len: nat)
      requires Searching(cur) && 1 <= best <= MAX_MATCH
      ensures len <= MAX_MATCH && (lookahead >= MIN_MATCH && len > best ==> Matched(cur, len))
      ensures NoLonger(cur, if len > best then len else best)
    {
      hide *;
      SearchFacts(cur);
      var scanEnd1, scanEnd := window[strstart + best - 1], window[strstart + best];
      if window[cur + best] != scanEnd || window[cur + best - 1] != scanEnd1 || window[cur] != window[strstart]
         || window[cur + 1] != window[strstart + 1] {
        Differs(cur, best);
        return 0;
      }
      len := MatchLength(strstart, cur);
      EndsThere(cur, len);
      if lookahead >= MIN_MATCH {
        CandidateMatch(cur, len);
      }
      if len <= best {
        StillLess(cur, len, best);
      }
    }

    /** Bytes that differ end a match before them. */
    lemma Differs(cur: nat, best: nat)
      requires 1 <= best <= MAX_MATCH && strstart + MAX_MATCH < window.Length && cur <= strstart
      requires window[cur + best] != window[strstart + best] || window[cur + best - 1] != window[strstart + best - 1]
               || window[cur] != window[strstart] || window[cur + 1] != window[strstart + 1]
      ensures NoLonger(cur, best)
    {
      var w := window[..];
      assert w[strstart + best] == window[strstart + best] && w[cur + best] == window[cur + best];
      assert w[strstart + best - 1] == window[strstart + best - 1] && w[cur + best - 1] == window[cur + best - 1];
      assert w[strstart] == window[strstart] && w[cur] == window[cur];
      assert w[strstart + 1] == window[strstart + 1] && w[cur + 1] == window[cur + 1];
    }

    lemma EndsThere(cur: nat, len: nat)
      requires len <= MAX_MATCH && strstart + MAX_MATCH < window.Length && cur <= strstart
      requires len == MAX_MATCH || window[strstart + len] != window[cur + len]
      ensures NoLonger(cur, len)
    {
      var w := window[..];
      assert len < MAX_MATCH ==> w[strstart + len] == window[strstart + len] && w[cur + len] == window[cur + len];
    }

    lemma CandidateMatch(cur: nat, len: nat)
      requires Searching(cur) && lookahead >= MIN_MATCH && MIN_MATCH <= len <= MAX_MATCH
      requires strstart + len <= window.Length && cur + 1 < window.Length && strstart + 1 < window.Length
      requires window[cur] == window[strstart] && window[cur + 1] == window[strstart + 1]
      requires forall j :: strstart + 3 <= j < strstart + len ==> window[j] == window[j - (strstart - cur)]
      ensures Matched(cur, len)
    {
      var w := window[..];
      KeyIs(z, w, cur);
      KeyIs(z, w, strstart);
      DictSizes(strstart + 1);
      ThirdByteTells(w[cur], w[cur + 1], w[cur + 2], w[strstart + 2], z.shift, z.bits);
      assert cur in ins;
      hide Hash3, Chained, KeyAt;
      forall j | strstart <= j < strstart + len ensures w[j] == w[j - (strstart - cur)] {
        assert window[j] == w[j];
      }
    }

    /** The link leads to the next candidate. */
    lemma SearchOn(last: int, limit: int)
      requires Searching(last) && prev.Length == z.wsize > 0 && 0 <= Slot(last, z.wsize) < z.wsize
      requires prev[Slot(last, z.wsize)] > limit && limit == if strstart > MaxDist() then strstart - MaxDist() else NIL
      ensures Searching(prev[Slot(last, z.wsize)])
    {
      DictSizes(strstart + 1);
      var q := prev[Slot(last, z.wsize)];
      assert q == prev[..][Slot(last, z.wsize)];
      if lookahead >= MIN_MATCH {
        assert LinkAt(z, window[..], prev[..], end, ins, last);
      }
      hide KeyAt, Slot;
    }

    /** `longest_match_fast`: look at one candidate only. */
    method LongestMatchFast(cur: int) returns (r: nat)
      requires Searching(cur)
      modifies this`matchStart
      ensures r >= MIN_MATCH ==> r <= lookahead && Matched(matchStart, r) && matchStart == cur
      ensures r <= MAX_MATCH && (lookahead >= 1 ==> r >= 1) && NoMore(SearchFor(strstart, cur), cur, r)
    {
      hide *;
      SearchFacts(cur);
      LimitIs();
      r := MIN_MATCH - 1;
      if window[cur] != window[strstart] || window[cur + 1] != window[strstart + 1] {
        Differs(cur, r);
        NoMoreIs(cur, r, cur);
        return;
      }
      var len := MatchLength(strstart, cur);
      EndsThere(cur, len);
      CappedLess(cur, len);
      NoMoreIs(cur, len, cur);
      NoMoreIs(cur, Min(len, lookahead), cur);
      if lookahead >= MIN_MATCH {
        CandidateMatch(cur, len);
      }
      if len < MIN_MATCH {
        return;
      }
      matchStart := cur;
      if len <= lookahead {
        r := len;
      } else {
        r := lookahead;
        if lookahead >= MIN_MATCH {
          MatchedLess(matchStart, len, r);
        }
      }
    }

    // ----- fill_window

    /** Copy the upper half of the window down. */
    method MoveDown()
      requires window.Length == 2 * z.wsize
      modifies window
      ensures MovedDown(old(window[..]), window[..], z.wsize)
    {
      ghost var w := window[..];
      for i := 0 to z.wsize
        invariant forall k :: 0 <= k < i ==> window[k] == w[k + z.wsize]
        invariant forall k :: i <= k < window.Length ==> window[k] == w[k]
      {
        window[i] := window[i + z.wsize];
      }
    }

    /** Lower every entry of a table by the window size, or to NIL. */
    method LowerTable(t: array<int>)
      modifies t
      ensures Lowered(old(t[..]), t[..], z.wsize)
    {
      ghost var t0 := t[..];
      var n := t.Length;
      while n > 0
        invariant 0 <= n <= t.Length
        invariant forall k :: 0 <= k < t.Length ==> t[k] == if k >= n then Down(t0[k], z.wsize) else t0[k]
      {
        n := n - 1;
        var m := t[n];
        t[n] := if m >= z.wsize then m - z.wsize else NIL;
      }
    }

    /** The upper half of the window to the lower, and both tables with it. */
    method MoveAll()
      requires window.Length == 2 * z.wsize && head != prev
      modifies window, head, prev
      ensures MovedDown(old(window[..]), window[..], z.wsize)
      ensures Lowered(old(head[..]), head[..], z.wsize) && Lowered(old(prev[..]), prev[..], z.wsize)
    {
      hide *;
      MoveDown();
      LowerTable(head);
      LowerTable(prev);
    }

    /** What `fill_window` keeps. */
    ghost predicate Filling()
      reads `insH, `strstart, `lookahead, `src, `base, `end, `ins, `restart, window, head, prev
    {
      Layout() && Dict(strstart) && Data() && Keyed() && end == strstart + lookahead
    }

    lemma FillingParts()
      requires Filling()
      ensures Dict(strstart) && Data() && Keyed() && end == strstart + lookahead && insH >= 0
      ensures window.Length == 2 * z.wsize && prev.Length == z.wsize && z.wsize >= 512
      ensures strstart + lookahead <= window.Length && Holds(window[..], src, base, end)
      ensures |src| == base + strstart + lookahead
      ensures lookahead >= 3 ==> strstart + 2 < window.Length
                                 && Running2(insH, window[strstart], window[strstart + 1], z.shift, z.bits)
      ensures MIN_LOOKAHEAD == 262 && MAX_MATCH == 258 && MIN_MATCH == 3 && NIL == 0 && MaxDist() == z.wsize - 262
      ensures 8 <= z.bits && head != prev && Layout() && z.wsize <= 32768 && litBufsize == enc.litBufsize
              && 128 <= litBufsize <= 32768 && level <= 9
      ensures head !in enc.footprint && prev !in enc.footprint && window !in enc.footprint && this !in enc.footprint
      ensures enc.lDesc.fc in enc.footprint && enc.dDesc.fc in enc.footprint && enc.w in enc.footprint
              && enc in enc.footprint
    {
      DictSizes(strstart);
      LayoutParts();
    }

    lemma MakeFilling()
      requires Layout() && Dict(strstart) && insH >= 0 && end == strstart + lookahead <= window.Length
               && Holds(window[..], src, base, end)
      requires lookahead >= MIN_MATCH ==> Running2(insH, window[strstart], window[strstart + 1], z.shift, z.bits)
      ensures Filling()
    {
      hide Dict;
    }

    /** Move the upper half of the window down, with everything that points into it. */
    method Slide()
      requires Filling() && strstart >= z.wsize
      modifies this`matchStart, this`strstart, this`blockStart, this`base, this`end, this`ins, window, head, prev
      ensures Filling() && strstart == old(strstart) - z.wsize && base == old(base) + z.wsize
      ensures matchStart == old(matchStart) - z.wsize && blockStart == old(blockStart) - z.wsize
    {
      hide *;
      FillingParts();
      DictSizes(strstart);
      ghost var w, h, v := window[..], head[..], prev[..];
      matchStart, blockStart := matchStart - z.wsize, blockStart - z.wsize;
      MoveAll();
      Slides(w, h, v);
      ins, base, end, strstart := Slid(ins, z.wsize, strstart), base + z.wsize, end - z.wsize, strstart - z.wsize;
      MakeRecent(strstart);
      MakeDict(strstart);
      MakeFilling();
    }

    /** What holds of the window and the tables once they have been moved. */
    lemma Slides(w: seq<Byte>, h: seq<int>, v: seq<int>)
      requires Chained(z, w, h, v, end, ins, strstart) && Holds(w, src, base, end) && Recent(strstart) && insH >= 0
      requires MovedDown(w, window[..], z.wsize) && Lowered(h, head[..], z.wsize) && Lowered(v, prev[..], z.wsize)
      requires z.wsize <= strstart && end == strstart + lookahead <= window.Length == 2 * z.wsize == |w|
      requires lookahead >= 3 ==> Running2(insH, w[strstart], w[strstart + 1], z.shift, z.bits)
      ensures
        var p := strstart - z.wsize;
        && Chained(z, window[..], head[..], prev[..], end - z.wsize, Slid(ins, z.wsize, strstart), p)
        && Holds(window[..], src, base + z.wsize, end - z.wsize)
        && restart.data - (base + z.wsize) <= p
        && Since(Slid(ins, z.wsize, strstart), restart.data - (base + z.wsize))
        && (lookahead >= 3 ==> Running2(insH, window[p], window[p + 1], z.shift, z.bits))
    {
      hide *;
      ChainedSlides(z, w, window[..], h, head[..], v, prev[..], end, ins, strstart);
      HoldsSlides(w, window[..], src, base, end, z.wsize);
      RecentParts(strstart);
      SinceSlides(ins, restart.data - base, z.wsize, strstart);
      if lookahead >= 3 {
        KeyMoved(w);
      }
    }

    /** The running key is that of the bytes where they stand now. */
    lemma KeyMoved(w: seq<Byte>)
      requires MovedDown(w, window[..], z.wsize) && z.wsize <= strstart && strstart + 1 < 2 * z.wsize
      requires window.Length == 2 * z.wsize == |w| && insH >= 0
               && Running2(insH, w[strstart], w[strstart + 1], z.shift, z.bits)
      ensures var p := strstart - z.wsize;
              p + 1 < window.Length && Running2(insH, window[p], window[p + 1], z.shift, z.bits)
    {
      hide Running2;
      Moved(w, window[..], z.wsize, strstart);
      Moved(w, window[..], z.wsize, strstart + 1);
    }

    /** `read_buf`: append n bytes of the input to the data in the window. */
    method ReadBuf(n: nat)
      requires n <= |avail| && strstart + lookahead + n <= window.Length
      modifies this`avail, window
      ensures avail == old(avail[n..]) && window[..strstart + lookahead] == old(window[..strstart + lookahead])
      ensures window[strstart + lookahead..strstart + lookahead + n] == old(avail[..n])
    {
      var at := strstart + lookahead;
      for i := 0 to n
        invariant avail == old(avail) && window[..at] == old(window[..at])
        invariant window[at..at + i] == avail[..i]
      {
        window[at + i] := avail[i];
        assert window[at..at + i + 1] == window[at..at + i] + [avail[i]];
      }
      avail := avail[n..];
    }

    /** Data added at the end of the window. */
    lemma Added(w: seq<Byte>, read: seq<Byte>)
      requires Chained(z, w, head[..], prev[..], strstart + lookahead, ins, strstart) && head != prev
               && Recent(strstart)
      requires Holds(w, src, base, strstart + lookahead) && window.Length == |w|
      requires strstart + lookahead + |read| == end <= window.Length
      requires window[..strstart + lookahead] == w[..strstart + lookahead] && window[strstart + lookahead..end] == read
      ensures Dict(strstart) && Holds(window[..], src + read, base, end)
    {
      ChainedMore(z, w, window[..], head[..], prev[..], strstart + lookahead, end, ins, strstart);
      assert window[..end] == window[..strstart + lookahead] + window[strstart + lookahead..end];
      assert (src + read)[base..] == src[base..] + read;
      hide Chained;
    }

    /** One round of `fill_window` after any slide: read, and compute the key afresh. */
    method FillRound(more: nat)
      requires Filling() && more == window.Length - lookahead - strstart >= 1 && avail != []
               && strstart + MIN_LOOKAHEAD <= window.Length
      modifies this`insH, this`lookahead, this`avail, this`src, this`end, window
      ensures Filling() && |avail| < old(|avail|) && lookahead > old(lookahead)
      ensures old(src) <= src && src + avail == old(src + avail)
    {
      hide *;
      FillingParts();
      DictSizes(strstart);
      ghost var w, av := window[..], avail;
      var n := if |avail| <= more then |avail| else more;
      ReadBuf(n);
      assert av == av[..n] + avail;
      end := end + n;
      Added(w, av[..n]);
      src, lookahead := src + av[..n], lookahead + n;
      Rekey();
    }

    /** The key of the two bytes at strstart, when there are enough bytes to insert. */
    method Rekey()
      requires Layout() && Dict(strstart) && insH >= 0 && end == strstart + lookahead <= window.Length
               && Holds(window[..], src, base, end)
      requires window.Length == 2 * z.wsize && 8 <= z.bits
      modifies this`insH
      ensures Filling()
    {
      hide *;
      Constants();
      if lookahead >= MIN_MATCH {
        TwoBytes(window[strstart], window[strstart + 1], z.shift, z.bits);
        insH := Update(window[strstart], window[strstart + 1], z.shift, z.bits);
      }
      MakeFilling();
    }

    /** `fill_window` */
    method FillWindow()
      requires Filling() && lookahead < MIN_LOOKAHEAD
      modifies this`insH, this`strstart, this`lookahead, this`matchStart, this`blockStart, this`avail, this`src,
               this`base, this`end
      modifies this`ins, window, head, prev
      ensures Filling() && strstart + MIN_LOOKAHEAD <= window.Length && (lookahead >= MIN_LOOKAHEAD || avail == [])
      ensures old(src) <= src && src + avail == old(src + avail)
      ensures base + strstart == old(base + strstart) && strstart - matchStart == old(strstart - matchStart)
      ensures strstart - blockStart == old(strstart - blockStart)
      ensures old(strstart) >= 1 ==> strstart >= 1
      ensures old(blockStart) >= 0 && old(strstart - blockStart) < MaxDist() ==> blockStart >= 0
    {
      hide *;
      while true
        invariant Filling() && lookahead < MIN_LOOKAHEAD
        invariant old(src) <= src && src + avail == old(src + avail)
        invariant base + strstart == old(base + strstart) && strstart - matchStart == old(strstart - matchStart)
        invariant strstart - blockStart == old(strstart - blockStart)
        invariant old(strstart) >= 1 ==> strstart >= 1
        invariant old(blockStart) >= 0 && old(strstart - blockStart) < MaxDist() ==> blockStart >= 0
        decreases |avail|
      {
        FillingParts();
        var more := window.Length - lookahead - strstart;
        if strstart >= z.wsize + MaxDist() {
          Slide();
          more := more + z.wsize;
        }
        if |avail| == 0 {
          return;
        }
        FillRound(more);
        if !(lookahead < MIN_LOOKAHEAD && |avail| != 0) {
          return;
        }
      }
    }

    // ----- tokens

    /** What was flushed and the tokens of the current block reproduce the first n bytes read. */
    ghost predicate Told(n: int)
      reads `told, `block, `blockStart, `base, `src, `restart
    {
      && 0 <= base + blockStart <= n <= |src| && told == src[..base + blockStart]
      && PutAll(told, block) == src[..n] && Rooted(block) && AllFit(block, Reach())
    }

    /** The tokens do not refer to what was flushed before the last full flush. */
    ghost predicate Rooted(ts: seq<Token>)
      reads `told, `restart
    {
      restart.data <= |told| && Grounded(told[restart.data..], ts)
    }

    lemma RootedParts(ts: seq<Token>)
      requires Rooted(ts)
      ensures restart.data <= |told| && Grounded(told[restart.data..], ts) && Grounded(told, ts)
      ensures PutAll(told, ts) == told[..restart.data] + PutAll(told[restart.data..], ts)
      ensures PutAll(told[restart.data..], ts) == PutAll(told, ts)[restart.data..]
    {
      PutAllSince(told, restart.data, ts);
      hide Grounded, PutAll;
    }

    lemma RootedLiteral(ts: seq<Token>, b: Byte)
      requires Rooted(ts)
      ensures Rooted(ts + [Literal(b)])
    {
      PutSnoc(told[restart.data..], ts, Literal(b));
      hide Grounded, PutAll;
    }

    lemma RootedPair(ts: seq<Token>, len: nat, dist: nat)
      requires Rooted(ts) && restart.data + dist <= |PutAll(told, ts)|
      ensures Rooted(ts + [Pair2(len, dist)])
    {
      RootedParts(ts);
      PutSnoc(told[restart.data..], ts, Pair2(len, dist));
      hide Grounded, PutAll;
    }

    /** The blocks since the last full flush stand alone. */
    ghost predicate Resuming()
      reads `told, `restart, enc`log, enc`spoiled, enc.w`out
    {
      Resumable(enc.z, enc.log, told, |enc.w.out|, !enc.spoiled, restart)
    }

    lemma ResumingParts()
      ensures Resuming() <==> Resumable(enc.z, enc.log, told, |enc.w.out|, !enc.spoiled, restart)
    {
      hide Resumable;
    }

    /** What has been delivered is the output but for the pending bytes. */
    ghost predicate Delivering()
      reads `delivered, `dest, enc.w
    {
      && enc.w.Kept() && delivered + enc.w.pending == |enc.w.out| && dest == enc.w.out[..delivered]
      && enc.w.pendingOut + enc.w.pending <= |enc.w.mem|
    }

    lemma DeliveringParts()
      requires Delivering()
      ensures enc.w.Kept() && delivered + enc.w.pending == |enc.w.out| && dest == enc.w.out[..delivered]
      ensures enc.w.pendingOut + enc.w.pending <= |enc.w.mem| && (enc.w.pending == 0 ==> enc.w.Valid())
    {
      if enc.w.pending == 0 {
        enc.w.NonePending();
      }
      hide enc.w.Kept;
    }

    lemma MakeDelivering()
      requires enc.w.Kept() && delivered + enc.w.pending == |enc.w.out| && dest == enc.w.out[..delivered]
      requires enc.w.pendingOut + enc.w.pending <= |enc.w.mem|
      ensures Delivering()
    {
      hide enc.w.Kept;
    }

    /**
     No block of such a stream can reach its own tokens: nothing is compressed, or the static trees are asked
     for and the window is the smallest, or there are no matches and the memory level is at least four, or there
     are not many bytes in all.
     */
    predicate Roomy(n: nat) {
      || level == 0 || (strategy == Fixed && z.wsize == 512) || (strategy == HuffmanOnly && litBufsize >= 1024)
      || 9 * n + 17 <= 8 * litBufsize
    }

    /** The stream is that of blocks that stand for `told`, and the tokens of the current block are tallied. */
    ghost predicate Emitting()
      reads `block, `told, `delivered, `dest, `restart, enc.footprint
    {
      && enc.Shape() && enc.Counting(block) && enc.Tallied(block) && enc.Streaming(told) && Near(enc.log, Reach())
      && Resuming() && Delivering() && (Roomy(|told|) ==> !enc.spoiled) && (level == 0 ==> enc.w.biValid <= 5)
    }

    lemma MakeEmitting()
      requires enc.Shape() && enc.Counting(block) && enc.Tallied(block) && enc.Streaming(told) && Near(enc.log, Reach())
      requires Delivering() && (Roomy(|told|) ==> !enc.spoiled) && (level == 0 ==> enc.w.biValid <= 5) && Resuming()
      ensures Emitting()
    {
      hide enc.Shape, enc.Counting, enc.Tallied, enc.Streaming, Near, Delivering, Roomy, Resuming;
    }

    lemma EmittingParts()
      requires Emitting()
      ensures enc.Counting(block) && enc.Tallied(block) && enc.Streaming(told) && Near(enc.log, Reach())
      ensures Delivering() && delivered + enc.w.pending == |enc.w.out|
      ensures (Roomy(|told|) ==> !enc.spoiled) && (level == 0 ==> enc.w.biValid <= 5) && Resuming()
    {
      hide enc.Shape, enc.Counting, enc.Tallied, enc.Streaming, Near, Roomy, enc.w.Kept, Resuming;
    }

    /** The stream is complete. */
    ghost predicate Ended()
      reads `told, `delivered, `dest, `restart, enc.footprint
    {
      && enc.Shape() && enc.Streamed(told) && Near(enc.log, Reach()) && Delivering() && (Roomy(|told|) ==> !enc.spoiled)
      && Resuming() && restart.log < |enc.log|
    }

    /** The match of n bytes at distance dist is true of the data from position i on. */
    ghost predicate True(i: int, n: int, dist: int)
      reads `src, `restart
    {
      MIN_MATCH <= n <= MAX_MATCH && dist <= Reach() && Repeats(src, i, n, dist) && restart.data <= i - dist
    }

    lemma MatchedTrue(m: int, n: int)
      requires Matched(m, n) && MIN_MATCH <= n <= lookahead && Data() && end == strstart + lookahead
               && strategy != HuffmanOnly
      ensures True(base + strstart, n, strstart - m)
    {
      WindowRepeats(window[..], src, base, end, m, strstart, n);
    }

    /** `_tr_tally`: one more token in the block; true when the block is full. */
    method Tally(t: Token) returns (flush: bool)
      requires Layout() && Emitting() && BlockPieces.Proper(t) && |block| < litBufsize - 1 && enc.w.pending == 0
      modifies this`block, enc.lDesc.fc, enc.dDesc.fc, enc.w`mem, enc`lastLit
      ensures Emitting() && block == old(block) + [t] && flush == (|block| == litBufsize - 1)
    {
      hide *;
      LayoutParts();
      EmittingParts();
      DeliveringParts();
      enc.TalliedParts(block);
      flush := enc.Tally(t, block);
      block := block + [t];
      enc.TalliedParts(block);
      MakeDelivering();
      MakeEmitting();
    }

    /** `_tr_tally_lit`: true when the block is full. */
    method TallyLit(c: Byte) returns (flush: bool)
      requires Layout() && Emitting() && |block| < litBufsize - 1 && enc.w.pending == 0
      modifies this`block, enc.lDesc.fc, enc.dDesc.fc, enc.w`mem, enc`lastLit
      ensures Emitting() && block == old(block) + [Literal(c)] && flush == (|block| == litBufsize - 1)
    {
      hide Layout, Emitting;
      flush := Tally(Literal(c));
    }

    /** `_tr_tally_dist`: true when the block is full. */
    method TallyDist(dist: nat, len: nat) returns (flush: bool)
      requires Layout() && Emitting() && |block| < litBufsize - 1 && MIN_MATCH <= len <= MAX_MATCH
               && 1 <= dist <= Reach()
      requires enc.w.pending == 0
      modifies this`block, enc.lDesc.fc, enc.dDesc.fc, enc.w`mem, enc`lastLit
      ensures Emitting() && block == old(block) + [Pair2(len, dist)] && flush == (|block| == litBufsize - 1)
    {
      LayoutParts();
      hide Layout, Emitting;
      flush := Tally(Pair2(len, dist));
    }

    /** `flush_pending`: deliver as much as there is room for. */
    method FlushPending()
      requires Delivering()
      modifies this`availOut, this`delivered, this`dest, enc.w`pending, enc.w`pendingOut
      ensures Delivering() && old(delivered) <= delivered <= |enc.w.out|
              && delivered + availOut == old(delivered + availOut)
      ensures availOut > 0 ==> enc.w.pending == 0
    {
      hide *;
      DeliveringParts();
      var len := enc.w.pending;
      if len > availOut {
        len := availOut;
      }
      ghost var out, n := enc.w.out, delivered;
      var bytes := enc.w.Take(len);
      assert out[..n + len] == out[..n] + out[n..][..len];
      dest := dest + bytes;
      delivered := delivered + len;
      availOut := availOut - len;
      MakeDelivering();
    }

    /** The bytes of the window since the start of the block. */
    lemma StoredText()
      requires Data() && 0 <= blockStart <= strstart <= end && told == src[..base + blockStart]
      ensures strstart <= window.Length && |src| == base + end
              && told + window[blockStart..strstart] == src[..base + strstart]
    {
      var w := window[..];
      assert window[blockStart..strstart] == w[..end][blockStart..strstart] == src[base..][blockStart..strstart];
      assert src[..base + strstart] == src[..base + blockStart] + src[base..][blockStart..strstart];
    }

    lemma ToldBlock(n: int)
      requires Told(n)
      ensures 0 <= base + blockStart <= n <= |src| && told == src[..base + blockStart]
      ensures PutAll(told, block) == src[..n] && Grounded(told, block) && AllFit(block, Reach()) && Rooted(block)
    {
      RootedParts(block);
      hide PutAll, Grounded, AllFit;
    }

    lemma MakeToldEmpty(n: int)
      requires 0 <= n == base + blockStart <= |src| && told == src[..n] && block == [] && restart.data <= |told|
      ensures Told(n)
    {
    }

    /** The bytes of the block, if its start is still in the window. */
    method BlockText() returns (buf: Option<seq<Byte>>)
      requires Data() && blockStart <= strstart <= end && 0 <= base + blockStart && told == src[..base + blockStart]
      ensures 0 <= base + blockStart <= base + strstart <= |src|
      ensures buf.Some? <==> blockStart >= 0
      ensures buf.Some? ==> |buf.value| == strstart - blockStart && told + buf.value == src[..base + strstart]
    {
      hide *;
      DataParts();
      buf := None;
      if blockStart >= 0 {
        StoredText();
        buf := Some(window[blockStart..strstart]);
      }
    }

    /** The current block, which ends at strstart, is put out; without compression if the level is zero. */
    method PutBlock(eof: bool)
      requires Layout() && Data() && Emitting() && strstart <= end && |block| <= litBufsize - 1 && enc.w.pending == 0
      requires blockStart >= 0 ==> strstart - blockStart <= 0xffff
      requires Told(if level > 0 then base + strstart else base + blockStart)
      requires level == 0 ==> block == [] && 0 <= blockStart <= strstart && strstart - blockStart + 5 <= 4 * litBufsize
      modifies this`block, this`blockStart, this`told, enc.footprint
      ensures Told(base + strstart) && block == [] && blockStart == strstart && (if eof then Ended() else Emitting())
      ensures told == src[..base + strstart] && (level == 0 ==> enc.w.biValid == 0)
      ensures old(enc.w.out) <= enc.w.out
      ensures enc.short <= old(enc.short) + 1
      ensures !eof && (if level > 0 then |old(block)| == litBufsize - 1 else old(strstart - blockStart) >= 127) ==>
              enc.short == old(enc.short)
    {
      hide *;
      LayoutParts();
      EmittingParts();
      DeliveringParts();
      DataParts();
      ToldBlock(if level > 0 then base + strstart else base + blockStart);
      ghost var next, l, toks, first, spoiled0 := src[..base + strstart], enc.log, block, enc.w.Now(), enc.spoiled;
      MayResume(base + strstart);
      ghost var short0 := enc.short;
      enc.w.NowIs();
      assert dest == enc.w.out;
      var buf := BlockText();
      ghost var b := enc.Emit(buf, strstart - blockStart, eof, level, strategy == Fixed, block, told, next);
      ghost var told0 := told;
      block, blockStart, told := [], strstart, next;
      AfterBlock(eof, l, b, toks, buf, first, told0, spoiled0, short0);
    }

    /** The state after a block has been put out. */
    lemma AfterBlock(eof: bool, l: seq<Blocks.Block>, b: Blocks.Block, toks: seq<Token>, buf: Option<seq<Byte>>,
                     first: BitWriter.Snap,
                     told0: seq<Byte>, spoiled0: bool, short0: nat)
      requires litBufsize == enc.litBufsize && z.wsize <= 32768 && 0 <= base + strstart <= |src|
      requires block == [] && blockStart == strstart && told == src[..base + strstart]
      requires enc.Emitted(first, l, b, toks, buf, told0, told, eof, level, strategy == Fixed, spoiled0, short0)
      requires first.out == dest && |first.out| == delivered && first.pending == 0
      requires Near(l, Reach()) && AllFit(toks, Reach()) && (Roomy(|told0|) ==> !spoiled0)
      requires level > 0 ==> Grounded(told0, toks) && PutAll(told0, toks) == told
      requires Resumes(l, told0, |first.out|, spoiled0, toks, told) && (buf.Some? ==> told0 + buf.value == told)
      ensures Told(base + strstart) && (if eof then Ended() else Emitting()) && first.out <= enc.w.out
      ensures level == 0 ==> enc.w.biValid == 0
      ensures short0 <= enc.short <= short0 + 1
      ensures !eof && (if level > 0 then |toks| >= 127 else |told| >= |told0| + 127) ==> enc.short == short0
    {
      hide *;
      enc.EmittedParts(first, l, b, toks, buf, told0, told, eof, level, strategy == Fixed, spoiled0, short0);
      enc.CountingParts([]);
      NearMore(l, b, toks, buf, Reach());
      RoomyMild(told0, toks, told);
      FullCovers(told0, toks, told);
      enc.w.ValidKept();
      enc.w.NowIs();
      BitWriter.GrowsParts(first, enc.w.Now());
      assert dest == enc.w.out[..delivered];
      if eof {
        enc.StreamedParts(told);
      } else {
        enc.StreamingParts(told);
      }
      ResumeBlock(l, b, toks, buf, told0, |first.out|, spoiled0);
      MakeDelivering();
      MakeToldEmpty(base + strstart);
      if eof {
        MakeEnded();
      } else {
        MakeEmitting();
      }
    }

    /** Tokens that bring the output to `next` do not refer to what is before the last full flush. */
    ghost predicate Resumes(l: seq<Blocks.Block>, told0: seq<Byte>, size: nat, spoiled0: bool, toks: seq<Token>,
                            next: seq<Byte>)
      reads `restart
    {
      && Resumable(enc.z, l, told0, size, !spoiled0, restart) && restart.data <= |told0| && told0 <= next
      && (level > 0 ==> && Grounded(told0[restart.data..], toks)
                        && PutAll(told0[restart.data..], toks) == next[restart.data..])
    }

    lemma ResumesParts(l: seq<Blocks.Block>, told0: seq<Byte>, size: nat, spoiled0: bool, toks: seq<Token>,
                       next: seq<Byte>)
      requires Resumes(l, told0, size, spoiled0, toks, next)
      ensures Resumable(enc.z, l, told0, size, !spoiled0, restart) && restart.data <= |told0| && told0 <= next
      ensures level > 0 ==> Grounded(told0[restart.data..], toks)
      ensures level > 0 ==> PutAll(told0[restart.data..], toks) == next[restart.data..]
    {
      hide Resumable, PutAll, Grounded;
    }

    lemma MayResume(n: int)
      requires Resuming() && Told(if level > 0 then n else base + blockStart) && base + blockStart <= n <= |src|
      ensures Resumes(enc.log, told, |enc.w.out|, enc.spoiled, block, src[..n])
    {
      ToldBlock(if level > 0 then n else base + blockStart);
      RootedParts(block);
      ResumingParts();
      assert told <= src[..n];
      hide Resumable, PutAll, Grounded, Told, Rooted;
    }

    /** The block does not refer to what is before the last full flush. */
    lemma ResumeBlock(l: seq<Blocks.Block>, b: Blocks.Block, toks: seq<Token>, buf: Option<seq<Byte>>, told0: seq<Byte>,
                      size: nat, spoiled0: bool)
      requires enc.log == l + [b] && enc.Recorded() && (spoiled0 ==> enc.spoiled) && size <= |enc.w.out|
      requires Encoder.Says(b, toks, buf) && (level == 0 ==> b.StoredBlock?)
      requires Resumes(l, told0, size, spoiled0, toks, told) && (buf.Some? ==> told0 + buf.value == told)
      ensures Resuming() && restart.log < |enc.log| && restart.data <= |told|
    {
      hide *;
      ResumesParts(l, told0, size, spoiled0, toks, told);
      enc.RecordedAt(|l|);
      if buf.Some? {
        assert told0[restart.data..] + buf.value == told[restart.data..];
      }
      SaysSome(b, toks, buf);
      Encoder.SaysAdds(b, toks, buf, told0[restart.data..], told[restart.data..]);
      ResumableParts(enc.z, l, told0, size, !spoiled0, restart);
      ResumeMore(enc.z, l, b, told0, told, size, |enc.w.out|, !spoiled0, !enc.spoiled, restart);
      ResumingParts();
    }

    static lemma SaysSome(b: Blocks.Block, toks: seq<Token>, buf: Option<seq<Byte>>)
      requires Encoder.Says(b, toks, buf)
      ensures b.StoredBlock? ==> buf.Some?
    {
    }

    /** FLUSH_BLOCK_ONLY: the block is put out, and delivered as far as there is room. */
    method FlushBlockOnly(eof: bool)
      requires Layout() && Data() && Emitting() && strstart <= end && |block| <= litBufsize - 1 && enc.w.pending == 0
      requires blockStart >= 0 ==> strstart - blockStart <= 0xffff
      requires Told(if level > 0 then base + strstart else base + blockStart)
      requires level == 0 ==> block == [] && 0 <= blockStart <= strstart && strstart - blockStart + 5 <= 4 * litBufsize
      modifies this`block, this`blockStart, this`told, this`availOut, this`delivered, this`dest, enc.footprint
      ensures Told(base + strstart) && block == [] && blockStart == strstart && (if eof then Ended() else Emitting())
      ensures told == src[..base + strstart] && (level == 0 ==> enc.w.biValid == 0)
      ensures old(enc.w.out) <= enc.w.out && old(delivered) <= delivered
              && delivered + availOut == old(delivered + availOut)
      ensures (availOut > 0 ==> enc.w.pending == 0) && delivered + enc.w.pending == |enc.w.out|
      ensures enc.short <= old(enc.short) + 1
      ensures !eof && (if level > 0 then |old(block)| == litBufsize - 1 else old(strstart - blockStart) >= 127) ==>
              enc.short == old(enc.short)
    {
      hide *;
      LayoutParts();
      PutBlock(eof);
      if eof {
        EndedParts();
        FlushPending();
        DeliveringParts();
        MakeEnded();
      } else {
        EmittingParts();
        FlushPending();
        DeliveringParts();
        MakeEmitting();
      }
    }

    /** The blocks of a stream that has room do not reach their tokens. */
    lemma RoomyMild(told0: seq<Byte>, toks: seq<Token>, next: seq<Byte>)
      requires level > 0 ==> Grounded(told0, toks) && PutAll(told0, toks) == next && AllFit(toks, Reach())
      requires litBufsize == enc.litBufsize && z.wsize <= 32768
      ensures Roomy(|next|) ==> enc.Mild(level, strategy == Fixed, toks) && Roomy(|told0|)
    {
      if level > 0 {
        FitProper(toks);
        Costs.CoveredOutput(told0, toks);
        hide PutAll, Grounded, Costs.Covered;
      }
    }

    /** A full block stands for as many bytes as it has tokens, at least. */
    lemma FullCovers(told0: seq<Byte>, toks: seq<Token>, next: seq<Byte>)
      requires level > 0 ==> Grounded(told0, toks) && PutAll(told0, toks) == next && AllFit(toks, Reach())
      requires z.wsize <= 32768
      ensures level > 0 ==> |next| >= |told0| + |toks|
    {
      if level > 0 {
        FitProper(toks);
        Costs.CoveredOutput(told0, toks);
        Costs.CoveredMany(toks);
        hide PutAll, Grounded, Costs.Covered;
      }
    }

    lemma FitProper(toks: seq<Token>)
      requires AllFit(toks, Reach()) && z.wsize <= 32768
      ensures BlockPieces.AllProper(toks)
    {
    }

    lemma MakeEnded()
      requires enc.Shape() && enc.Streamed(told) && Near(enc.log, Reach()) && Delivering()
               && (Roomy(|told|) ==> !enc.spoiled) && Resuming() && restart.log < |enc.log|
      ensures Ended()
    {
      hide enc.Shape, enc.Streamed, Near, Delivering, Roomy, Resuming;
    }

    lemma EndedParts()
      requires Ended()
      ensures enc.Streamed(told) && Near(enc.log, Reach()) && Delivering() && delivered + enc.w.pending == |enc.w.out|
      ensures (Roomy(|told|) ==> !enc.spoiled) && Resuming() && restart.log < |enc.log|
    {
      hide enc.Shape, enc.Streamed, Near, Roomy, enc.w.Kept, Resuming;
    }

    /** Output the byte at p, the next one to be told. */
    method Literally(p: nat) returns (flush: bool)
      requires Layout() && Data() && Emitting() && p < end && Told(base + p) && |block| < litBufsize - 1
               && enc.w.pending == 0
      modifies this`block, enc.lDesc.fc, enc.dDesc.fc, enc.w`mem, enc`lastLit
      ensures Emitting() && Told(base + p + 1) && block == old(block) + [Literal(window[p])]
      ensures flush == (|block| == litBufsize - 1)
    {
      hide *;
      LayoutParts();
      DataParts();
      assert window[p] == window[..end][p] == src[base..][p];
      ToldLiteral(base + p);
      flush := TallyLit(window[p]);
      MakeTold(base + p + 1);
    }

    lemma DataParts()
      requires Data()
      ensures end <= window.Length && |src| == base + end && window[..end] == src[base..]
              && Holds(window[..], src, base, end)
    {
    }

    lemma ToldLiteral(n: int)
      requires Told(n) && n < |src|
      ensures 0 <= base + blockStart <= n && told == src[..base + blockStart]
      ensures PutAll(told, block + [Literal(src[n])]) == src[..n + 1] && Rooted(block + [Literal(src[n])])
      ensures AllFit(block + [Literal(src[n])], Reach())
    {
      ToldBlock(n);
      LiteralTrue(src, told, block, n);
      RootedLiteral(block, src[n]);
      hide PutAll, Grounded, Rooted;
    }

    lemma ToldMatch(n: int, len: nat, dist: nat)
      requires Told(n) && True(n, len, dist)
      ensures 0 <= base + blockStart <= n && told == src[..base + blockStart] && n + len <= |src|
      ensures PutAll(told, block + [Pair2(len, dist)]) == src[..n + len] && Rooted(block + [Pair2(len, dist)])
      ensures AllFit(block + [Pair2(len, dist)], Reach())
    {
      ToldBlock(n);
      MatchTrue(src, told, block, n, len, dist);
      RootedPair(block, len, dist);
      hide PutAll, Grounded, Rooted;
    }

    lemma MakeTold(n: int)
      requires 0 <= base + blockStart <= n <= |src| && told == src[..base + blockStart]
      requires PutAll(told, block) == src[..n] && Rooted(block) && AllFit(block, Reach())
      ensures Told(n)
    {
      hide PutAll, Grounded, AllFit, Rooted;
    }

    /** Output a match for the next n bytes to be told. */
    method Matching(ghost n: nat, len: nat, dist: nat) returns (flush: bool)
      requires Layout() && Emitting() && Told(n) && True(n, len, dist) && |block| < litBufsize - 1 && enc.w.pending == 0
      modifies this`block, enc.lDesc.fc, enc.dDesc.fc, enc.w`mem, enc`lastLit
      ensures Emitting() && Told(n + len) && block == old(block) + [Pair2(len, dist)]
      ensures flush == (|block| == litBufsize - 1)
    {
      hide *;
      ToldMatch(n, len, dist);
      TrueParts(n, len, dist);
      flush := TallyDist(dist, len);
      MakeTold(n + len);
    }

    // ----- deflate_fast

    /** What holds between two tokens of `deflate_fast`. */
    ghost predicate Between()
      reads `insH, `strstart, `lookahead, `src, `base, `end, `ins, `restart, `told, `block, `blockStart, `delivered,
            `dest,
            `maxChain
      reads `matchLength, `prevLength, window, head, prev, enc.footprint
    {
      && Filling() && Emitting() && Told(base + strstart) && |block| < litBufsize - 1 && level > 0
      && matchLength < MIN_MATCH && 1 <= prevLength < MIN_MATCH && maxChain >= 4
    }

    lemma BetweenParts()
      requires Between()
      ensures Filling() && Emitting() && Told(base + strstart) && |block| < litBufsize - 1 && level > 0
      ensures matchLength < MIN_MATCH && 1 <= prevLength < MIN_MATCH && maxChain >= 4
    {
      hide Filling, Emitting, Told;
    }

    lemma MakeBetween()
      requires Filling() && Emitting() && Told(base + strstart) && |block| < litBufsize - 1 && level > 0
      requires matchLength < MIN_MATCH && 1 <= prevLength < MIN_MATCH && maxChain >= 4
      ensures Between()
    {
      hide Filling, Emitting, Told;
    }

    /** Reading more changes nothing told. */
    twostate lemma ToldMore(n: int)
      requires old(Told(n)) && told == old(told) && block == old(block) && old(src) <= src && restart == old(restart)
      requires base + blockStart == old(base + blockStart)
      ensures Told(n)
    {
      assert src[..n] == old(src)[..n] && src[..base + blockStart] == old(src)[..base + blockStart];
      hide PutAll, Grounded, AllFit;
    }

    /** Enter the current string, when it has three bytes; what else was found stays. */
    method Enter(stale: int) returns (hashHead: int)
      requires Filling() && strstart + MIN_LOOKAHEAD <= window.Length && stale >= 0
      modifies this`insH, this`ins, head, prev
      ensures Dict(strstart + 1) && insH >= 0 && hashHead >= 0
      ensures lookahead >= MIN_MATCH ==> Running2(insH, window[strstart + 1], window[strstart + 2], z.shift, z.bits)
      ensures hashHead != NIL && hashHead <= strstart && strstart - hashHead <= MaxDist() ==> Searching(hashHead)
      ensures if lookahead < MIN_MATCH then hashHead == stale
              else Entered(z, SearchFor(strstart, hashHead), old(head[..]), old(prev[..]))
    {
      hide *;
      FillingParts();
      hashHead := stale;
      if lookahead >= MIN_MATCH {
        hashHead := InsertString(strstart);
        DictSizes(strstart + 1);
        if hashHead != NIL {
          MakeCandidate(hashHead);
        }
      } else {
        DictOn(strstart, strstart + 1);
      }
      if hashHead != NIL && hashHead <= strstart && strstart - hashHead <= MaxDist() {
        MakeSearching(hashHead);
      }
    }

    lemma DictOn(f: int, f': int)
      requires Dict(f) && f <= f'
      ensures Dict(f')
    {
      ChainedOn(z, window[..], head[..], prev[..], end, ins, f, f');
      hide Chained;
    }

    lemma MakeCandidate(cur: int)
      requires lookahead >= MIN_MATCH && strstart + lookahead == end <= window.Length && cur != NIL && cur < strstart
      requires Names(z, window[..], end, ins, cur, KeyAt(window[..], strstart, z.shift, z.bits))
      ensures Candidate(cur)
    {
    }

    lemma MakeSearching(cur: int)
      requires Dict(strstart + 1) && window.Length == 2 * z.wsize && strstart + MIN_LOOKAHEAD <= window.Length
      requires 0 <= cur <= strstart && strstart - cur <= MaxDist() && (lookahead >= MIN_MATCH ==> Candidate(cur))
      ensures Searching(cur)
    {
      hide Dict, Candidate;
    }

    /** There is a string to compare with, not too far back. */
    predicate Tries(s: Search) {
      s.cur != NIL && s.cur <= s.p && s.p - s.cur <= MaxDist()
    }

    /** What comes of a search, by the strategy; `was` is the length of the match there was. */
    ghost predicate Sought(s: Search, was: int, r: int)
      reads `maxChain, `goodMatch, `niceMatch
    {
      if strategy == HuffmanOnly || (strategy == Rle && s.p - s.cur != 1) then r == was
      else if strategy == Rle then NoMore(s, s.cur, r)
      else Best(s, r)
    }

    lemma SoughtIs(s: Search, was: int, r: int)
      ensures Sought(s, was, r)
         <==> if strategy == HuffmanOnly || (strategy == Rle && s.p - s.cur != 1) then r == was
              else if strategy == Rle then NoMore(s, s.cur, r)
              else Best(s, r)
    {
      hide NoMore, Best;
    }

    /** Look for a match of the current string, by the strategy. */
    method Find(hashHead: int) returns (r: nat)
      requires Searching(hashHead) && 1 <= prevLength <= MAX_MATCH && maxChain >= 4 && matchLength <= MAX_MATCH
               && lookahead >= 1
      modifies this`matchStart
      ensures r <= MAX_MATCH && (matchLength >= 1 ==> r >= 1)
      ensures r >= MIN_MATCH && r > prevLength && r > matchLength ==>
              strategy != HuffmanOnly && r <= lookahead && Matched(matchStart, r)
      ensures Sought(SearchFor(strstart, hashHead), matchLength, r)
    {
      hide *;
      SearchFacts(hashHead);
      SearchIs(strstart, hashHead);
      if strategy != HuffmanOnly && strategy != Rle {
        r := LongestMatch(hashHead);
      } else if strategy == Rle && strstart - hashHead == 1 {
        r := LongestMatchFast(hashHead);
      } else {
        r := matchLength;
      }
      SoughtIs(SearchFor(strstart, hashHead), matchLength, r);
    }

    /** Enter all the strings that a match covers, and move past it. */
    method EnterAll() returns (hashHead: int)
      requires Layout() && Dict(strstart + 1) && Data() && matchLength >= MIN_MATCH && lookahead >= MIN_MATCH
      requires end == strstart + matchLength + lookahead
      requires insH >= 0 && strstart + 2 < window.Length
               && Running2(insH, window[strstart + 1], window[strstart + 2], z.shift, z.bits)
      modifies this`insH, this`ins, this`strstart, this`matchLength, head, prev
      ensures strstart == old(strstart + matchLength) && matchLength == 0 && Filling() && hashHead >= 0
    {
      hide *;
      DataParts();
      Constants();
      ghost var past := strstart + matchLength;
      matchLength := matchLength - 1;
      while true
        invariant 1 <= matchLength && strstart + matchLength == past - 1 && past + 3 <= end
        invariant Dict(strstart + 1) && Running2(insH, window[strstart + 1], window[strstart + 2], z.shift, z.bits)
        invariant insH >= 0
        decreases matchLength
      {
        strstart := strstart + 1;
        hashHead := InsertString(strstart);
        matchLength := matchLength - 1;
        if matchLength == 0 {
          break;
        }
      }
      strstart := strstart + 1;
      MakeFilling();
    }

    static lemma Constants()
      ensures MIN_LOOKAHEAD == 262 && MAX_MATCH == 258 && MIN_MATCH == 3 && NIL == 0 && TOO_FAR == 4096
    {
    }

    /** Move past a match without entering its strings; the key starts afresh. */
    method JumpMatch()
      requires Layout() && Dict(strstart + 1) && Data() && 1 <= matchLength <= MAX_MATCH
               && strstart + MIN_LOOKAHEAD <= window.Length
      requires end == strstart + matchLength + lookahead
      modifies this`insH, this`strstart, this`matchLength
      ensures strstart == old(strstart + matchLength) && matchLength == 0 && Filling()
    {
      hide *;
      DataParts();
      Constants();
      DictSizes(strstart + 1);
      DictOn(strstart + 1, strstart + matchLength);
      strstart := strstart + matchLength;
      matchLength := 0;
      TwoBytes(window[strstart], window[strstart + 1], z.shift, z.bits);
      insH := Update(window[strstart], window[strstart + 1], z.shift, z.bits);
      MakeFilling();
    }

    /** Output the match found, and move past it. */
    method TakeFast(hashHead0: int) returns (hashHead: int, flush: bool)
      requires Layout() && Dict(strstart + 1) && Data() && end == strstart + lookahead && insH >= 0 && hashHead0 >= 0
      requires lookahead >= MIN_MATCH ==>
                 strstart + 2 < window.Length && Running2(insH, window[strstart + 1], window[strstart + 2], z.shift,
                                                          z.bits)
      requires MIN_MATCH <= matchLength <= lookahead && Matched(matchStart, matchLength)
               && strstart + MIN_LOOKAHEAD <= window.Length
      requires strategy != HuffmanOnly && Emitting() && Told(base + strstart) && |block| < litBufsize - 1
               && enc.w.pending == 0
      modifies this`insH, this`ins, this`strstart, this`lookahead, this`matchLength, this`block, head, prev,
               enc.lDesc.fc, enc.dDesc.fc
      modifies enc.w`mem, enc`lastLit
      ensures Filling() && Emitting() && Told(base + strstart) && matchLength == 0 && strstart > old(strstart)
              && hashHead >= 0
      ensures flush == (|block| == litBufsize - 1) && |block| <= litBufsize - 1 && strstart < window.Length
      ensures strstart == old(strstart + matchLength) && old(matchStart) < old(strstart)
      ensures block == old(block) + [Pair2(old(matchLength), old(strstart - matchStart))]
    {
      hide *;
      Constants();
      LayoutParts();
      hashHead := hashHead0;
      MatchedTrue(matchStart, matchLength);
      TrueParts(base + strstart, matchLength, strstart - matchStart);
      flush := Matching(base + strstart, matchLength, strstart - matchStart);
      lookahead := lookahead - matchLength;
      if matchLength <= maxLazy && lookahead >= MIN_MATCH {
        hashHead := EnterAll();
      } else {
        JumpMatch();
      }
    }

    /** The token of `deflate_fast` for a string: the match found, r bytes long, or the byte itself. */
    ghost predicate FastToken(s: Search, was: int, r: nat, from: int, t: Token)
      reads `maxChain, `goodMatch, `niceMatch
    {
      && (if Tries(s) then Sought(s, was, r) else r == was)
      && s.p < |s.w| && (r >= MIN_MATCH ==> from < s.p)
      && t == if r >= MIN_MATCH then Pair2(r, s.p - from) else Literal(s.w[s.p])
    }

    lemma MakeFastToken(s: Search, was: int, r: nat, from: int, t: Token)
      requires if Tries(s) then Sought(s, was, r) else r == was
      requires s.p < |s.w| && (r >= MIN_MATCH ==> from < s.p)
      requires t == if r >= MIN_MATCH then Pair2(r, s.p - from) else Literal(s.w[s.p])
      ensures FastToken(s, was, r, from, t)
    {
      hide Sought, Tries;
    }

    /** The pass of `deflate_fast` over one string: a match or a literal. */
    method TokenFast(stale: int)
      returns (hashHead: int, flush: bool, ghost s: Search, ghost r: nat, ghost from: int, ghost t: Token)
      requires Between() && strstart + MIN_LOOKAHEAD <= window.Length && lookahead >= 1 && stale >= 0
               && enc.w.pending == 0
      modifies this`insH, this`ins, this`strstart, this`lookahead, this`matchLength, this`matchStart, this`block, head,
               prev
      modifies enc.lDesc.fc, enc.dDesc.fc, enc.w`mem, enc`lastLit
      ensures Filling() && Emitting() && Told(base + strstart) && matchLength < MIN_MATCH && strstart > old(strstart)
              && hashHead >= 0
      ensures flush == (|block| == litBufsize - 1) && |block| <= litBufsize - 1 && strstart < window.Length
      ensures s.w == old(window[..]) && s.p == old(strstart) && s.ahead == old(lookahead)
      ensures old(lookahead) >= MIN_MATCH ==> Entered(z, s, old(head[..]), old(prev[..]))
      ensures FastToken(s, old(matchLength), r, from, t) && block == old(block) + [t]
      ensures strstart == old(strstart) + (if r >= MIN_MATCH then r else 1)
    {
      hide *;
      BetweenParts();
      FillingParts();
      hashHead, s := SeekFast(stale);
      r, from := matchLength, matchStart;
      if matchLength >= MIN_MATCH {
        MatchedBack(matchStart, matchLength);
        t := Pair2(matchLength, strstart - matchStart);
        hashHead, flush := TakeFast(hashHead);
      } else {
        t := Literal(window[strstart]);
        flush := TakeLiteral();
      }
      MakeFastToken(s, old(matchLength), r, from, t);
    }

    /** Enter the current string and look for a match. */
    method SeekFast(stale: int) returns (hashHead: int, ghost s: Search)
      requires Filling() && strstart + MIN_LOOKAHEAD <= window.Length && lookahead >= 1 && stale >= 0
      requires matchLength < MIN_MATCH && 1 <= prevLength < MIN_MATCH && maxChain >= 4
      modifies this`insH, this`ins, this`matchLength, this`matchStart, head, prev
      ensures Dict(strstart + 1) && insH >= 0 && hashHead >= 0
      ensures lookahead >= MIN_MATCH ==> Running2(insH, window[strstart + 1], window[strstart + 2], z.shift, z.bits)
      ensures matchLength >= MIN_MATCH ==>
                strategy != HuffmanOnly && matchLength <= lookahead && Matched(matchStart, matchLength)
      ensures s.w == window[..] && s.p == strstart && s.ahead == lookahead
      ensures lookahead >= MIN_MATCH ==> Entered(z, s, old(head[..]), old(prev[..]))
      ensures if Tries(s) then Sought(s, old(matchLength), matchLength) else matchLength == old(matchLength)
    {
      hide *;
      FillingParts();
      hashHead := Enter(stale);
      s := SearchFor(strstart, hashHead);
      SearchIs(strstart, hashHead);
      TriesIs(s);
      // the source compares the unsigned difference
      if hashHead != NIL && hashHead <= strstart && strstart - hashHead <= MaxDist() {
        matchLength := Find(hashHead);
      }
    }

    lemma MatchedBack(m: int, r: int)
      requires Matched(m, r)
      ensures 0 <= m < strstart
    {
    }

    lemma TriesIs(s: Search)
      ensures Tries(s) <==> s.cur != NIL && s.cur <= s.p && s.p - s.cur <= MaxDist()
    {
    }

    /** Output the current byte, and move past it. */
    method TakeLiteral() returns (flush: bool)
      requires Layout() && Dict(strstart + 1) && Data() && end == strstart + lookahead && insH >= 0 && lookahead >= 1
      requires lookahead >= MIN_MATCH ==>
                 strstart + 2 < window.Length && Running2(insH, window[strstart + 1], window[strstart + 2], z.shift,
                                                          z.bits)
      requires Emitting() && Told(base + strstart) && |block| < litBufsize - 1 && enc.w.pending == 0
      modifies this`strstart, this`lookahead, this`block, enc.lDesc.fc, enc.dDesc.fc, enc.w`mem, enc`lastLit
      ensures Filling() && Emitting() && Told(base + strstart) && strstart == old(strstart) + 1
      ensures flush == (|block| == litBufsize - 1) && |block| <= litBufsize - 1
      ensures old(strstart) < window.Length && block == old(block) + [Literal(window[old(strstart)])]
    {
      hide *;
      LayoutParts();
      DataParts();
      Constants();
      flush := Literally(strstart);
      lookahead := lookahead - 1;
      strstart := strstart + 1;
      MakeFilling();
    }

    lemma TrueParts(i: int, n: int, dist: int)
      requires True(i, n, dist)
      ensures 1 <= dist <= Reach() && MIN_MATCH <= n <= MAX_MATCH && i + n <= |src|
    {
    }

    /** There is room for output and none is pending. */
    ghost predicate Clear()
      reads `availOut, enc.w`pending
    {
      availOut > 0 && enc.w.pending == 0
    }

    lemma ClearIs()
      ensures Clear() <==> availOut > 0 && enc.w.pending == 0
    {
    }

    /** A pass, and the flush of the block that it may have filled. */
    method PassFast(stale: int)
      returns (hashHead: int, full: bool, ghost s: Search, ghost r: nat, ghost from: int, ghost t: Token)
      requires Between() && strstart + MIN_LOOKAHEAD <= window.Length && lookahead >= 1 && stale >= 0 && Clear()
      modifies this`insH, this`ins, this`strstart, this`lookahead, this`matchLength, this`matchStart, this`block, head,
               prev
      modifies this`blockStart, this`told, this`availOut, this`delivered, this`dest, enc.footprint
      ensures Between() && strstart > old(strstart) && hashHead >= 0
      ensures if full then availOut == 0 else Clear()
      ensures old(enc.w.out) <= enc.w.out && old(delivered) <= delivered
              && delivered + availOut == old(delivered + availOut)
      ensures enc.short == old(enc.short)
      ensures s.w == old(window[..]) && s.p == old(strstart) && s.ahead == old(lookahead)
      ensures old(lookahead) >= MIN_MATCH ==> Entered(z, s, old(head[..]), old(prev[..]))
      ensures FastToken(s, old(matchLength), r, from, t) && (block == old(block) + [t] || block == [])
      ensures strstart == old(strstart) + (if r >= MIN_MATCH then r else 1)
    {
      hide *;
      BetweenParts();
      FillingParts();
      ClearIs();
      hashHead, full, s, r, from, t := TokenFast(stale);
      ClearIs();
      full := FlushFull(full);
      FillingParts();
      MakeBetween();
    }

    /** Flush the block if it is full; true when that has left no room. */
    method FlushFull(full0: bool) returns (full: bool)
      requires Filling() && Emitting() && Told(base + strstart) && level > 0 && strstart < window.Length && Clear()
      requires full0 == (|block| == litBufsize - 1) && |block| <= litBufsize - 1
      modifies this`block, this`blockStart, this`told, this`availOut, this`delivered, this`dest, enc.footprint
      ensures Filling() && Emitting() && Told(base + strstart) && |block| < litBufsize - 1
      ensures block == if full0 then [] else old(block)
      ensures if full then availOut == 0 else Clear()
      ensures old(enc.w.out) <= enc.w.out && old(delivered) <= delivered
              && delivered + availOut == old(delivered + availOut)
      ensures enc.short == old(enc.short)
    {
      hide *;
      FillingParts();
      ClearIs();
      full := false;
      if full0 {
        FlushBlockOnly(false);
        full := availOut == 0;
      }
      ClearIs();
    }

    /** Fill the window when there is too little ahead. */
    method Refill(ghost n: int)
      requires Filling() && Told(n)
      modifies this`insH, this`strstart, this`lookahead, this`matchStart, this`blockStart, this`avail, this`src,
               this`base, this`end
      modifies this`ins, window, head, prev
      ensures Filling() && Told(n) && strstart + MIN_LOOKAHEAD <= window.Length
              && (lookahead >= MIN_LOOKAHEAD || avail == [])
      ensures old(src) <= src && src + avail == old(src + avail)
      ensures base + strstart == old(base + strstart) && strstart - matchStart == old(strstart - matchStart)
      ensures old(strstart) >= 1 ==> strstart >= 1
    {
      hide *;
      FillingParts();
      if lookahead < MIN_LOOKAHEAD {
        FillWindow();
        ToldMore(n);
      }
    }

    /** What a compression function has done when it returns. */
    ghost predicate Outcome(state: BlockState, flush: Flush)
      reads this, enc.w
    {
      && (state == NeedMore ==> availOut == 0 || (flush == NoFlush && avail == [] && lookahead < MIN_LOOKAHEAD))
      && (state != NeedMore ==> lookahead == 0 && avail == [] && block == [] && told == src && flush != NoFlush)
      && (state == BlockDone || state == FinishDone ==> Clear())
      && (state == BlockDone && level == 0 ==> enc.w.biValid == 0)
      && (state == FinishStarted ==> availOut == 0)
      && (state != NeedMore ==> (flush == Finish <==> state == FinishStarted || state == FinishDone))
    }

    lemma MakeOutcome(state: BlockState, flush: Flush)
      requires state == NeedMore ==> availOut == 0 || (flush == NoFlush && avail == [] && lookahead < MIN_LOOKAHEAD)
      requires state != NeedMore ==> lookahead == 0 && avail == [] && block == [] && told == src && flush != NoFlush
      requires state == BlockDone || state == FinishDone ==> Clear()
      requires state == BlockDone && level == 0 ==> enc.w.biValid == 0
      requires state == FinishStarted ==> availOut == 0
      requires state != NeedMore ==> (flush == Finish <==> state == FinishStarted || state == FinishDone)
      ensures Outcome(state, flush)
    {
    }

    lemma OutcomeParts(state: BlockState, flush: Flush)
      requires Outcome(state, flush)
      ensures state == NeedMore ==> availOut == 0 || (flush == NoFlush && avail == [] && lookahead < MIN_LOOKAHEAD)
      ensures state != NeedMore ==> lookahead == 0 && avail == [] && block == [] && told == src && flush != NoFlush
      ensures state == BlockDone || state == FinishDone ==> Clear()
      ensures state == BlockDone && level == 0 ==> enc.w.biValid == 0
      ensures state == FinishStarted ==> availOut == 0
      ensures state != NeedMore ==> (flush == Finish <==> state == FinishStarted || state == FinishDone)
    {
    }

    /** All that was read is in the stream. */
    ghost predicate Finished()
      reads `lookahead, `src, `told, `delivered, `dest, `restart, enc.footprint
    {
      Ended() && told == src && lookahead == 0
    }

    lemma MakeFinished()
      requires Ended() && told == src && lookahead == 0
      ensures Finished()
    {
      hide Ended;
    }

    /** The flush at the end of a compression function, with what it is to return. */
    method FlushLast(flush: Flush) returns (state: BlockState)
      requires Layout() && Data() && Emitting() && strstart == end && |block| <= litBufsize - 1
      requires blockStart >= 0 ==> strstart - blockStart <= 0xffff
      requires Told(if level > 0 then base + strstart else base + blockStart)
      requires level == 0 ==> block == [] && 0 <= blockStart <= strstart && strstart - blockStart + 5 <= 4 * litBufsize
      requires lookahead == 0 && avail == [] && flush != NoFlush && Clear()
      modifies this`block, this`blockStart, this`told, this`availOut, this`delivered, this`dest, enc.footprint
      ensures Told(base + strstart) && block == [] && blockStart == strstart && told == src
      ensures if state == FinishStarted || state == FinishDone then Finished() else Emitting()
      ensures Outcome(state, flush)
      ensures old(enc.w.out) <= enc.w.out && old(delivered) <= delivered
              && delivered + availOut == old(delivered + availOut)
      ensures enc.short <= old(enc.short) + 1
    {
      hide *;
      LayoutParts();
      DataParts();
      ClearIs();
      FlushBlockOnly(flush == Finish);
      ClearIs();
      assert src[..base + strstart] == src;
      if availOut == 0 {
        state := if flush == Finish then FinishStarted else NeedMore;
      } else {
        state := if flush == Finish then FinishDone else BlockDone;
      }
      if flush == Finish {
        MakeFinished();
      }
      MakeOutcome(state, flush);
    }

    /** `deflate_fast`: greedy matching. */
    method DeflateFast(flush: Flush) returns (state: BlockState)
      requires Between() && Clear()
      modifies this`insH, this`strstart, this`lookahead, this`matchLength, this`matchStart, this`avail, this`block,
               this`blockStart
      modifies this`told, this`availOut, this`delivered, this`dest, this`src, this`base, this`end, this`ins, window,
               head, prev
      modifies enc.footprint
      ensures if state == FinishStarted || state == FinishDone then Finished() else Between()
      ensures src + avail == old(src + avail) && Outcome(state, flush)
      ensures old(enc.w.out) <= enc.w.out && old(delivered) <= delivered
              && delivered + availOut == old(delivered + availOut)
      ensures enc.short <= old(enc.short) + 1
    {
      hide *;
      Constants();
      var hashHead := NIL;
      var full := false;
      ghost var all := src + avail;
      while true
        invariant Between() && src + avail == all && hashHead >= 0 && Clear()
        invariant old(enc.w.out) <= enc.w.out && old(delivered) <= delivered
                  && delivered + availOut == old(delivered + availOut)
        invariant enc.short == old(enc.short)
        decreases |all| - (base + strstart)
      {
        RefillBetween();
        FillingParts();
        if lookahead < MIN_LOOKAHEAD && flush == NoFlush {
          MakeOutcome(NeedMore, flush);
          return NeedMore;
        }
        if lookahead == 0 {
          break;
        }
        ghost var s, r, from, t;
        hashHead, full, s, r, from, t := PassFast(hashHead);
        if full {
          MakeOutcome(NeedMore, flush);
          return NeedMore;
        }
      }
      state := EndFast(flush);
    }

    method RefillBetween()
      requires Between()
      modifies this`insH, this`strstart, this`lookahead, this`matchStart, this`blockStart, this`avail, this`src,
               this`base, this`end
      modifies this`ins, window, head, prev
      ensures Between() && Filling() && strstart + MIN_LOOKAHEAD <= window.Length
              && (lookahead >= MIN_LOOKAHEAD || avail == [])
      ensures src + avail == old(src + avail) && base + strstart == old(base + strstart)
    {
      hide *;
      BetweenParts();
      FillingParts();
      Refill(base + strstart);
      MakeBetween();
    }

    /** What `deflate_fast` does at the end of the data. */
    method EndFast(flush: Flush) returns (state: BlockState)
      requires Between() && lookahead == 0 && avail == [] && flush != NoFlush && strstart < window.Length && Clear()
      modifies this`block, this`blockStart, this`told, this`availOut, this`delivered, this`dest, enc.footprint
      ensures if state == FinishStarted || state == FinishDone then Finished() else Between()
      ensures Outcome(state, flush)
      ensures old(enc.w.out) <= enc.w.out && old(delivered) <= delivered
              && delivered + availOut == old(delivered + availOut)
      ensures enc.short <= old(enc.short) + 1
    {
      hide *;
      BetweenParts();
      FillingParts();
      state := FlushLast(flush);
      if !(state == FinishStarted || state == FinishDone) {
        MakeBetween();
      }
    }

    // ----- deflate_slow

    /** How many bytes before strstart are still to be told. */
    ghost function Held(): nat
      reads `matchAvailable
    {
      if matchAvailable then 1 else 0
    }

    /**
     What holds between two strings of `deflate_slow`: all is told but perhaps one byte, and the
     match found for that byte, if any, is true.
     */
    ghost predicate Deferring()
      reads `insH, `strstart, `lookahead, `src, `base, `end, `ins, `restart, `told, `block, `blockStart, `delivered,
            `dest,
            `maxChain
      reads `matchLength, `matchStart, `matchAvailable, window, head, prev, enc.footprint
    {
      && Filling() && Emitting() && strstart >= Held() && Told(base + strstart - Held()) && |block| < litBufsize - 1
      && maxChain >= 4 && level > 0 && 1 <= matchLength <= MAX_MATCH && Pending()
    }

    ghost predicate Pending()
      reads `strstart, `src, `base, `restart, `matchAvailable, `matchLength, `matchStart
    {
      matchLength >= MIN_MATCH ==> matchAvailable && True(base + strstart - 1, matchLength, strstart - 1 - matchStart)
    }

    lemma DeferringParts()
      requires Deferring()
      ensures Filling() && Emitting() && strstart >= Held() && Told(base + strstart - Held())
              && |block| < litBufsize - 1
      ensures maxChain >= 4 && level > 0
      ensures 1 <= matchLength <= MAX_MATCH && Pending() && Held() == if matchAvailable then 1 else 0
    {
      hide Filling, Emitting, Told, Pending;
    }

    lemma MakeDeferring()
      requires Filling() && Emitting() && strstart >= Held() && Told(base + strstart - Held())
               && |block| < litBufsize - 1
      requires maxChain >= 4 && level > 0 && 1 <= matchLength <= MAX_MATCH && Pending()
      ensures Deferring()
    {
      hide Filling, Emitting, Told, Pending;
    }

    lemma HeldIs()
      ensures Held() == if matchAvailable then 1 else 0
    {
    }

    /** Reading more, or moving the window, leaves a pending match true. */
    twostate lemma PendingMore()
      requires old(Pending()) && old(src) <= src && base + strstart == old(base + strstart) && restart == old(restart)
      requires matchAvailable == old(matchAvailable) && matchLength == old(matchLength)
      requires strstart - matchStart == old(strstart - matchStart)
      ensures Pending()
    {
      var d := strstart - 1 - matchStart;
      if matchLength >= MIN_MATCH {
        RepeatsMore(old(src), src, base + strstart - 1, matchLength, d);
      }
    }

    /** The match just found, if it is longer than the one before. */
    ghost predicate Found()
      reads `strstart, `lookahead, `base, `restart, `matchLength, `matchStart, `prevLength, window
    {
      && 1 <= matchLength <= MAX_MATCH
      && (matchLength >= MIN_MATCH && matchLength > prevLength ==>
            strategy != HuffmanOnly && matchLength <= lookahead && Matched(matchStart, matchLength))
    }

    /** What `deflate_slow` makes of a search: short matches may be dropped, and a good one before needs no other. */
    ghost predicate SlowFound(s: Search, r: nat, far: int, length: nat)
      reads `maxChain, `goodMatch, `niceMatch, `maxLazy
    {
      if Tries(s) && s.before < maxLazy then
        && Sought(s, MIN_MATCH - 1, r)
        && length == if r <= 5 && (strategy == Filtered || (r == MIN_MATCH && far > TOO_FAR)) then MIN_MATCH - 1 else r
      else length == MIN_MATCH - 1
    }

    lemma SlowFoundIs(s: Search, r: nat, far: int, length: nat)
      ensures SlowFound(s, r, far, length)
         <==> if s.cur != NIL && s.before < maxLazy && s.cur <= s.p && s.p - s.cur <= MaxDist() then
                && Sought(s, MIN_MATCH - 1, r)
                && (length == if r <= 5 && (strategy == Filtered || (r == MIN_MATCH && far > TOO_FAR))
                    then MIN_MATCH - 1
                              else r)
              else length == MIN_MATCH - 1
    {
      hide Sought;
    }

    /** Look for a match for the current string, unless the last one is good enough. */
    method Seek(hashHead: int) returns (ghost s: Search, ghost r: nat, ghost far: int)
      requires hashHead != NIL && hashHead <= strstart && strstart - hashHead <= MaxDist() ==> Searching(hashHead)
      requires 1 <= matchLength <= MAX_MATCH && maxChain >= 4 && lookahead >= 1
      modifies this`prevLength, this`prevMatch, this`matchLength, this`matchStart
      ensures prevLength == old(matchLength) && prevMatch == old(matchStart) && Found()
      ensures s == SearchFor(strstart, hashHead) && SlowFound(s, r, far, matchLength)
    {
      hide *;
      Constants();
      prevLength, prevMatch := matchLength, matchStart;
      matchLength := MIN_MATCH - 1;
      s, r, far := SearchFor(strstart, hashHead), 0, 0;
      SearchIs(strstart, hashHead);
      if hashHead != NIL && prevLength < maxLazy && hashHead <= strstart && strstart - hashHead <= MaxDist() {
        matchLength := Find(hashHead);
        r, far := matchLength, strstart - matchStart;
        if matchLength <= 5 && (strategy == Filtered || (matchLength == MIN_MATCH && strstart - matchStart > TOO_FAR)) {
          matchLength := MIN_MATCH - 1;
        }
      }
      SlowFoundIs(s, r, far, matchLength);
      MakeFound();
    }

    lemma MakeFound()
      requires 1 <= matchLength <= MAX_MATCH
      requires matchLength >= MIN_MATCH && matchLength > prevLength ==>
                 strategy != HuffmanOnly && matchLength <= lookahead && Matched(matchStart, matchLength)
      ensures Found()
    {
    }

    /** Enter the strings that the previous match covers, as far as they have three bytes, and move past it. */
    method EnterMatch(maxInsert: int, hashHead0: int) returns (hashHead: int)
      requires Layout() && Dict(strstart + 1) && Data() && prevLength >= 1 && insH >= 0 && maxInsert == end - MIN_MATCH
               && hashHead0 >= 0
      requires end == strstart + prevLength + 1 + lookahead
      requires strstart + 3 < end ==> Running2(insH, window[strstart + 1], window[strstart + 2], z.shift, z.bits)
      modifies this`insH, this`ins, this`strstart, this`prevLength, head, prev
      ensures strstart == old(strstart + prevLength) + 1 && Filling() && hashHead >= 0
    {
      hide *;
      DataParts();
      Constants();
      hashHead := hashHead0;
      ghost var past := strstart + prevLength;
      while true
        invariant prevLength >= 1 && strstart + prevLength == past && hashHead >= 0 && insH >= 0
        invariant Dict(strstart + 1)
        invariant strstart + 3 < end ==> Running2(insH, window[strstart + 1], window[strstart + 2], z.shift, z.bits)
        decreases prevLength
      {
        strstart := strstart + 1;
        if strstart <= maxInsert {
          hashHead := InsertString(strstart);
        } else {
          DictOn(strstart, strstart + 1);
        }
        prevLength := prevLength - 1;
        if prevLength == 0 {
          break;
        }
      }
      strstart := strstart + 1;
      MakeFilling();
    }

    /** Output the previous match. */
    method TakePrevious(hashHead0: int) returns (hashHead: int, flush: bool)
      requires Dict(strstart + 1) && Data() && end == strstart + lookahead && insH >= 0 && hashHead0 >= 0
               && strstart >= 1
      requires lookahead >= MIN_MATCH ==>
                 strstart + 2 < window.Length && Running2(insH, window[strstart + 1], window[strstart + 2], z.shift,
                                                          z.bits)
      requires Told(base + strstart - 1) && True(base + strstart - 1, prevLength, strstart - 1 - prevMatch)
      requires Layout() && Emitting() && |block| < litBufsize - 1 && maxChain >= 4
               && strstart + MIN_LOOKAHEAD <= window.Length
      requires enc.w.pending == 0
      modifies this`insH, this`ins, this`strstart, this`lookahead, this`prevLength, this`matchLength,
               this`matchAvailable
      modifies this`block, head, prev, enc.lDesc.fc, enc.dDesc.fc, enc.w`mem, enc`lastLit
      ensures hashHead >= 0 && strstart == old(strstart - 1 + prevLength) && old(prevLength) >= 3
              && matchLength == MIN_MATCH - 1
      ensures Filling() && Emitting() && !matchAvailable && Told(base + strstart)
      ensures |block| <= litBufsize - 1 && flush == (|block| == litBufsize - 1) && strstart < window.Length
      ensures old(prevMatch) < old(strstart - 1)
      ensures block == old(block) + [Pair2(old(prevLength), old(strstart - 1 - prevMatch))]
    {
      hide *;
      LayoutParts();
      DataParts();
      Constants();
      TrueParts(base + strstart - 1, prevLength, strstart - 1 - prevMatch);
      var maxInsert := strstart + lookahead - MIN_MATCH;
      flush := Matching(base + strstart - 1, prevLength, strstart - 1 - prevMatch);
      hashHead := PassMatch(maxInsert, hashHead0);
    }

    /** Move past the previous match, which has been told. */
    method PassMatch(maxInsert: int, hashHead0: int) returns (hashHead: int)
      requires Layout() && Dict(strstart + 1) && Data() && insH >= 0 && maxInsert == end - MIN_MATCH && hashHead0 >= 0
      requires end == strstart + lookahead && 1 <= strstart && MIN_MATCH <= prevLength <= lookahead + 1
      requires strstart + 3 < end ==> Running2(insH, window[strstart + 1], window[strstart + 2], z.shift, z.bits)
      requires Emitting() && Told(base + strstart - 1 + prevLength)
      modifies this`insH, this`ins, this`strstart, this`lookahead, this`prevLength, this`matchLength,
               this`matchAvailable, head, prev
      ensures hashHead >= 0 && strstart == old(strstart - 1 + prevLength) && matchLength == MIN_MATCH - 1
              && !matchAvailable
      ensures Filling() && Emitting() && Told(base + strstart)
    {
      hide *;
      LayoutParts();
      Constants();
      lookahead := lookahead - (prevLength - 1);
      prevLength := prevLength - 2;
      hashHead := EnterMatch(maxInsert, hashHead0);
      matchAvailable := false;
      matchLength := MIN_MATCH - 1;
    }

    /** Output the previous match, and flush the block that it may have filled. */
    method TakeMatch(hashHead0: int) returns (hashHead: int, full: bool)
      requires Dict(strstart + 1) && Data() && end == strstart + lookahead && insH >= 0 && hashHead0 >= 0
               && strstart >= 1
      requires lookahead >= MIN_MATCH ==>
                 strstart + 2 < window.Length && Running2(insH, window[strstart + 1], window[strstart + 2], z.shift,
                                                          z.bits)
      requires Told(base + strstart - 1) && True(base + strstart - 1, prevLength, strstart - 1 - prevMatch)
      requires Layout() && Emitting() && |block| < litBufsize - 1 && maxChain >= 4
               && strstart + MIN_LOOKAHEAD <= window.Length
      requires level > 0 && Clear()
      modifies this`insH, this`ins, this`strstart, this`lookahead, this`prevLength, this`matchLength,
               this`matchAvailable
      modifies this`block, this`blockStart, this`told, this`availOut, this`delivered, this`dest, head, prev,
               enc.footprint
      ensures Deferring() && strstart > old(strstart) && hashHead >= 0 && if full then availOut == 0 else Clear()
      ensures old(enc.w.out) <= enc.w.out && old(delivered) <= delivered
              && delivered + availOut == old(delivered + availOut)
      ensures enc.short == old(enc.short)
      ensures strstart == old(strstart - 1 + prevLength) && !matchAvailable && matchLength == MIN_MATCH - 1
      ensures old(prevMatch) < old(strstart - 1)
      ensures block == [] || block == old(block) + [Pair2(old(prevLength), old(strstart - 1 - prevMatch))]
    {
      hide *;
      Constants();
      LayoutParts();
      ClearIs();
      hashHead, full := TakePrevious(hashHead0);
      ClearIs();
      full := FlushTaken(full);
    }

    /** Flush the block if a match has filled it, with no byte held back. */
    method FlushTaken(full0: bool) returns (full: bool)
      requires Filling() && Emitting() && Told(base + strstart) && level > 0 && strstart < window.Length && Clear()
      requires full0 == (|block| == litBufsize - 1) && |block| <= litBufsize - 1
      requires !matchAvailable && matchLength == MIN_MATCH - 1 && maxChain >= 4
      modifies this`block, this`blockStart, this`told, this`availOut, this`delivered, this`dest, enc.footprint
      ensures Deferring() && if full then availOut == 0 else Clear()
      ensures old(enc.w.out) <= enc.w.out && old(delivered) <= delivered
              && delivered + availOut == old(delivered + availOut)
      ensures enc.short == old(enc.short) && block == if full0 then [] else old(block)
    {
      hide *;
      FillingParts();
      full := FlushFull(full0);
      Constants();
      MakePending();
      HeldIs();
      MakeDeferring();
    }

    /** Move on by one byte, leaving it to be told. */
    method Defer()
      requires Dict(strstart + 1) && Data() && end == strstart + lookahead && insH >= 0 && lookahead >= 1 && Found()
      requires lookahead >= MIN_MATCH ==>
                 strstart + 2 < window.Length && Running2(insH, window[strstart + 1], window[strstart + 2], z.shift,
                                                          z.bits)
      requires prevLength < MIN_MATCH || matchLength > prevLength
      requires Layout() && Emitting() && Told(base + strstart) && |block| < litBufsize - 1 && maxChain >= 4 && level > 0
      modifies this`strstart, this`lookahead, this`matchAvailable
      ensures strstart == old(strstart) + 1 && Deferring() && matchAvailable
    {
      hide *;
      LayoutParts();
      DataParts();
      FoundParts();
      if matchLength >= MIN_MATCH {
        MatchedTrue(matchStart, matchLength);
      }
      matchAvailable := true;
      strstart := strstart + 1;
      lookahead := lookahead - 1;
      MakeFilling();
      MakePending();
      HeldIs();
      MakeDeferring();
    }

    lemma FoundParts()
      requires Found()
      ensures 1 <= matchLength <= MAX_MATCH && MIN_MATCH == 3
      ensures matchLength >= MIN_MATCH && matchLength > prevLength ==>
                strategy != HuffmanOnly && matchLength <= lookahead && Matched(matchStart, matchLength)
    {
    }

    lemma MakePending()
      requires matchLength >= MIN_MATCH ==>
               matchAvailable && True(base + strstart - 1, matchLength, strstart - 1 - matchStart)
      ensures Pending()
    {
    }

    lemma UsePending()
      requires Pending() && matchLength >= MIN_MATCH
      ensures matchAvailable && True(base + strstart - 1, matchLength, strstart - 1 - matchStart)
    {
    }

    /** Output the byte held back, and hold back the next. */
    method TellHeld() returns (full: bool)
      requires Dict(strstart + 1) && Data() && end == strstart + lookahead && insH >= 0 && lookahead >= 1 && Found()
      requires lookahead >= MIN_MATCH ==>
                 strstart + 2 < window.Length && Running2(insH, window[strstart + 1], window[strstart + 2], z.shift,
                                                          z.bits)
      requires prevLength < MIN_MATCH || matchLength > prevLength
      requires strstart >= 1 && Told(base + strstart - 1) && |block| < litBufsize - 1 && maxChain >= 4 && level > 0
      requires Layout() && Emitting() && strstart < window.Length && Clear()
      modifies this`strstart, this`lookahead, this`matchAvailable, this`block, this`blockStart, this`told, this`availOut
      modifies this`delivered, this`dest, enc.footprint
      ensures strstart == old(strstart) + 1 && Deferring() && matchAvailable && if full then availOut == 0 else Clear()
      ensures block == [] || block == old(block) + [Literal(window[old(strstart) - 1])]
      ensures old(enc.w.out) <= enc.w.out && old(delivered) <= delivered
              && delivered + availOut == old(delivered + availOut)
      ensures enc.short == old(enc.short)
    {
      hide *;
      LayoutParts();
      ClearIs();
      full := Literally(strstart - 1);
      if full {
        FlushBlockOnly(false);
      }
      Defer();
      full := availOut == 0;
      ClearIs();
    }

    /** The pass of `deflate_slow` over one string. */
    method PassSlow(stale: int)
      returns (hashHead: int, full: bool, ghost s: Search, ghost r: nat, ghost far: int, ghost length: nat)
      requires Deferring() && strstart + MIN_LOOKAHEAD <= window.Length && lookahead >= 1 && stale >= 0 && Clear()
      modifies this`insH, this`ins, this`strstart, this`lookahead, this`matchLength, this`matchStart, this`prevLength,
               this`prevMatch
      modifies this`matchAvailable, this`block, this`blockStart, this`told, this`availOut, this`delivered, this`dest,
               head, prev
      modifies enc.footprint
      ensures Deferring() && strstart > old(strstart) && hashHead >= 0 && if full then availOut == 0 else Clear()
      ensures old(enc.w.out) <= enc.w.out && old(delivered) <= delivered
              && delivered + availOut == old(delivered + availOut)
      ensures enc.short == old(enc.short)
      ensures s.w == old(window[..]) && s.p == old(strstart) && s.ahead == old(lookahead)
              && s.before == old(matchLength)
      ensures old(lookahead) >= MIN_MATCH ==> Entered(z, s, old(head[..]), old(prev[..]))
      ensures SlowFound(s, r, far, length)
      ensures if old(matchLength) >= MIN_MATCH && length <= old(matchLength)
              then Adopted(old(matchLength), old(strstart - 1 - matchStart), old(strstart), old(block))
              else Passed(length, old(strstart), old(block), if old(matchAvailable) then 1 else 0)
    {
      hide *;
      Constants();
      DeferringParts();
      FillingParts();
      if matchLength >= MIN_MATCH {
        UsePending();
      }
      hashHead, s, r, far := SeekSlow(stale);
      length := matchLength;
      full := false;
      if prevLength >= MIN_MATCH && matchLength <= prevLength {
        hashHead, full := TakeMatch(hashHead);
      } else if matchAvailable {
        full := TellHeld();
      } else {
        Defer();
      }
      PassedIs(length, old(strstart), old(block), if old(matchAvailable) then 1 else 0);
      AdoptedIs(old(matchLength), old(strstart - 1 - matchStart), old(strstart), old(block));
    }

    /** Enter the current string and look for a match, the one before being kept. */
    method SeekSlow(stale: int) returns (hashHead: int, ghost s: Search, ghost r: nat, ghost far: int)
      requires Filling() && strstart + MIN_LOOKAHEAD <= window.Length && lookahead >= 1 && stale >= 0
      requires 1 <= matchLength <= MAX_MATCH && maxChain >= 4
      modifies this`insH, this`ins, this`prevLength, this`prevMatch, this`matchLength, this`matchStart, head, prev
      ensures Dict(strstart + 1) && insH >= 0 && hashHead >= 0
      ensures lookahead >= MIN_MATCH ==> Running2(insH, window[strstart + 1], window[strstart + 2], z.shift, z.bits)
      ensures prevLength == old(matchLength) && prevMatch == old(matchStart) && Found()
      ensures s.w == window[..] && s.p == strstart && s.ahead == lookahead && s.before == prevLength
      ensures lookahead >= MIN_MATCH ==> Entered(z, s, old(head[..]), old(prev[..]))
      ensures SlowFound(s, r, far, matchLength)
    {
      hide *;
      FillingParts();
      hashHead := Enter(stale);
      ghost var s0 := SearchFor(strstart, hashHead);
      SearchIs(strstart, hashHead);
      ghost var entered := lookahead >= MIN_MATCH;
      assert entered ==> Entered(z, s0, old(head[..]), old(prev[..]));
      s, r, far := Seek(hashHead);
      SearchIs(strstart, hashHead);
      if entered {
        EnteredStill(z, s0, s, old(head[..]), old(prev[..]));
      }
    }

    static lemma EnteredStill(z: Sizes, s: Search, s': Search, head: seq<int>, prev: seq<int>)
      requires Entered(z, s, head, prev) && s'.w == s.w && s'.prev == s.prev && s'.p == s.p && s'.cur == s.cur
      ensures Entered(z, s', head, prev)
    {
      hide KeyAt, Slot;
    }

    /** The match found for the byte before p has become a token, and it is moved past. */
    ghost predicate Adopted(length: nat, dist: int, p: nat, was: seq<Token>)
      reads `strstart, `matchAvailable, `matchLength, `block
    {
      && strstart == p - 1 + length && !matchAvailable && matchLength == MIN_MATCH - 1
      && dist >= 1 && (block == [] || block == was + [Pair2(length, dist)])
    }

    lemma AdoptedIs(length: nat, dist: int, p: nat, was: seq<Token>)
      ensures Adopted(length, dist, p, was)
         <==> && strstart == p - 1 + length && !matchAvailable && matchLength == MIN_MATCH - 1
              && dist >= 1 && (block == [] || block == was + [Pair2(length, dist)])
    {
    }

    /** The byte at p is held back with the match found for it, and the one held back before is told. */
    ghost predicate Passed(length: nat, p: nat, was: seq<Token>, held: nat)
      reads `strstart, `matchAvailable, `matchLength, `block, window
    {
      && strstart == p + 1 && matchAvailable && matchLength == length
      && (if held == 0 then block == was
          else 1 <= p <= window.Length && (block == [] || block == was + [Literal(window[p - 1])]))
    }

    lemma PassedIs(length: nat, p: nat, was: seq<Token>, held: nat)
      ensures Passed(length, p, was, held)
         <==> && strstart == p + 1 && matchAvailable && matchLength == length
              && (if held == 0 then block == was
                  else 1 <= p <= window.Length && (block == [] || block == was + [Literal(window[p - 1])]))
    {
    }

    /** At the end of the data no match is pending. */
    lemma NonePending()
      requires Pending() && |src| == base + strstart
      ensures matchLength < MIN_MATCH
    {
    }

    /** Output what is held back at the end of the data. */
    method TellLast()
      requires Deferring() && lookahead == 0 && enc.w.pending == 0
      modifies this`matchAvailable, this`block, enc.lDesc.fc, enc.dDesc.fc, enc.w`mem, enc`lastLit
      ensures Filling() && Emitting() && !matchAvailable && Told(base + strstart) && matchLength < MIN_MATCH
              && 1 <= matchLength
      ensures |block| <= litBufsize - 1 && maxChain >= 4 && level > 0
    {
      hide *;
      DeferringParts();
      FillingParts();
      NonePending();
      if matchAvailable {
        var flush := Literally(strstart - 1);
        matchAvailable := false;
      }
    }

    /** What `deflate_slow` does at the end of the data. */
    method EndSlow(flush: Flush) returns (state: BlockState)
      requires Deferring() && lookahead == 0 && avail == [] && flush != NoFlush && strstart < window.Length && Clear()
      modifies this`matchAvailable, this`block, this`blockStart, this`told, this`availOut, this`delivered, this`dest,
               enc.footprint
      ensures if state == FinishStarted || state == FinishDone then Finished() else Deferring()
      ensures Outcome(state, flush)
      ensures old(enc.w.out) <= enc.w.out && old(delivered) <= delivered
              && delivered + availOut == old(delivered + availOut)
      ensures enc.short <= old(enc.short) + 1
    {
      hide *;
      DeferringParts();
      FillingParts();
      ClearIs();
      TellLast();
      ClearIs();
      state := EndTold(flush);
    }

    method EndTold(flush: Flush) returns (state: BlockState)
      requires Filling() && Emitting() && Told(base + strstart) && |block| <= litBufsize - 1 && level > 0
      requires !matchAvailable && 1 <= matchLength < MIN_MATCH && maxChain >= 4
      requires lookahead == 0 && avail == [] && flush != NoFlush && strstart < window.Length && Clear()
      modifies this`block, this`blockStart, this`told, this`availOut, this`delivered, this`dest, enc.footprint
      ensures if state == FinishStarted || state == FinishDone then Finished() else Deferring()
      ensures Outcome(state, flush)
      ensures old(enc.w.out) <= enc.w.out && old(delivered) <= delivered
              && delivered + availOut == old(delivered + availOut)
      ensures enc.short <= old(enc.short) + 1
    {
      hide *;
      FillingParts();
      Constants();
      state := FlushLast(flush);
      if !(state == FinishStarted || state == FinishDone) {
        HeldIs();
        MakePending();
        MakeDeferring();
      }
    }

    /** `deflate_slow`: a match is taken only if there is no longer one at the next byte. */
    method DeflateSlow(flush: Flush) returns (state: BlockState)
      requires Deferring() && Clear()
      modifies this`insH, this`strstart, this`lookahead, this`matchLength, this`matchStart, this`prevLength,
               this`prevMatch
      modifies this`matchAvailable, this`avail, this`block, this`blockStart, this`told, this`availOut, this`delivered,
               this`dest
      modifies this`src, this`base, this`end, this`ins, window, head, prev, enc.footprint
      ensures if state == FinishStarted || state == FinishDone then Finished() else Deferring()
      ensures src + avail == old(src + avail) && Outcome(state, flush)
      ensures old(enc.w.out) <= enc.w.out && old(delivered) <= delivered
              && delivered + availOut == old(delivered + availOut)
      ensures enc.short <= old(enc.short) + 1
    {
      hide *;
      Constants();
      var hashHead := NIL;
      var full := false;
      ghost var all := src + avail;
      while true
        invariant Deferring() && src + avail == all && hashHead >= 0 && Clear()
        invariant old(enc.w.out) <= enc.w.out && old(delivered) <= delivered
                  && delivered + availOut == old(delivered + availOut)
        invariant enc.short == old(enc.short)
        decreases |all| - (base + strstart)
      {
        DeferringParts();
        FillingParts();
        RefillDeferring();
        FillingParts();
        if lookahead < MIN_LOOKAHEAD && flush == NoFlush {
          MakeOutcome(NeedMore, flush);
          return NeedMore;
        }
        if lookahead == 0 {
          break;
        }
        ghost var s, r, far, length;
        hashHead, full, s, r, far, length := PassSlow(hashHead);
        if full {
          MakeOutcome(NeedMore, flush);
          return NeedMore;
        }
      }
      state := EndSlow(flush);
    }

    method RefillDeferring()
      requires Deferring()
      modifies this`insH, this`strstart, this`lookahead, this`matchStart, this`blockStart, this`avail, this`src,
               this`base, this`end
      modifies this`ins, window, head, prev
      ensures Deferring() && Filling() && strstart + MIN_LOOKAHEAD <= window.Length
              && (lookahead >= MIN_LOOKAHEAD || avail == [])
      ensures src + avail == old(src + avail) && base + strstart == old(base + strstart)
    {
      hide *;
      DeferringParts();
      FillingParts();
      Refill(base + strstart - Held());
      PendingMore();
      HeldIs();
      MakeDeferring();
    }

    // ----- deflate_stored

    /** The least of the longest stored block and the room for one in the pending buffer. */
    function MaxBlockSize(): (n: int)
      requires litBufsize >= 2
      ensures 3 <= n <= 0xffff
    {
      if 0xffff > 4 * litBufsize - 5 then 4 * litBufsize - 5 else 0xffff
    }

    lemma BlockSizes()
      requires litBufsize >= 2
      ensures 3 <= MaxBlockSize() <= 0xffff && MaxBlockSize() + 5 <= 4 * litBufsize
              && (litBufsize >= 128 ==> MaxBlockSize() >= 127)
    {
    }

    /** What holds between rounds of `deflate_stored`; the running key is not kept. */
    ghost predicate Storing()
      reads `insH, `strstart, `lookahead, `src, `base, `end, `ins, `restart, `told, `block, `blockStart, `delivered,
            `dest
      reads window, head, prev, enc.footprint
    {
      && Layout() && Dict(strstart) && Data() && end == strstart + lookahead && insH >= 0 && Emitting()
      && Told(base + blockStart) && block == [] && level == 0
      && 0 <= blockStart <= strstart && strstart - blockStart < MaxDist() && strstart - blockStart < MaxBlockSize()
    }

    lemma StoringParts()
      requires Storing()
      ensures Layout() && Dict(strstart) && Data() && end == strstart + lookahead && insH >= 0 && Emitting()
      ensures Told(base + blockStart) && block == [] && level == 0 && litBufsize >= 2
      ensures 0 <= blockStart <= strstart && strstart - blockStart < MaxDist() && strstart - blockStart < MaxBlockSize()
      ensures head !in enc.footprint && prev !in enc.footprint && window !in enc.footprint && this !in enc.footprint
      ensures MaxDist() == z.wsize - 262 && 512 <= z.wsize <= 32768 && window.Length == 2 * z.wsize
              && 3 <= MaxBlockSize() <= 0xffff
      ensures MaxBlockSize() + 5 <= 4 * litBufsize && MaxBlockSize() >= 127
    {
      BlockSizes();
      hide Dict, Data, Emitting, Told, MaxBlockSize;
    }

    lemma MakeStoring()
      requires Layout() && Dict(strstart) && Data() && end == strstart + lookahead && insH >= 0 && Emitting()
      requires Told(base + blockStart) && block == [] && level == 0 && litBufsize >= 2
      requires 0 <= blockStart <= strstart && strstart - blockStart < MaxDist()
               && strstart - blockStart < MaxBlockSize()
      ensures Storing()
    {
      hide Dict, Data, Emitting, Told, MaxBlockSize;
    }

    /** Refill the window; the block that is not yet flushed stays in it. */
    method RefillStoring()
      requires Storing() && lookahead <= 1
      modifies this`insH, this`strstart, this`lookahead, this`matchStart, this`blockStart, this`avail, this`src,
               this`base, this`end
      modifies this`ins, window, head, prev
      ensures Storing() && strstart + MIN_LOOKAHEAD <= window.Length && (lookahead >= MIN_LOOKAHEAD || avail == [])
      ensures src + avail == old(src + avail) && base + strstart == old(base + strstart)
    {
      hide *;
      Constants();
      StoringParts();
      DataParts();
      MakeFilling();
      FillWindow();
      FillingParts();
      ToldMore(base + blockStart);
      MakeStoring();
    }

    /** Put what lies ahead into the block, and flush the block when it cannot grow further. */
    method PassStored() returns (full: bool)
      requires Storing() && lookahead >= 1 && Clear()
      modifies this`strstart, this`lookahead, this`block, this`blockStart, this`told, this`availOut, this`delivered,
               this`dest, enc.footprint
      ensures Storing() && strstart > old(strstart) && if full then availOut == 0 else Clear()
      ensures old(enc.w.out) <= enc.w.out && old(delivered) <= delivered
              && delivered + availOut == old(delivered + availOut)
      ensures enc.short == old(enc.short)
    {
      hide *;
      StoringParts();
      DataParts();
      ClearIs();
      ghost var s := strstart;
      full := false;
      strstart := strstart + lookahead;
      lookahead := 0;
      var maxStart := blockStart + MaxBlockSize();
      if strstart == 0 || strstart >= maxStart {
        lookahead := strstart - maxStart;
        strstart := maxStart;
        FlushBlockOnly(false);
        full := availOut == 0;
      }
      if !full && strstart - blockStart >= MaxDist() {
        FlushBlockOnly(false);
        full := availOut == 0;
      }
      ClearIs();
      DictOn(s, strstart);
      MakeStoring();
    }

    /** `deflate_stored`: no compression. */
    method DeflateStored(flush: Flush) returns (state: BlockState)
      requires Storing() && Clear()
      modifies this`insH, this`strstart, this`lookahead, this`matchStart, this`avail, this`block, this`blockStart
      modifies this`told, this`availOut, this`delivered, this`dest, this`src, this`base, this`end, this`ins, window,
               head, prev
      modifies enc.footprint
      ensures if state == FinishStarted || state == FinishDone then Finished() else Storing()
      ensures src + avail == old(src + avail) && Outcome(state, flush)
      ensures old(enc.w.out) <= enc.w.out && old(delivered) <= delivered
              && delivered + availOut == old(delivered + availOut)
      ensures enc.short <= old(enc.short) + 1
    {
      hide *;
      Constants();
      var full := false;
      ghost var all := src + avail;
      while true
        invariant Storing() && src + avail == all && Clear()
        invariant old(enc.w.out) <= enc.w.out && old(delivered) <= delivered
                  && delivered + availOut == old(delivered + availOut)
        invariant enc.short == old(enc.short)
        decreases |all| - (base + strstart)
      {
        if lookahead <= 1 {
          RefillStoring();
          if lookahead == 0 && flush == NoFlush {
            MakeOutcome(NeedMore, flush);
            return NeedMore;
          }
          if lookahead == 0 {
            break;
          }
        }
        StoringParts();
        DataParts();
        full := PassStored();
        if full {
          MakeOutcome(NeedMore, flush);
          return NeedMore;
        }
      }
      StoringParts();
      state := FlushLast(flush);
      if !(state == FinishStarted || state == FinishDone) {
        MakeStoring();
      }
    }

    // ----- deflate

    /** What holds between calls. */
    ghost predicate Sound()
      reads `insH, `strstart, `lookahead, `src, `base, `end, `ins, `restart, `told, `block, `blockStart, `delivered,
            `dest,
            `maxChain
      reads `matchLength, `prevLength, `matchStart, `matchAvailable, `finished, window, head, prev, enc.footprint
    {
      Layout() && if finished then Finished() else Running()
    }

    ghost predicate Running()
      reads `insH, `strstart, `lookahead, `src, `base, `end, `ins, `restart, `told, `block, `blockStart, `delivered,
            `dest,
            `maxChain
      reads `matchLength, `prevLength, `matchStart, `matchAvailable, window, head, prev, enc.footprint
    {
      if level == 0 then Storing() else if level <= 3 then Between() else Deferring()
    }

    lemma MakeSound()
      requires Layout() && if finished then Finished() else if level == 0 then Storing() else if level <= 3
               then Between() else Deferring()
      ensures Sound()
    {
      hide Finished, Storing, Between, Deferring, Layout;
    }

    lemma SoundParts()
      requires Sound()
      ensures Layout() && if finished then Finished() else Running()
      ensures !finished ==> if level == 0 then Storing() else if level <= 3 then Between() else Deferring()
    {
      hide Finished, Storing, Between, Deferring, Layout;
    }

    lemma MakeSoundOf()
      requires Layout() && if finished then Finished() else Running()
      ensures Sound()
    {
      hide Finished, Running, Layout;
    }

    lemma RunningParts()
      requires Running()
      ensures Emitting() && Dict(strstart) && insH >= 0
    {
      hide Emitting, Told, Dict, Data, Layout, Pending;
    }

    /** The stream and the dictionary may move on under a state that stays. */
    twostate lemma Carried()
      requires old(Running()) && Emitting() && Dict(strstart)
      requires insH == old(insH) && strstart == old(strstart) && lookahead == old(lookahead) && unchanged(window)
      requires src == old(src) && base == old(base) && end == old(end) && told == old(told) && block == old(block)
      requires blockStart == old(blockStart) && maxChain == old(maxChain) && matchLength == old(matchLength)
      requires prevLength == old(prevLength) && matchStart == old(matchStart) && matchAvailable == old(matchAvailable)
      requires restart == old(restart)
      ensures Running()
    {
      hide Emitting, Told, Dict, Data, Layout, Pending, Keyed;
    }

    /** Between blocks everything may be forgotten. */
    twostate lemma Forgotten()
      requires old(Running()) && old(block) == [] && old(told) == old(src) && Emitting() && Dict(strstart)
      requires insH == old(insH) && strstart == old(strstart) && lookahead == old(lookahead) && unchanged(window)
      requires src == old(src) && base == old(base) && end == old(end) && told == old(told) && block == old(block)
      requires blockStart == old(blockStart) && maxChain == old(maxChain) && matchLength == old(matchLength)
      requires prevLength == old(prevLength) && matchStart == old(matchStart) && matchAvailable == old(matchAvailable)
      requires restart.data <= |told|
      ensures Running()
    {
      hide *;
      WasRunning();
      if level == 0 {
        StoringForgets();
      } else if level <= 3 {
        BetweenForgets();
      } else {
        DeferringForgets();
      }
      RunningIs();
    }

    twostate lemma WasRunning()
      requires old(Running())
      ensures if level == 0 then old(Storing()) else if level <= 3 then old(Between()) else old(Deferring())
    {
      hide Storing, Between, Deferring;
    }

    lemma RunningIs()
      ensures Running() <==> if level == 0 then Storing() else if level <= 3 then Between() else Deferring()
    {
      hide Storing, Between, Deferring;
    }

    twostate lemma StoringForgets()
      requires old(Storing()) && old(told) == old(src) && Emitting() && Dict(strstart)
      requires insH == old(insH) && strstart == old(strstart) && lookahead == old(lookahead) && unchanged(window)
      requires src == old(src) && base == old(base) && end == old(end) && told == old(told) && block == old(block)
      requires blockStart == old(blockStart) && restart.data <= |told|
      ensures Storing()
    {
      hide Emitting, Told, Dict, Layout;
      ToldAgain(base + blockStart);
    }

    twostate lemma BetweenForgets()
      requires old(Between()) && old(block) == [] && old(told) == old(src) && Emitting() && Dict(strstart)
      requires insH == old(insH) && strstart == old(strstart) && lookahead == old(lookahead) && unchanged(window)
      requires src == old(src) && base == old(base) && end == old(end) && told == old(told) && block == old(block)
      requires blockStart == old(blockStart) && maxChain == old(maxChain) && matchLength == old(matchLength)
      requires prevLength == old(prevLength) && restart.data <= |told|
      ensures Between()
    {
      hide Emitting, Told, Dict, Data, Layout, Keyed;
      ToldAgain(base + strstart);
    }

    twostate lemma DeferringForgets()
      requires old(Deferring()) && old(block) == [] && old(told) == old(src) && Emitting() && Dict(strstart)
      requires insH == old(insH) && strstart == old(strstart) && lookahead == old(lookahead) && unchanged(window)
      requires src == old(src) && base == old(base) && end == old(end) && told == old(told) && block == old(block)
      requires blockStart == old(blockStart) && maxChain == old(maxChain) && matchLength == old(matchLength)
      requires matchStart == old(matchStart) && matchAvailable == old(matchAvailable) && restart.data <= |told|
      ensures Deferring()
    {
      hide Emitting, Told, Dict, Layout, Keyed;
      ToldAgain(base + strstart - Held());
      hide True, Held;
      NoneHeld();
    }

    lemma NoneHeld()
      ensures Held() >= 1 <==> matchAvailable
    {
    }

    /** When all is told, no byte is held back, and nothing hangs on what was before. */
    twostate lemma ToldAgain(n: int)
      requires old(Told(n)) && old(block) == [] && old(told) == old(src) && n <= base + strstart
      requires src == old(src) && base == old(base) && told == old(told) && block == old(block)
      requires blockStart == old(blockStart) && restart.data <= |told|
      ensures Told(n) && n == |src|
    {
      hide AllFit;
      assert Grounded(told[restart.data..], []);
    }

    /** `flush_pending` between blocks. */
    method FlushSound()
      requires Sound()
      modifies this`availOut, this`delivered, this`dest, enc.w`pending, enc.w`pendingOut
      ensures Sound() && old(delivered) <= delivered <= |enc.w.out| && delivered + availOut == old(delivered + availOut)
      ensures availOut > 0 ==> enc.w.pending == 0
    {
      hide *;
      SoundParts();
      LayoutParts();
      if finished {
        FinishedParts();
        EndedParts();
        FlushPending();
        MakeEnded();
        MakeFinished();
      } else {
        RunningParts();
        EmittingParts();
        FlushPending();
        MakeEmitting();
        Carried();
      }
      MakeSoundOf();
    }

    lemma FinishedParts()
      requires Finished()
      ensures Ended() && told == src && lookahead == 0
    {
      hide Ended;
    }

    /** CLEAR_HASH: forget all strings. */
    method ClearHash()
      requires Layout() && Dict(strstart) && |told| <= base + strstart
      modifies head, `ins, `restart
      ensures Dict(strstart) && restart == Restart(|told|, |enc.log|, |enc.w.out|)
    {
      hide *;
      ghost var h := head[..];
      DictSizes(strstart);
      LayoutParts();
      for i := 0 to head.Length
        invariant ins == old(ins) && restart == old(restart)
        invariant forall k :: 0 <= k < i ==> head[k] == NIL
      {
        head[i] := NIL;
      }
      Cleared(z, window[..], h, head[..], prev[..], end, ins, strstart);
      ins, restart := {}, Restart(|told|, |enc.log|, |enc.w.out|);
      SinceNone(restart.data - base);
      MakeRecent(strstart);
      MakeDict(strstart);
    }

    /** What a full flush does: later blocks will not refer to anything before. */
    method Forget()
      requires Layout() && Running() && told == src && block == [] && enc.w.biValid == 0
      modifies head, `ins, `restart
      ensures Running() && restart == Restart(|told|, |enc.log|, |enc.w.out|)
    {
      hide *;
      LayoutParts();
      RunningParts();
      EmittingParts();
      DeliveringParts();
      enc.StreamingParts(told);
      SourceIs();
      enc.w.WidthNow();
      enc.FootprintIs();
      ClearHash();
      if !enc.spoiled {
        enc.OpenParts();
      }
      ResumeHere(enc.z, enc.log, told, |enc.w.out|, !enc.spoiled);
      ResumingParts();
      MakeEmitting();
      Forgotten();
    }

    lemma SourceIs()
      requires Running() && told == src
      ensures |told| <= base + strstart
    {
      hide Emitting, Dict, Keyed, Layout, Pending, AllFit, PutAll, Rooted;
    }

    /** What `deflate` adds when all input has been compressed and a flush was asked for. */
    method EndBlock(flush: Flush)
      requires Sound() && !finished && told == src && block == [] && Clear() && (level == 0 ==> enc.w.biValid == 0)
      modifies head, enc.footprint, this`availOut, this`delivered, this`dest, this`ins, this`restart
      ensures Sound() && old(enc.w.out) <= enc.w.out && old(delivered) <= delivered
              && delivered + availOut == old(delivered + availOut)
      ensures enc.short <= old(enc.short) + 2
      ensures restart == if flush == FullFlush then Restart(|told|, |enc.log|, |enc.w.out|) else old(restart)
      ensures delivered <= |enc.w.out| && (availOut > 0 ==> enc.w.pending == 0)
      ensures flush != PartialFlush ==> enc.w.biValid == 0
    {
      hide *;
      SoundParts();
      LayoutParts();
      RunningParts();
      EmittingParts();
      DeliveringParts();
      ClearIs();
      enc.TalliedParts([]);
      ghost var l, first, sound := enc.log, enc.w.Now(), !enc.spoiled;
      enc.w.NowIs();
      ResumingParts();
      if flush == PartialFlush {
        enc.Align(told);
        assert l + [Blocks.StaticBlock([])] + [] == l + [Blocks.StaticBlock([])];
        NearNone(l, Blocks.StaticBlock([]), Reach());
        NearNone(l + [Blocks.StaticBlock([])], Blocks.StaticBlock([]), Reach());
      } else {
        enc.Mark(told);
        NearNone(l, Blocks.StoredBlock([]), Reach());
      }
      enc.StreamingParts(told);
      ResumeEmpty(l, sound, |first.out|);
      enc.w.ValidKept();
      enc.w.NowIs();
      BitWriter.GrowsParts(first, enc.w.Now());
      assert dest == enc.w.out[..delivered];
      MakeDelivering();
      EmptyResumed(l, sound, |first.out|);
      MakeEmitting();
      Carried();
      if flush == FullFlush {
        Forget();
      }
      MakeSoundOf();
      FlushSound();
    }

    /** Empty blocks refer to nothing. */
    lemma ResumeEmpty(l: seq<Blocks.Block>, sound: bool, size: nat)
      requires Resumable(enc.z, l, told, size, sound, restart) && enc.Recorded()
      requires || enc.log == l + [Blocks.StoredBlock([])] || enc.log == l + [Blocks.StaticBlock([])]
               || enc.log == l + [Blocks.StaticBlock([])] + [Blocks.StaticBlock([])]
      ensures Resumable(enc.z, enc.log, told, size, sound, restart)
    {
      hide *;
      ResumableParts(enc.z, l, told, size, sound, restart);
      var b := enc.log[|l|];
      enc.RecordedAt(|l|);
      Encoder.EmptyAdds(told[restart.data..]);
      ResumeMore(enc.z, l, b, told, told, size, size, sound, sound, restart);
      if |enc.log| > |l| + 1 {
        enc.RecordedAt(|l| + 1);
        ResumeMore(enc.z, l + [b], b, told, told, size, size, sound, sound, restart);
      }
    }

    lemma EmptyResumed(l: seq<Blocks.Block>, sound: bool, size: nat)
      requires Resumable(enc.z, enc.log, told, size, sound, restart) && sound == !enc.spoiled && size <= |enc.w.out|
      ensures Resuming()
    {
      hide Blocks.ValidLog, Blocks.Output, Blocks.OpenBits, BitWriter.Width;
    }

    /** One run of the compression function of the level. */
    method Compress(flush: Flush) returns (state: BlockState)
      requires Sound() && !finished && Clear()
      modifies this`insH, this`strstart, this`lookahead, this`matchLength, this`matchStart, this`prevLength,
               this`prevMatch
      modifies this`matchAvailable, this`avail, this`block, this`blockStart, this`told, this`availOut, this`delivered,
               this`dest
      modifies this`src, this`base, this`end, this`ins, this`finished, window, head, prev, enc.footprint
      ensures Sound() && (finished <==> state == FinishStarted || state == FinishDone)
      ensures src + avail == old(src + avail) && Outcome(state, flush)
      ensures old(enc.w.out) <= enc.w.out && old(delivered) <= delivered
              && delivered + availOut == old(delivered + availOut)
      ensures enc.short <= old(enc.short) + 1
    {
      hide *;
      SoundParts();
      LayoutParts();
      if level == 0 {
        state := DeflateStored(flush);
      } else if level <= 3 {
        state := DeflateFast(flush);
      } else {
        state := DeflateSlow(flush);
      }
      OutcomeParts(state, flush);
      ClearIs();
      finished := state == FinishStarted || state == FinishDone;
      ClearIs();
      MakeOutcome(state, flush);
      MakeSound();
    }

    /** Compress, and end the block if a flush was asked for; false when the call is to return at once. */
    method Advance(flush: Flush) returns (done: bool)
      requires Sound() && !finished && Clear()
      modifies this`insH, this`strstart, this`lookahead, this`matchLength, this`matchStart, this`prevLength,
               this`prevMatch
      modifies this`matchAvailable, this`avail, this`block, this`blockStart, this`told, this`availOut, this`delivered,
               this`dest
      modifies this`src, this`base, this`end, this`ins, this`finished, this`lastFlush, this`restart, window, head, prev,
               enc.footprint
      ensures Sound() && src + avail == old(src + avail) && old(enc.w.out) <= enc.w.out
      ensures flush != FullFlush ==> restart == old(restart)
      ensures done && flush == FullFlush ==> restart == Restart(|told|, |enc.log|, |enc.w.out|)
      ensures old(delivered) <= delivered <= |enc.w.out| && delivered + availOut == old(delivered + availOut)
      ensures !done ==> availOut == 0 || flush == NoFlush
      ensures enc.short <= old(enc.short) + (if flush == Finish then 1 else 3)
      ensures done ==> availOut > 0 && enc.w.pending == 0 && avail == [] && told == src && lookahead == 0
      ensures done && flush == Finish ==> finished
      ensures done && (flush == SyncFlush || flush == FullFlush) ==> !finished && enc.w.biValid == 0
    {
      hide *;
      SoundBounds();
      var state := Compress(flush);
      OutcomeParts(state, flush);
      ClearIs();
      SoundBounds();
      if state == NeedMore || state == FinishStarted {
        if availOut == 0 {
          lastFlush := -1;
        }
        return false;
      }
      if state == BlockDone {
        EndBlock(flush);
        if availOut == 0 {
          lastFlush := -1;
          return false;
        }
      }
      return true;
    }

    /**
     `deflate`, for a raw stream: more input, room for some bytes of output.  Whatever the calls before, when
     it returns StreamEnd the bytes delivered are all the output; after a full flush, or a flush to a byte
     boundary, that leaves room, they are too. Unless the output of some block has reached its own tokens,
     that output is a stream of blocks that stand for all the input, complete or up to that boundary.
     */
    method Deflate(input: seq<Byte>, room: nat, flush: Flush) returns (ret: Code)
      requires Sound()
      modifies this, window, head, prev, enc.footprint
      ensures Sound() && src + avail == old(src + avail) + input && old(enc.w.out) <= enc.w.out && old(dest) <= dest
      ensures old(delivered) <= delivered <= old(delivered) + room && dest == enc.w.out[..delivered]
      ensures ret == StreamError <==> old(finished) && flush != Finish
      ensures ret == StreamError || ret == BufError ==>
              src == old(src) && enc.w.out == old(enc.w.out) && finished == old(finished)
      ensures ret == StreamEnd ==> finished && avail == [] && dest == enc.w.out
      ensures ret == StreamEnd && !enc.spoiled ==> enc.Closed() && Blocks.Output(enc.log) == src
      ensures ret == Ok && (flush == SyncFlush || flush == FullFlush) && availOut > 0 ==>
                avail == [] && dest == enc.w.out && enc.w.biValid == 0 && told == src
      ensures ret == Ok && (flush == SyncFlush || flush == FullFlush) && availOut > 0 && !enc.spoiled ==>
                enc.Open() && Blocks.Output(enc.log) == src
      ensures flush != FullFlush ==> restart == old(restart)
      ensures ret == Ok && flush == FullFlush && availOut > 0 ==> restart == Restart(|src|, |enc.log|, |dest|)
      ensures ret == Ok && flush == Finish ==> availOut == 0 && delivered == old(delivered) + room
      ensures ret == BufError && flush == Finish ==> room == 0 || old(finished)
      ensures enc.short <= old(enc.short) + (if flush == Finish then 1 else 3)
    {
      hide *;
      assert src + (avail + input) == src + avail + input;
      SoundBounds();
      ghost var dest0 := dest;
      avail := avail + input;
      if finished && flush != Finish {
        return StreamError;
      }
      availOut := room;
      if room == 0 {
        return BufError;
      }
      ret := Proceed(flush);
      SoundBounds();
      SoundEnds();
      assert dest0 <= dest;
    }

    /** The rest of `deflate`, when there is room. */
    method Proceed(flush: Flush) returns (ret: Code)
      requires Sound() && availOut > 0 && (finished ==> flush == Finish)
      modifies this, window, head, prev, enc.footprint
      ensures Sound() && src + avail == old(src + avail) && old(enc.w.out) <= enc.w.out && ret != StreamError
      ensures old(delivered) <= delivered <= |enc.w.out| && delivered + availOut == old(delivered + availOut)
      ensures enc.short <= old(enc.short) + (if flush == Finish then 1 else 3)
              && (ret == BufError ==> flush != Finish || old(finished))
      ensures flush != FullFlush ==> restart == old(restart)
      ensures ret == Ok && flush == FullFlush && availOut > 0 ==> restart == Restart(|told|, |enc.log|, |enc.w.out|)
      ensures ret == BufError ==> src == old(src) && enc.w.out == old(enc.w.out) && finished == old(finished)
      ensures ret == StreamEnd ==> finished && avail == [] && enc.w.pending == 0
      ensures ret == Ok && (flush == SyncFlush || flush == FullFlush) && availOut > 0 ==>
                avail == [] && enc.w.pending == 0 && enc.w.biValid == 0 && told == src && !finished
      ensures ret == Ok && flush == Finish ==> availOut == 0
    {
      hide *;
      SoundBounds();
      ClearIs();
      var oldFlush := lastFlush;
      lastFlush := Ord(flush);
      if enc.w.pending != 0 {
        FlushSound();
        if availOut == 0 {
          lastFlush := -1;
          return Ok;
        }
      } else if avail == [] && Ord(flush) <= oldFlush && flush != Finish {
        return BufError;
      }
      if finished && avail != [] {
        return BufError;
      }
      SoundEnds();
      SoundBounds();
      ClearIs();
      if avail != [] || lookahead != 0 || (flush != NoFlush && !finished) {
        var done := Advance(flush);
        if !done {
          return Ok;
        }
      }
      SoundEnds();
      if flush != Finish {
        return Ok;
      }
      return StreamEnd;
    }

    lemma SoundBounds()
      requires Sound()
      ensures this !in enc.footprint && enc.w in enc.footprint && delivered + enc.w.pending == |enc.w.out|
              && dest == enc.w.out[..delivered]
      ensures enc.w.Kept() && (Roomy(|told|) ==> !enc.spoiled)
    {
      hide *;
      SoundParts();
      LayoutParts();
      if finished {
        FinishedParts();
        EndedParts();
      } else {
        RunningParts();
        EmittingParts();
      }
      DeliveringParts();
    }

    /** The output is little more than nine bits for each byte told, and some for each short block. */
    lemma OutputBound()
      requires Sound()
      ensures 127 * 8 * |enc.w.out| <= 1153 * |told| + 5334 * enc.short
    {
      hide *;
      SoundParts();
      if finished {
        FinishedParts();
        EndedParts();
        enc.StreamedParts(told);
      } else {
        RunningParts();
        EmittingParts();
        enc.StreamingParts(told);
      }
      DeliveringParts();
      enc.CompactIs(told);
      enc.w.WidthNow();
    }

    /** The blocks stand for no more than was read. */
    lemma ToldShort()
      requires Sound()
      ensures |told| <= |src|
    {
      SoundParts();
      hide Dict, Data, Emitting, Delivering, Layout, Keyed, Pending, enc.Shape, enc.Streamed, Near;
      if finished {
        FinishedParts();
      } else if level == 0 {
        ToldBlock(base + blockStart);
      } else if level <= 3 {
        ToldBlock(base + strstart);
      } else {
        ToldBlock(base + strstart - Held());
      }
    }

    lemma SoundEnds()
      requires Sound()
      ensures finished ==> enc.w.biValid == 0 && told == src && lookahead == 0
      ensures Resumable(enc.z, enc.log, told, |enc.w.out|, !enc.spoiled, restart)
      ensures finished ==> restart.log < |enc.log|
      ensures finished && !enc.spoiled ==> enc.Closed() && Blocks.Output(enc.log) == src
      ensures !finished && !enc.spoiled ==> enc.Open() && Blocks.Output(enc.log) == told
      ensures enc.Recorded()
    {
      hide *;
      SoundParts();
      ResumingParts();
      if finished {
        FinishedParts();
        EndedParts();
        enc.StreamedParts(told);
      } else {
        RunningParts();
        EmittingParts();
        enc.StreamingParts(told);
      }
    }
  }

  lemma RepeatsMore(src: seq<Byte>, src': seq<Byte>, i: int, n: nat, dist: int)
    requires Repeats(src, i, n, dist) && src <= src'
    ensures Repeats(src', i, n, dist)
  {
  }

  lemma Moved(w: seq<Byte>, w': seq<Byte>, wsize: nat, p: nat)
    requires MovedDown(w, w', wsize) && wsize <= p < 2 * wsize
    ensures |w| == |w'| == 2 * wsize && w'[p - wsize] == w[p]
  {
    assert w'[p - wsize] == w[p - wsize + wsize];
  }

  lemma KeyIs(z: Sizes, w: seq<Byte>, p: nat)
    requires p + 2 < |w|
    ensures KeyAt(w, p, z.shift, z.bits) == Hash3(w[p], w[p + 1], w[p + 2], z.shift, z.bits)
  {
  }

  lemma NamesLater(z: Sizes, w: seq<Byte>, end: int, ins: set<int>, q: int, key: int, p: int)
    requires Names(z, w, end, ins, q, key)
    ensures Names(z, w, end, ins + {p}, q, key)
  {
  }

  lemma HoldsSlides(w: seq<Byte>, w': seq<Byte>, src: seq<Byte>, base: nat, end: nat, wsize: nat)
    requires Holds(w, src, base, end) && MovedDown(w, w', wsize) && wsize <= end
    ensures Holds(w', src, base + wsize, end - wsize)
  {
    assert w'[..end - wsize] == w[..end][wsize..];
    assert src[base + wsize..] == src[base..][wsize..];
  }
}
