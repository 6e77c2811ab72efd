/**
 The law of the library: what `deflate` has compressed, `inflate` gives back, whatever
 the calls on either side.
 */
module EndToEnd {
  import opened DecodeTable
  import opened InflateSpec
  import opened Canonical
  import opened InflateRuns
  import opened Inflate
  import opened InflateTable
  import opened TableLookup
  import BitReservoir
  import Arith
  import Blocks
  import Costs
  import Deflate
  import opened Restarts

  /** The bytes are a complete stream for the data, with nothing after it. */
  ghost predicate IsStream(bytes: seq<Byte>, data: seq<Byte>) {
    Reaches(bytes, Machine(Config(Done, true, data), 8 * |bytes|))
  }

  /** The decoder's end on a complete stream, with whatever follows it. */
  lemma StreamEnds(bytes: seq<Byte>, more: seq<Byte>, data: seq<Byte>)
    requires IsStream(bytes, data)
    ensures var m := Machine(Config(Done, true, data), 8 * |bytes|);
            Reaches(bytes + more, m) && Next(bytes + more, m) == None
  {
    hide Reaches, Value;
    BitReservoir.ReachesMore(bytes, more, Machine(Config(Done, true, data), 8 * |bytes|));
  }

  /**
   The stream is sound: no block's output has reached its own tokens. It is so when nothing is compressed, when
   the static trees are asked for and the window is the smallest, when only literals are asked for and the memory
   level is at least four, and when the data are few.
   */
  ghost predicate Unspoiled(c: Deflate.Compressor)
    reads c, c.enc
  {
    !c.enc.spoiled || c.Roomy(|c.told|)
  }

  lemma UnspoiledIs(c: Deflate.Compressor)
    requires c.Sound() && Unspoiled(c)
    ensures !c.enc.spoiled
  {
    c.SoundBounds();
    hide c.Sound, c.Roomy;
  }

  /** What spoils a stream are just the blocks whose output reaches their own tokens. */
  lemma SpoiledBy(c: Deflate.Compressor)
    requires c.Sound()
    ensures |c.enc.left| == |c.enc.log| && forall i :: 0 <= i < |c.enc.log| ==> Blocks.ValidBlock(c.enc.z, c.enc.log[i])
    ensures c.enc.spoiled
       <==> exists i :: 0 <= i < |c.enc.log| && Costs.Overtakes(c.enc.z, c.enc.log[i], c.enc.left[i], c.enc.litBufsize)
  {
    c.SoundEnds();
    hide c.Sound, Blocks.ValidBlock, Costs.Overtakes;
  }

  /** A compressor that has finished has put out a complete stream for all it was given. */
  lemma CompressedStream(c: Deflate.Compressor)
    requires c.Sound() && c.finished && Unspoiled(c)
    ensures IsStream(c.enc.w.out, c.src)
  {
    hide *;
    UnspoiledIs(c);
    c.SoundEnds();
    c.SoundBounds();
    var m := c.enc.Decoded();
    MakeStream(c.enc.w.out, c.src, m);
  }

  lemma MakeStream(bytes: seq<Byte>, data: seq<Byte>, m: Machine)
    requires Reaches(bytes, m) && m.c == Config(Done, true, data) && m.pos == 8 * |bytes|
    ensures IsStream(bytes, data)
  {
    hide Reaches;
  }

  /** A decompressor that has come to the end of a complete stream has its data, and stands at the end. */
  lemma Decompressed(s: InflateState, stream: seq<Byte>, given: seq<Byte>, data: seq<Byte>)
    requires IsStream(stream, data) && stream <= given && s.Idle() && Ended(s, given)
    ensures s.mode == DONE && s.hist == data
  {
    hide *;
    var more := given[|stream|..];
    assert stream + more == given;
    StreamEnds(stream, more, data);
    EndedStuck(s, given);
    IdleReached(s);
    SameEnd(given, s.m, Machine(Config(Done, true, data), 8 * |stream|));
    DoneShows(s.mode, s.bits, s.r);
  }

  lemma DoneShows(mode: Mode, bits: int, r: Regs)
    requires Shows(mode, bits, r, Done)
    ensures mode == DONE
  {
    hide Good, NoLonger;
  }

  /**
   Round trip: whatever calls of `deflate`, on whatever pieces of the data, have finished a stream and delivered
   it, and whatever calls of `inflate`, on whatever pieces of the stream and of anything after it, have come to
   its end, the decompressor is done and has put out the data, unless the stream is spoiled.
   */
  lemma RoundTrip(c: Deflate.Compressor, s: InflateState, given: seq<Byte>)
    requires c.Sound() && c.finished && c.enc.w.pending == 0 && Unspoiled(c)
    requires c.dest <= given && s.Idle() && Ended(s, given)
    ensures s.mode == DONE && s.hist == c.src
  {
    hide *;
    c.SoundBounds();
    assert c.dest == c.enc.w.out;
    CompressedStream(c);
    Decompressed(s, c.dest, given, c.src);
  }

  /** A decompressor that has been given part of the stream, or too little room, has put out part of the data. */
  lemma PartOfData(c: Deflate.Compressor, s: InflateState)
    requires c.Sound() && c.finished && Unspoiled(c) && s.Idle() && s.base <= c.enc.w.out
    ensures s.hist <= c.src
  {
    hide *;
    CompressedStream(c);
    StreamEnds(c.enc.w.out, [], c.src);
    var given, m := c.enc.w.out, Machine(Config(Done, true, c.src), 8 * |c.enc.w.out|);
    assert given + [] == given;
    IdleReached(s);
    BitReservoir.ReachesMore(s.base, given[|s.base|..], s.m);
    assert s.base + given[|s.base|..] == given;
    BitReservoir.OutputPrefix(given, s.m, m);
  }

  /**
   After a flush to a byte boundary all data so far can be decompressed: a decompressor that has come to
   the end of the bytes delivered has put out all the input, and waits for the next block.
   */
  lemma FlushedData(c: Deflate.Compressor, s: InflateState)
    requires c.Sound() && !c.finished && c.enc.w.pending == 0 && c.enc.w.biValid == 0 && c.told == c.src && Unspoiled(c)
    requires s.Idle() && Ended(s, c.dest)
    ensures s.hist == c.src && Observed(s.mode) == TYPE
  {
    hide *;
    UnspoiledIs(c);
    c.SoundEnds();
    c.SoundBounds();
    assert c.dest == c.enc.w.out;
    var m := c.enc.DecodedSoFar();
    NoMoreBits(c.enc.w.out, m);
    EndedStuck(s, c.enc.w.out);
    IdleReached(s);
    SameEnd(c.enc.w.out, s.m, m);
    TypeShows(s.mode, s.bits, s.r);
  }

  /**
   After a full flush decompression can start again from there: a new decompressor that is given only the bytes
   after the last one, of a stream that was finished, puts out just the data after it.
   */
  lemma RestartedData(c: Deflate.Compressor, s: InflateState, given: seq<Byte>)
    requires c.Sound() && c.finished && c.enc.w.pending == 0 && Unspoiled(c)
    requires c.restart.byte <= |c.dest| && c.dest[c.restart.byte..] <= given && s.Idle() && Ended(s, given)
    ensures c.restart.data <= |c.src| && s.mode == DONE && s.hist == c.src[c.restart.data..]
  {
    hide *;
    UnspoiledIs(c);
    c.SoundEnds();
    c.SoundBounds();
    var e, r := c.enc, c.restart;
    ResumableParts(e.z, e.log, c.told, |e.w.out|, true, r);
    assert c.dest == e.w.out;
    e.ClosedParts();
    e.SentOut();
    var m := ReadLater(e.w.out, e.z, e.log, r.log, r.byte);
    MakeStream(c.dest[r.byte..], c.src[r.data..], m);
    Decompressed(s, c.dest[r.byte..], given, c.src[r.data..]);
  }

  /** So it can before the stream is finished, after any flush to a byte boundary. */
  lemma RestartedFlush(c: Deflate.Compressor, s: InflateState, rest: seq<Byte>)
    requires c.Sound() && !c.finished && c.enc.w.pending == 0 && c.enc.w.biValid == 0 && c.told == c.src && Unspoiled(c)
    requires c.restart.byte <= |c.dest| && rest == c.dest[c.restart.byte..] && s.Idle() && Ended(s, rest)
    ensures c.restart.data <= |c.src| && s.hist == c.src[c.restart.data..] && Observed(s.mode) == TYPE
  {
    hide *;
    UnspoiledIs(c);
    c.SoundEnds();
    c.SoundBounds();
    var e, r := c.enc, c.restart;
    ResumableParts(e.z, e.log, c.told, |e.w.out|, true, r);
    assert c.dest == e.w.out;
    e.OpenParts();
    e.SentOut();
    var m := ReadLaterSoFar(e.w.out, e.z, e.log, r.log, r.byte);
    NoMoreBits(rest, m);
    EndedStuck(s, rest);
    IdleReached(s);
    SameEnd(rest, s.m, m);
    TypeShows(s.mode, s.bits, s.r);
  }

  /** The decoder waits for the type of a block. */
  lemma NoMoreBits(inp: seq<Byte>, m: Machine)
    requires m.c.st == Type && !m.c.last && m.pos == 8 * |inp|
    ensures Next(inp, m) == None
  {
    hide Value, Low, Shr;
  }

  lemma TypeShows(mode: Mode, bits: int, r: Regs)
    requires Shows(mode, bits, r, Type)
    ensures Observed(mode) == TYPE
  {
    hide Good, NoLonger;
  }

  // ----- compress and uncompress

  /** The conservative bound of `deflateBound`. */
  function DeflateBound(n: nat): (r: nat) {
    n + (n + 7) / 8 + (n + 63) / 64 + 11
  }

  lemma BoundGrows(m: nat, n: nat)
    requires m <= n
    ensures DeflateBound(m) <= DeflateBound(n)
  {
  }

  /**
   Whatever the level, sizes and strategy, the output for n bytes whose blocks were flushed only when full or at
   the end stays within the bound, and leaves the six bytes that a zlib header and trailer take.
   */
  lemma WithinBound(c: Deflate.Compressor)
    requires c.Sound() && c.enc.short <= 1
    ensures |c.enc.w.out| + 6 <= DeflateBound(|c.src|)
  {
    hide *;
    c.OutputBound();
    c.ToldShort();
    BoundIs(|c.enc.w.out|, |c.told|);
    BoundGrows(|c.told|, |c.src|);
  }

  lemma BoundIs(size: nat, n: nat)
    requires 127 * 8 * size <= 1153 * n + 5334
    ensures size + 6 <= DeflateBound(n)
  {
  }

  datatype Answer = Fine(bytes: seq<Byte>) | BufError | DataError | StreamError

  /**
   `compress2`, as a raw stream: the whole of the source in one call. What it returns is a stream for the source
   unless the output of a block has reached its own tokens, which it cannot if nothing is compressed or the
   source is short. There is always room when the destination is as large as the bound.
   */
  method Compress2(source: seq<Byte>, destLen: nat, level: int) returns (r: Answer, ghost spoiled: bool)
    ensures r.Fine? ==> |r.bytes| <= destLen && (!spoiled ==> IsStream(r.bytes, source))
    ensures level == 0 || |source| <= 14561 ==> !spoiled
    ensures r == StreamError <==> !(-1 <= level <= 9)
    ensures r == BufError && !spoiled ==> destLen < DeflateBound(|source|)
  {
    hide *;
    spoiled := false;
    if level < -1 || level > 9 {
      return StreamError, false;
    }
    var c := new Deflate.Compressor(if level == -1 then 6 else level, 15, 8, Deflate.Default);
    var code := c.Deflate(source, destLen, Deflate.Finish);
    assert [] + source == source;
    assert c.src + c.avail == source;
    spoiled := c.enc.spoiled;
    c.SoundBounds();
    c.SoundEnds();
    ToldSource(c, source);
    if code != Deflate.StreamEnd {
      WithinBound(c);
      BoundGrows(|c.src|, |source|);
      return BufError, spoiled;
    }
    assert c.src + [] == c.src;
    if !spoiled {
      NotSpoiled(c);
      CompressedStream(c);
    }
    return Fine(c.dest), spoiled;
  }

  lemma NotSpoiled(c: Deflate.Compressor)
    requires !c.enc.spoiled
    ensures Unspoiled(c)
  {
  }

  /** The data told are no more than the source. */
  lemma ToldSource(c: Deflate.Compressor, source: seq<Byte>)
    requires c.Sound() && c.src + c.avail == source && c.litBufsize == Arith.Pow2(14)
    requires c.Roomy(|c.told|) ==> !c.enc.spoiled
    ensures c.level == 0 || |source| <= 14561 ==> !c.enc.spoiled
  {
    c.ToldShort();
    assert Arith.Pow2(4) == 16 && Arith.Pow2(8) == 256 && Arith.Pow2(12) == 4096;
    hide c.Sound, Arith.Pow2;
  }

  /** The data that the bytes begin with a stream for, if any. */
  ghost predicate Decodes(bytes: seq<Byte>, data: seq<Byte>) {
    exists m: Machine :: Reaches(bytes, m) && m.c.st == Done && m.c.out == data
  }

  lemma StreamDecodes(stream: seq<Byte>, more: seq<Byte>, data: seq<Byte>)
    requires IsStream(stream, data)
    ensures Decodes(stream + more, data)
  {
    StreamEnds(stream, more, data);
    hide Reaches, Next;
  }

  /** When output is full the decoder wants input or has one more byte to put out. */
  lemma NextByte(s: InflateState, data: seq<Byte>)
    requires s.Idle() && s.base <= data && s.Full() && Next(data, s.m) != None
    ensures |Next(data, s.m).value.c.out| == |s.m.c.out| + 1
  {
    hide *;
    IdleReached(s);
    BitReservoir.ReachedSane(s.base, s.m);
    FullKinds(s);
    OneMore(data, s.mode, s.bits, s.r, s.m);
  }

  lemma FullKinds(s: InflateState)
    requires s.Full()
    ensures s.mode == MATCH || s.mode == LIT || (s.mode == COPY && s.r.length > 0)
  {
  }

  lemma OneMore(data: seq<Byte>, mode: Mode, bits: int, r: Regs, m: Machine)
    requires Shows(mode, bits, r, m.c.st) && Sane(m.c) && Next(data, m) != None
    requires mode == MATCH || mode == LIT || (mode == COPY && r.length > 0)
    ensures |Next(data, m).value.c.out| == |m.c.out| + 1
  {
    hide *;
    NextIs(data, m);
    var x, n := Canonical.Shr(Value(data), m.pos), 8 * |data| - m.pos;
    if mode == MATCH {
      MatchShown(mode, bits, r, m.c);
      AtMatch(x, n, m.c);
    } else if mode == LIT {
      LitShown(mode, bits, r, m.c);
      AtLit(x, n, m.c);
    } else {
      CopyShown(mode, bits, r, m.c);
      AtCopy(x, n, m.c, r.length);
    }
  }

  lemma NextIs(data: seq<Byte>, m: Machine)
    requires Next(data, m) != None
    ensures m.pos <= 8 * |data|
    ensures var x, n := Canonical.Shr(Value(data), m.pos), 8 * |data| - m.pos;
            x >= 0 && StepAt(x, n, m.c).Move? && Next(data, m).value.c == StepAt(x, n, m.c).next
  {
    hide Value, StepAt, Canonical.Shr;
  }

  /** How one call of `inflate` on the whole of the input ends, when the room suffices. */
  lemma Uncompressed(s: InflateState, source: seq<Byte>, data: seq<Byte>)
    requires s.Idle() && s.base <= source && Decodes(source, data)
    requires Ended(s, source) || (|s.hist| >= |data| && s.Full())
    ensures s.mode == DONE && s.hist == data
  {
    hide *;
    var m := DecodedBy(source, data);
    IdleReached(s);
    BitReservoir.ReachesMore(s.base, source[|s.base|..], s.m);
    assert s.base + source[|s.base|..] == source;
    if Ended(s, source) {
      EndedStuck(s, source);
    } else if Next(source, s.m) != None {
      NextByte(s, source);
      var m' := Next(source, s.m).value;
      NextReached(source, s.m, m');
      BitReservoir.OutputPrefix(source, m', m);
    }
    SameEnd(source, s.m, m);
    DoneShows(s.mode, s.bits, s.r);
  }

  lemma DecodedBy(bytes: seq<Byte>, data: seq<Byte>) returns (m: Machine)
    requires Decodes(bytes, data)
    ensures Reaches(bytes, m) && Next(bytes, m) == None && m.c.st == Done && m.c.out == data
  {
    hide Reaches;
    m :| Reaches(bytes, m) && m.c.st == Done && m.c.out == data;
    hide Value;
  }

  lemma MakeDecodes(bytes: seq<Byte>, m: Machine)
    requires Reaches(bytes, m) && m.c.st == Done
    ensures Decodes(bytes, m.c.out)
  {
    hide Reaches;
  }

  /** `uncompress`, for a raw stream: it succeeds exactly when the source begins with a stream for data that fit. */
  method Uncompress(source: seq<Byte>, destLen: nat) returns (r: Answer)
    ensures forall data :: r == Fine(data) <==> Decodes(source, data) && |data| <= destLen
  {
    hide *;
    var s := new InflateState();
    var err, used, out := s.Inflate(source, destLen, true);
    assert [] + out == out && [] + source[..used] == source[..used];
    if used == |source| {
      assert source[..used] == source;
    }
    MakeEnded(s, source);
    forall data | Decodes(source, data) && |data| <= destLen ensures err == 1 && out == data {
      Uncompressed(s, source, data);
    }
    if err != 1 {
      return if err == -5 && used == |source| then DataError else if err == -5 then BufError else DataError;
    }
    DoneDecodes(s, source);
    return Fine(out);
  }

  lemma MakeEnded(s: InflateState, source: seq<Byte>)
    requires s.base <= source
    ensures s.mode == DONE || s.mode == BAD || (s.base == source && Next(source, s.m) == None) ==> Ended(s, source)
  {
    hide Next;
  }

  lemma DoneDecodes(s: InflateState, source: seq<Byte>)
    requires s.Idle() && s.mode == DONE && s.base <= source
    ensures Decodes(source, s.hist)
  {
    hide *;
    IdleReached(s);
    BitReservoir.ReachesMore(s.base, source[|s.base|..], s.m);
    assert s.base + source[|s.base|..] == source;
    ShowsDone(s.mode, s.bits, s.r, s.m.c.st);
    MakeDecodes(source, s.m);
  }

  lemma ShowsDone(mode: Mode, bits: int, r: Regs, st: State)
    requires Shows(mode, bits, r, st) && mode == DONE
    ensures st == Done
  {
    hide Good, NoLonger;
  }
}
