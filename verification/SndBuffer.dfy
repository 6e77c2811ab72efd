/**
 The sender's buffer of UDT (`buffer.cpp`): a circular list of blocks into which new blocks
 are spliced when it runs full, and which stays a queue of fragments all the time.
 */
module SndBuffer {
  type Byte = x: int | 0 <= x < 0x100

  /** One packet's worth of a message. */
  datatype Fragment = Fragment(data: seq<Byte>, msgNo: bv32, time: nat, ttl: int)

  // ----- messages and their fragments

  function Pieces(data: seq<Byte>, mss: nat): (ps: seq<seq<Byte>>)
    requires mss > 0
    ensures |data| > 0 ==> |ps| > 0
    decreases |data|
  {
    if data == [] then []
    else if |data| <= mss then [data]
    else [data[..mss]] + Pieces(data[mss..], mss)
  }

  function Flat(ps: seq<seq<Byte>>): seq<Byte> {
    if ps == [] then [] else ps[0] + Flat(ps[1..])
  }

  /** The fragments together are the message; all but the last are full, and none is empty. */
  lemma {:induction false} PiecesWhole(data: seq<Byte>, mss: nat)
    requires mss > 0
    ensures Flat(Pieces(data, mss)) == data
    ensures forall i :: 0 <= i < |Pieces(data, mss)| ==> 0 < |Pieces(data, mss)[i]| <= mss
    ensures forall i :: 0 <= i < |Pieces(data, mss)| - 1 ==> |Pieces(data, mss)[i]| == mss
    decreases |data|
  {
    var ps := Pieces(data, mss);
    if data == [] {
    } else if |data| <= mss {
      assert ps[1..] == [];
      assert Flat(ps) == data + [];
    } else {
      PiecesWhole(data[mss..], mss);
      assert ps[1..] == Pieces(data[mss..], mss);
      assert data == data[..mss] + data[mss..];
    }
  }

  lemma DivStep(x: nat, m: nat)
    requires x >= m > 0
    ensures x / m == (x - m) / m + 1 && x % m == (x - m) % m
  {
    var q, r := (x - m) / m, (x - m) % m;
    assert x == (q + 1) * m + r;
    DivIs(x, m, q + 1, r);
  }

  lemma DivIs(x: nat, m: nat, q: nat, r: nat)
    requires m > 0 && x == q * m + r && r < m
    ensures x / m == q && x % m == r
  {
    var d := x / m - q;
    assert x == (x / m) * m + x % m;
    assert d * m == r - x % m;
    Multiple(d, m);
  }

  lemma Multiple(d: int, m: nat)
    ensures d >= 1 ==> d * m >= m
    ensures d <= -1 ==> d * m + m <= 0
  {
  }

  lemma {:induction false} PiecesCount(data: seq<Byte>, mss: nat)
    requires mss > 0
    ensures |Pieces(data, mss)| == |data| / mss + (if |data| % mss != 0 then 1 else 0)
    decreases |data|
  {
    if |data| < mss {
      DivIs(|data|, mss, 0, |data|);
    } else if |data| == mss {
      DivIs(|data|, mss, 1, 0);
    } else {
      DivStep(|data|, mss);
      PiecesCount(data[mss..], mss);
    }
  }

  lemma OneLess(i: int, m: int)
    ensures i * m == (i - 1) * m + m
  {
  }

  lemma PieceShift(data: seq<Byte>, mss: nat, i: nat, piece: seq<Byte>)
    requires 0 < mss < |data| && i > 0 && IsPiece(data[mss..], mss, i - 1, piece)
    ensures IsPiece(data, mss, i, piece)
  {
    hide *;
    OneLess(i, mss);
    PieceIs(data[mss..], mss, i - 1, piece);
    PieceFrom(data, mss, (i - 1) * mss, i * mss);
    MakePiece(data, mss, i, piece);
  }

  lemma PieceFrom(data: seq<Byte>, mss: nat, from: nat, to: nat)
    requires 0 < mss < |data| && to == from + mss && from < |data[mss..]|
    ensures to < |data|
    ensures
      data[mss..][from..if |data[mss..]| - from > mss then from + mss else |data[mss..]|]
      == data[to..if |data| - to > mss then to + mss else |data|]
  {
  }

  lemma PieceIs(data: seq<Byte>, mss: nat, i: nat, piece: seq<Byte>)
    requires IsPiece(data, mss, i, piece)
    ensures
      var at := i * mss;
      0 <= at < |data| && piece == data[at..if |data| - at > mss then at + mss else |data|]
  {
  }

  lemma MakePiece(data: seq<Byte>, mss: nat, i: nat, piece: seq<Byte>)
    requires
      var at := i * mss;
      0 <= at < |data| && piece == data[at..if |data| - at > mss then at + mss else |data|]
    ensures IsPiece(data, mss, i, piece)
  {
  }

  /** Where `addBuffer` cuts. */
  lemma {:induction false} PieceAt(data: seq<Byte>, mss: nat, i: nat)
    requires mss > 0 && i < |Pieces(data, mss)|
    ensures IsPiece(data, mss, i, Pieces(data, mss)[i])
    decreases i
  {
    if i > 0 {
      PieceAt(data[mss..], mss, i - 1);
      PieceShift(data, mss, i, Pieces(data, mss)[i]);
    } else {
      assert 0 * mss == 0;
    }
  }

  ghost predicate IsPiece(data: seq<Byte>, mss: nat, i: nat, piece: seq<Byte>) {
    && i * mss < |data|
    && piece == data[i * mss..if |data| - i * mss > mss then i * mss + mss else |data|]
  }

  /** The number of a message with its order and boundary bits. */
  function MsgNo(next: bv32, order: bool, first: bool, last: bool): bv32 {
    next | (if order then 0x20000000 else 0) | (if first then 0x80000000 else 0) | (if last then 0x40000000 else 0)
  }

  /** The fields can be told apart as long as the number has 29 bits; the counter itself has no bound. */
  lemma MsgNoFields(next: bv32, order: bool, first: bool, last: bool)
    ensures
      var m := MsgNo(next, order, first, last);
      (next < 0x20000000) <==>
      (&& m & 0x1fffffff == next
       && (m & 0x20000000 != 0 <==> order)
       && (m & 0x80000000 != 0 <==> first)
       && (m & 0x40000000 != 0 <==> last))
  {
  }

  function Successor(n: bv32): bv32 {
    n + 1
  }

  /** The number without the other fields. */
  function Number(msgNo: bv32): bv32 {
    msgNo & 0x1fffffff
  }

  /** How many fragments from this one on have the number of its message, one after the other. */
  function Together(q: seq<Fragment>, at: nat): (n: nat)
    requires at < |q|
    ensures 0 < n && at + n <= |q|
    decreases |q| - at
  {
    if at + 1 < |q| && Number(q[at + 1].msgNo) == Number(q[at].msgNo) then 1 + Together(q, at + 1) else 1
  }

  lemma {:induction false} TogetherIs(q: seq<Fragment>, at: nat)
    requires at < |q|
    ensures forall k :: at <= k < at + Together(q, at) ==> Number(q[k].msgNo) == Number(q[at].msgNo)
    ensures at + Together(q, at) < |q| ==> Number(q[at + Together(q, at)].msgNo) != Number(q[at].msgNo)
    decreases |q| - at
  {
    hide Number;
    if at + 1 < |q| && Number(q[at + 1].msgNo) == Number(q[at].msgNo) {
      TogetherIs(q, at + 1);
    }
  }

  lemma NotLonger(q: seq<Fragment>, at: nat, n: nat, no: bv32)
    requires at < |q| && n > 0 && no == Number(q[at].msgNo)
    requires at + n < |q| ==> Number(q[at + n].msgNo) != no
    ensures n >= Together(q, at)
  {
    hide *;
    TogetherIs(q, at);
  }

  /** The fragment has a time to live and is older; the times are words of 64 bits, in microseconds. */
  predicate Outlived(f: Fragment, now: nat) {
    f.ttl > 0 && (now - f.time) % 0x1_0000_0000_0000_0000 / 1000 > f.ttl
  }

  /** What a retransmission gives: a fragment, or how many are to be dropped, or nothing, the scan never ending. */
  datatype Reading = Again(data: seq<Byte>, msgNo: bv32) | Expired(msgNo: bv32, length: nat) | Endless

  function Message(data: seq<Byte>, mss: nat, next: bv32, order: bool, time: nat, ttl: int): (fs: seq<Fragment>)
    requires mss > 0
    ensures |fs| == |Pieces(data, mss)|
  {
    var ps := Pieces(data, mss);
    seq(|ps|, i requires 0 <= i < |ps| => Fragment(ps[i], MsgNo(next, order, i == 0, i == |ps| - 1), time, ttl))
  }

  // ----- the circular list

  class Block {
    var data: seq<Byte>
    var msgNo: bv32
    var originTime: nat
    var ttl: int
    var next: Block

    constructor ()
      ensures next == this
    {
      data, msgNo, originTime, ttl := [], 0, 0, 0;
      next := this;
    }

    ghost function Contents(): Fragment
      reads this
    {
      Fragment(data, msgNo, originTime, ttl)
    }
  }

  ghost predicate Distinct(ring: seq<Block>) {
    forall i, j :: 0 <= i < j < |ring| ==> ring[i] != ring[j]
  }

  /** Each block points to the one after it. */
  ghost predicate Linked(ring: seq<Block>)
    reads ring
  {
    forall i :: 0 <= i < |ring| - 1 ==> ring[i].next == ring[i + 1]
  }

  method MakeBlocks(n: nat) returns (head: Block, tail: Block, ghost blocks: seq<Block>)
    requires n > 0
    ensures |blocks| == n && Distinct(blocks) && Linked(blocks) && fresh(blocks)
    ensures head == blocks[0] && tail == blocks[n - 1]
  {
    head := new Block();
    tail := head;
    blocks := [head];
    for i := 1 to n
      invariant |blocks| == i && Distinct(blocks) && Linked(blocks) && fresh(blocks)
      invariant head == blocks[0] && tail == blocks[i - 1]
    {
      var block := new Block();
      ghost var before := blocks;
      tail.next := block;
      blocks := blocks + [block];
      assert forall j :: 0 <= j < i - 1 ==> before[j].next == before[j + 1];
      tail := block;
    }
  }

  ghost function ContentsOf(blocks: seq<Block>): (fs: seq<Fragment>)
    reads blocks
    ensures |fs| == |blocks| && forall i :: 0 <= i < |fs| ==> fs[i] == blocks[i].Contents()
  {
    seq(|blocks|, i requires 0 <= i < |blocks| reads blocks => blocks[i].Contents())
  }

  /** A list whose end points to its beginning. */
  ghost predicate Circular(ring: seq<Block>)
    reads ring
  {
    |ring| > 0 && Distinct(ring) && Linked(ring) && ring[|ring| - 1].next == ring[0]
  }

  /** The block that n links lead to. */
  ghost function Walk(b: Block, n: nat): Block
    reads *
  {
    if n == 0 then b else Walk(b, n - 1).next
  }

  lemma {:induction false} WalkRing(ring: seq<Block>, n: nat)
    requires Circular(ring) && n < |ring|
    ensures Walk(ring[0], n) == ring[n]
  {
    if n > 0 {
      WalkRing(ring, n - 1);
    }
  }

  lemma Turned(ring: seq<Block>, k: nat)
    requires Circular(ring) && k < |ring|
    ensures Circular(ring[k..] + ring[..k])
  {
    var turned := ring[k..] + ring[..k];
    var n := |ring|;
    forall i | 0 <= i < n
      ensures turned[i] == ring[if i + k < n then i + k else i + k - n]
    {
    }
    assert ring[n - 1].next == ring[0];
  }

  lemma TurnedAt(ring: seq<Block>, k: nat, count: nat)
    requires k <= count < |ring|
    ensures
      var turned := ring[k..] + ring[..k];
      && |turned| == |ring| && turned[..count - k] == ring[k..count]
      && (forall i :: 0 <= i <= count - k ==> turned[i] == ring[i + k])
      && (forall b :: b in turned <==> b in ring)
  {
    assert ring == ring[..k] + ring[k..];
  }

  lemma ContentsFrom(blocks: seq<Block>, k: nat)
    requires k <= |blocks|
    ensures ContentsOf(blocks[k..]) == ContentsOf(blocks)[k..]
  {
  }

  /** New blocks between two that were linked. */
  lemma Spliced(ring: seq<Block>, at: nat, blocks: seq<Block>, was: seq<Block>)
    requires |was| > at && |blocks| > 0 && Distinct(was) && Distinct(blocks)
    requires forall i, j :: 0 <= i < |was| && 0 <= j < |blocks| ==> was[i] != blocks[j]
    requires forall i :: 0 <= i < |was| - 1 && i != at ==> was[i].next == was[i + 1]
    requires was[at].next == blocks[0]
    requires at < |was| - 1 ==> was[|was| - 1].next == was[0]
    requires forall j :: 0 <= j < |blocks| - 1 ==> blocks[j].next == blocks[j + 1]
    requires blocks[|blocks| - 1].next == was[if at + 1 < |was| then at + 1 else 0]
    requires ring == was[..at + 1] + blocks + was[at + 1..]
    ensures Circular(ring)
  {
    var n := |blocks|;
    forall i | 0 <= i < |ring|
      ensures ring[i] == if i <= at then was[i] else if i <= at + n then blocks[i - at - 1] else was[i - n]
    {
    }
    forall i | 0 <= i < |ring| - 1
      ensures ring[i].next == ring[i + 1]
    {
    }
  }

  lemma ContentsGrow(ring: seq<Block>, count: nat, more: seq<Fragment>)
    requires count + |more| <= |ring|
    requires forall k :: 0 <= k < |more| ==> ring[count + k].Contents() == more[k]
    ensures ContentsOf(ring[..count + |more|]) == ContentsOf(ring[..count]) + more
  {
    forall i | count <= i < count + |more|
      ensures ring[i].Contents() == more[i - count]
    {
      var k := i - count;
      assert ring[count + k].Contents() == more[k];
    }
  }

  class SendBuffer {
    const mss: nat
    const unitSize: nat
    var firstBlock: Block
    var currBlock: Block
    var lastBlock: Block
    var size: nat
    var count: nat
    var nextMsgNo: bv32

    /** All blocks, from the first one on. */
    ghost var ring: seq<Block>
    /** How many fragments of the queue have been sent once. */
    ghost var sent: nat

    ghost predicate Valid()
      reads this, ring
    {
      && mss > 0 && unitSize > 0
      && |ring| == size && sent <= count < size
      && Circular(ring)
      && firstBlock == ring[0] && currBlock == ring[sent] && lastBlock == ring[count]
    }

    /** The fragments that are not acknowledged yet. */
    ghost function Queue(): seq<Fragment>
      reads this, ring
      requires Valid()
    {
      ContentsOf(ring[..count])
    }

    constructor (size: nat, mss: nat)
      requires size > 0 && mss > 0
      ensures Valid() && fresh(ring) && this.mss == mss && this.size == size
      ensures Queue() == [] && sent == 0 && nextMsgNo == 0
    {
      var head, tail;
      ghost var blocks;
      head, tail, blocks := MakeBlocks(size);
      this.size, this.mss, unitSize := size, mss, size;
      nextMsgNo, count := 0, 0;
      firstBlock, currBlock, lastBlock := head, head, head;
      ring, sent := blocks, 0;
      new;
      tail.next := head;
    }

    /** The distance from the first block to the last is the number of fragments. */
    lemma DistanceIsCount()
      requires Valid()
      ensures Walk(firstBlock, count) == lastBlock && count < size
      ensures forall n :: 0 <= n < count ==> Walk(firstBlock, n) != lastBlock
    {
      forall n | 0 <= n <= count
        ensures Walk(firstBlock, n) == ring[n]
      {
        WalkRing(ring, n);
      }
    }

    /** `increase`: as many blocks again as the buffer began with are spliced in after the last one. */
    method Increase()
      requires Valid()
      modifies this, lastBlock
      ensures Valid() && size == old(size) + unitSize
      ensures Queue() == old(Queue()) && sent == old(sent) && nextMsgNo == old(nextMsgNo)
      ensures count == old(count) && lastBlock == old(lastBlock)
      ensures forall b :: b in ring ==> b in old(ring) || fresh(b)
    {
      var nblk, pb;
      ghost var blocks;
      nblk, pb, blocks := MakeBlocks(unitSize);
      ghost var was := ring;
      pb.next := lastBlock.next;
      lastBlock.next := nblk;
      size := size + unitSize;
      ring := was[..count + 1] + blocks + was[count + 1..];
      Spliced(ring, count, blocks, was);
      assert ring[..count] == was[..count];
    }

    lemma QueueIs()
      requires Valid()
      ensures sent <= count < size == |ring| && Circular(ring) && currBlock == ring[sent] && lastBlock == ring[count]
      ensures Queue() == ContentsOf(ring[..count])
    {
      hide Circular, ContentsOf;
    }

    /** The queue without its first fragments. */
    ghost method Drop(was: seq<Block>, offset: nat)
      requires offset <= sent <= count && count < size == |was| && Circular(was) && mss > 0 && unitSize > 0
      requires firstBlock == was[offset] && currBlock == was[sent] && lastBlock == was[count]
      modifies `ring, `sent
      ensures ring == was[offset..] + was[..offset] && sent == old(sent) - offset
      ensures Circular(ring) && firstBlock == ring[0] && currBlock == ring[sent] && |ring| == size
      ensures lastBlock == ring[count - offset] && ring[..count - offset] == was[offset..count]
      ensures forall b :: b in ring <==> b in was
    {
      hide *;
      Turned(was, offset);
      TurnedAt(was, offset, count);
      ring, sent := was[offset..] + was[..offset], sent - offset;
    }

    method MoveFirst(offset: nat)
      requires Valid() && offset <= count
      modifies this`firstBlock
      ensures firstBlock == ring[offset]
    {
      for i := 0 to offset
        invariant firstBlock == ring[i]
      {
        firstBlock := firstBlock.next;
      }
    }

    /** `ackData`, for fragments that have been sent. */
    method AckData(offset: nat)
      requires Valid() && offset <= sent
      modifies `firstBlock, `count, `ring, `sent
      ensures Valid() && Queue() == old(Queue())[offset..]
      ensures sent == old(sent) - offset && count == old(count) - offset
      ensures forall b :: b in ring <==> b in old(ring)
    {
      hide Circular, ContentsOf;
      ghost var was := ring;
      QueueIs();
      assert was[..count][offset..] == was[offset..count];
      ContentsFrom(was[..count], offset);
      MoveFirst(offset);
      Drop(was, offset);
      count := count - offset;
    }

    /** `readData`: the next fragment that was not sent yet. */
    method ReadData() returns (data: seq<Byte>, msgNo: bv32, length: nat)
      requires Valid()
      modifies this
      ensures Valid() && Queue() == old(Queue()) && ring == old(ring) && nextMsgNo == old(nextMsgNo)
      ensures length == |data| && sent == if old(sent) < count then old(sent) + 1 else old(sent)
      ensures old(sent) == count ==> length == 0
      ensures old(sent) < count ==> data == Queue()[old(sent)].data && msgNo == Queue()[old(sent)].msgNo
    {
      if currBlock == lastBlock {
        return [], 0, 0;
      }
      data, msgNo, length := currBlock.data, currBlock.msgNo, |currBlock.data|;
      currBlock := currBlock.next;
      sent := sent + 1;
    }

    /** The block that i links lead to from the first one, the circle being gone round less than twice. */
    ghost function Around(i: nat): Block
      requires Valid() && i < 2 * size
      reads this, ring
    {
      if i < size then ring[i] else ring[i - size]
    }

    lemma AroundNext(i: nat)
      requires Valid() && i + 1 < 2 * size
      ensures Around(i).next == Around(i + 1)
    {
    }

    /** Back where it began, the scan has seen every block. */
    lemma AllAround(offset: nat, n: nat, no: bv32)
      requires Valid() && offset < size && 0 < n <= size && Around(offset + n) == ring[offset]
      requires forall k :: offset <= k < offset + n ==> Number(Around(k).msgNo) == no
      ensures n == size && forall b :: b in ring ==> Number(b.msgNo) == no
    {
      forall i | 0 <= i < size
        ensures Number(ring[i].msgNo) == no
      {
        assert Around(if i >= offset then i else i + size) == ring[i];
      }
    }

    lemma QueueAround()
      requires Valid()
      ensures |Queue()| == count < size && lastBlock == Around(count)
      ensures forall i :: 0 <= i < count ==> Queue()[i].msgNo == Around(i).msgNo
    {
      hide Circular;
    }

    /**
     The scan counts every queued fragment of the message that follows, and no other block if and only if a
     fragment of another message is queued after them or the block after the queue bears another number.
     */
    lemma ScanCounts(offset: nat, n: nat, no: bv32)
      requires Valid() && offset < count && 0 < n <= size && no == Number(Queue()[offset].msgNo)
      requires forall k :: offset <= k < offset + n ==> Number(Around(k).msgNo) == no
      requires Number(Around(offset + n).msgNo) != no
      ensures
        var m := Together(Queue(), offset);
        && n >= m && (n == m <==> offset + m < count || Number(lastBlock.msgNo) != no)
    {
      hide *;
      QueueAround();
      var m := Together(Queue(), offset);
      TogetherIs(Queue(), offset);
      NotLonger(Queue(), offset, n, no);
      if offset + m < count {
        assert Number(Queue()[offset + m].msgNo) == Number(Around(offset + m).msgNo);
      } else {
        assert Number(Around(offset + m).msgNo) == Number(lastBlock.msgNo);
      }
    }

    /**
     `readData` for a retransmission. For a fragment that has outlived its time it counts the blocks with the
     number of its message, from there on: the scan goes round the circle, and never ends if all blocks bear that
     number, in which case the method stops where it has come round.
     */
    method ReadAgain(offset: nat, now: nat) returns (r: Reading)
      requires Valid() && offset < count
      ensures !Outlived(Queue()[offset], now) ==> r == Again(Queue()[offset].data, Queue()[offset].msgNo)
      ensures Outlived(Queue()[offset], now) ==> r == Endless || r.Expired?
      ensures r == Endless
              <==> Outlived(Queue()[offset], now)
                   && forall b :: b in ring ==> Number(b.msgNo) == Number(Queue()[offset].msgNo)
      ensures r.Expired? ==>
                var m := Together(Queue(), offset);
                && r.msgNo == Number(Queue()[offset].msgNo) && r.length >= m
                && (r.length == m <==> offset + m < count || Number(lastBlock.msgNo) != r.msgNo)
    {
      hide Number, Outlived;
      var p := firstBlock;
      for i := 0 to offset
        invariant p == ring[i]
      {
        p := p.next;
      }
      assert p.Contents() == Queue()[offset];
      if Outlived(Fragment(p.data, p.msgNo, p.originTime, p.ttl), now) {
        r := Scan(p, offset);
      } else {
        r := Again(p.data, p.msgNo);
      }
    }

    method Scan(start: Block, ghost offset: nat) returns (r: Reading)
      requires Valid() && offset < count && start == ring[offset]
      ensures r == Endless || r.Expired?
      ensures r == Endless <==> forall b :: b in ring ==> Number(b.msgNo) == Number(start.msgNo)
      ensures r.Expired? ==>
                var m := Together(Queue(), offset);
                && r.msgNo == Number(start.msgNo) && r.length >= m
                && (r.length == m <==> offset + m < count || Number(lastBlock.msgNo) != r.msgNo)
    {
      hide Number, Circular, ContentsOf, Together;
      var msgNo, length, p := Number(start.msgNo), 1, start.next;
      AroundNext(offset);
      assert Around(offset) == start == ring[offset];
      while msgNo == Number(p.msgNo)
        invariant 0 < length <= size && p == Around(offset + length)
        invariant forall k :: offset <= k < offset + length ==> Number(Around(k).msgNo) == msgNo
        decreases size - length
      {
        if p == start {
          AllAround(offset, length, msgNo);
          return Endless;
        }
        RoundOnce(offset, length);
        AroundNext(offset + length);
        p := p.next;
        length := length + 1;
      }
      InRing(offset + length);
      QueueAt(offset);
      ScanCounts(offset, length, msgNo);
      r := Expired(msgNo, length);
    }

    lemma RoundOnce(offset: nat, n: nat)
      requires Valid() && offset < size && n <= size && Around(offset + n) != ring[offset]
      ensures n < size
    {
    }

    lemma InRing(i: nat)
      requires Valid() && i < 2 * size
      ensures Around(i) in ring
    {
    }

    lemma QueueAt(i: nat)
      requires Valid() && i < count
      ensures Queue()[i] == ring[i].Contents()
    {
    }

    /** One block takes one fragment. */
    method Fill(s: Block, ghost at: nat, f: Fragment)
      requires Valid() && count <= at < size && s == ring[at]
      modifies s
      ensures Valid() && Queue() == old(Queue()) && s.Contents() == f
      ensures forall i :: 0 <= i < size && i != at ==> ring[i].Contents() == old(ring[i].Contents())
    {
      s.data := f.data;
      s.msgNo := f.msgNo;
      s.originTime := f.time;
      s.ttl := f.ttl;
    }

    /** The list grows until there is room. */
    method MakeRoom(fragments: nat)
      requires Valid()
      modifies this, ring
      ensures Valid() && fragments + count < size && size >= old(size)
      ensures Queue() == old(Queue()) && sent == old(sent) && nextMsgNo == old(nextMsgNo)
      ensures count == old(count) && lastBlock == old(lastBlock)
      ensures forall b :: b in ring ==> b in old(ring) || fresh(b)
    {
      hide Circular;
      assert lastBlock in ring;
      while fragments + count >= size
        invariant Valid() && Queue() == old(Queue()) && count == old(count) && size >= old(size)
        invariant sent == old(sent) && nextMsgNo == old(nextMsgNo) && lastBlock == old(lastBlock)
        invariant forall b :: b in ring ==> b in old(ring) || fresh(b)
        decreases fragments + count - size
      {
        Increase();
      }
    }

    /** What goes into one block. */
    method Cut(data: seq<Byte>, fragments: nat, i: nat, ttl: int, order: bool, time: nat) returns (f: Fragment)
      requires mss > 0 && fragments == |Pieces(data, mss)| && i < fragments
      ensures f == Message(data, mss, nextMsgNo, order, time, ttl)[i]
    {
      hide MsgNo, Pieces;
      PieceAt(data, mss, i);
      var length := |data| - i * mss;
      if length > mss {
        length := mss;
      }
      f := Fragment(data[i * mss..i * mss + length], MsgNo(nextMsgNo, order, i == 0, i == fragments - 1), time, ttl);
    }

    /** One block takes one fragment, and the next block is at hand. */
    method FillNext(s: Block, ghost i: nat, f: Fragment, ghost message: seq<Fragment>) returns (t: Block)
      requires Valid() && count + i + 1 < size && s == ring[count + i] && i < |message| && f == message[i]
      requires forall k :: 0 <= k < i ==> ring[count + k].Contents() == message[k]
      modifies s
      ensures Valid() && Queue() == old(Queue()) && t == ring[count + i + 1]
      ensures forall k :: 0 <= k <= i ==> ring[count + k].Contents() == message[k]
    {
      hide Circular, ContentsOf;
      Fill(s, count + i, f);
      t := NextBlock(s, count + i);
    }

    /** The blocks after the last one take the fragments. */
    method FillAll(data: seq<Byte>, fragments: nat, ttl: int, order: bool, time: nat,
        ghost q: seq<Fragment>, ghost message: seq<Fragment>)
      returns (s: Block)
      requires Valid() && fragments == |Pieces(data, mss)| && fragments + count < size
      requires q == Queue() && message == Message(data, mss, nextMsgNo, order, time, ttl)
      modifies ring
      ensures Valid() && Queue() == old(Queue()) && |ring| == size && s == ring[count + fragments]
      ensures unchanged(this)
      ensures ContentsOf(ring[..count + fragments]) == q + message
    {
      hide Circular, Message, ContentsOf, Pieces, MsgNo;
      s := lastBlock;
      for i := 0 to fragments
        invariant Valid() && Queue() == old(Queue()) && s == ring[count + i]
        invariant forall k :: 0 <= k < i ==> ring[count + k].Contents() == message[k]
      {
        var f := Cut(data, fragments, i, ttl, order, time);
        s := FillNext(s, i, f, message);
      }
      ContentsGrow(ring, count, message);
    }

    /**
     `addBuffer`: the message is cut into fragments of at most `mss` bytes, each in a block of its
     own; the list grows until they fit.
     */
    method AddBuffer(data: seq<Byte>, ttl: int, order: bool, time: nat)
      requires Valid()
      modifies this, ring
      ensures Valid() && Queue() == old(Queue()) + Message(data, mss, old(nextMsgNo), order, time, ttl)
      ensures sent == old(sent) && nextMsgNo == Successor(old(nextMsgNo)) && size >= old(size)
      ensures forall b :: b in ring ==> b in old(ring) || fresh(b)
    {
      hide *;
      MssPositive();
      ghost var q, message := Queue(), Message(data, mss, nextMsgNo, order, time, ttl);
      var fragments := |data| / mss;
      if |data| % mss != 0 {
        fragments := fragments + 1;
      }
      PiecesCount(data, mss);
      MakeRoom(fragments);
      assert forall i :: 0 <= i < |ring| ==> ring[i] in ring;
      var s := FillAll(data, fragments, ttl, order, time, q, message);
      Append(s, fragments, q + message);
    }

    lemma MssPositive()
      requires Valid()
      ensures mss > 0
    {
      hide Circular;
    }

    method Append(s: Block, fragments: nat, ghost goal: seq<Fragment>)
      requires Valid() && count + fragments < |ring| == size && s == ring[count + fragments]
      requires ContentsOf(ring[..count + fragments]) == goal
      modifies `lastBlock, `count, `nextMsgNo
      ensures Valid() && Queue() == goal && nextMsgNo == Successor(old(nextMsgNo))
    {
      hide Circular, ContentsOf, Successor;
      lastBlock := s;
      count := count + fragments;
      nextMsgNo := Successor(nextMsgNo);
    }

    method NextBlock(s: Block, ghost at: nat) returns (t: Block)
      requires Valid() && at + 1 < size && s == ring[at]
      ensures t == ring[at + 1]
    {
      t := s.next;
    }
  }
}
