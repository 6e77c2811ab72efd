/**
 Cutting the sender's queue at the boundary bits of its fragments gives back the messages
 that were added (`buffer.cpp`, the first and last bits of a message number).
 */
module MessageBounds {
  import opened SndBuffer

  /** The bit of a message's first fragment. */
  predicate First(msgNo: bv32) {
    msgNo & 0x80000000 != 0
  }

  /** The bit of a message's last fragment. */
  predicate Last(msgNo: bv32) {
    msgNo & 0x40000000 != 0
  }

  datatype Messages = Whole(messages: seq<seq<Byte>>) | Broken

  /** One message before the others. */
  function Then(data: seq<Byte>, others: Messages): Messages {
    match others
    case Broken => Broken
    case Whole(ms) => Whole([data] + ms)
  }

  /** Between two messages, or after the first bytes of one. */
  datatype Part = Between | Within(bytes: seq<Byte>)

  /**
   The messages from each first bit to the next last bit; broken where a message neither ends nor begins as it should.
   */
  function Rejoined(q: seq<Fragment>, part: Part): Messages
    decreases |q|
  {
    if q == [] then if part.Between? then Whole([]) else Broken
    else if First(q[0].msgNo) != part.Between? then Broken
    else
      var bytes := if part.Between? then q[0].data else part.bytes + q[0].data;
      if Last(q[0].msgNo) then Then(bytes, Rejoined(q[1..], Between)) else Rejoined(q[1..], Within(bytes))
  }

  lemma RejoinedOne(f: Fragment, q: seq<Fragment>, part: Part)
    ensures
      var bytes := if part.Between? then f.data else part.bytes + f.data;
      Rejoined([f] + q, part)
      == if First(f.msgNo) != part.Between? then Broken
         else if Last(f.msgNo) then Then(bytes, Rejoined(q, Between)) else Rejoined(q, Within(bytes))
  {
    hide First, Last, Then;
    assert ([f] + q)[1..] == q;
  }

  /** The bits are those given as long as the number itself stays below them. */
  lemma Boundaries(next: bv32, order: bool, first: bool, last: bool)
    ensures next < 0x40000000 ==> First(MsgNo(next, order, first, last)) == first
    ensures next < 0x40000000 ==> Last(MsgNo(next, order, first, last)) == last
    ensures first ==> First(MsgNo(next, order, first, last))
    ensures last ==> Last(MsgNo(next, order, first, last))
    ensures next >= 0x80000000 ==> First(MsgNo(next, order, first, last))
    ensures 0x40000000 <= next < 0x80000000 ==> Last(MsgNo(next, order, first, last))
    ensures 0x40000000 <= next < 0x80000000 ==> First(MsgNo(next, order, first, last)) == first
  {
  }

  lemma {:induction false} FlatSnoc(ps: seq<seq<Byte>>, p: seq<Byte>)
    ensures Flat(ps + [p]) == Flat(ps) + p
  {
    if ps == [] {
      assert [p][1..] == [] && [] + [p] == [p];
      assert p + [] == p && [] + p == p;
    } else {
      FlatSnoc(ps[1..], p);
      assert (ps + [p])[1..] == ps[1..] + [p];
    }
  }

  lemma MessageAt(data: seq<Byte>, mss: nat, next: bv32, order: bool, time: nat, ttl: int, i: nat)
    requires mss > 0 && i < |Pieces(data, mss)|
    ensures
      var ps := Pieces(data, mss);
      Message(data, mss, next, order, time, ttl)[i]
      == Fragment(ps[i], MsgNo(next, order, i == 0, i == |ps| - 1), time, ttl)
  {
    hide Pieces, MsgNo;
  }

  /** The fragments of a message after its first ones, and what follows it. */
  lemma {:induction false} RestBack(data: seq<Byte>, mss: nat, next: bv32, order: bool, time: nat, ttl: int, i: nat,
                                    rest: seq<Fragment>)
    requires mss > 0 && 0 < i < |Pieces(data, mss)| && next < 0x40000000
    ensures
      var fs := Message(data, mss, next, order, time, ttl);
      Rejoined(fs[i..] + rest, Within(Flat(Pieces(data, mss)[..i]))) == Then(data, Rejoined(rest, Between))
    decreases |Pieces(data, mss)| - i
  {
    var ps, fs := Pieces(data, mss), Message(data, mss, next, order, time, ttl);
    hide *;
    MessageAt(data, mss, next, order, time, ttl, i);
    Boundaries(next, order, i == 0, i == |ps| - 1);
    assert fs[i..] + rest == [fs[i]] + (fs[i + 1..] + rest);
    RejoinedOne(fs[i], fs[i + 1..] + rest, Within(Flat(ps[..i])));
    FlatSnoc(ps[..i], ps[i]);
    assert ps[..i] + [ps[i]] == ps[..i + 1];
    if i + 1 == |ps| {
      PiecesWhole(data, mss);
      assert ps[..i + 1] == ps;
      assert fs[i + 1..] + rest == rest;
    } else {
      RestBack(data, mss, next, order, time, ttl, i + 1, rest);
    }
  }

  /** A message comes back, whatever follows it. */
  lemma MessageBack(data: seq<Byte>, mss: nat, next: bv32, order: bool, time: nat, ttl: int, rest: seq<Fragment>)
    requires mss > 0 && data != [] && (|data| <= mss || next < 0x40000000)
    ensures
      Rejoined(Message(data, mss, next, order, time, ttl) + rest, Between) == Then(data, Rejoined(rest, Between))
  {
    var ps, fs := Pieces(data, mss), Message(data, mss, next, order, time, ttl);
    PiecesSize(data, mss);
    hide *;
    MessageAt(data, mss, next, order, time, ttl, 0);
    Boundaries(next, order, true, |ps| == 1);
    assert fs + rest == [fs[0]] + (fs[1..] + rest);
    RejoinedOne(fs[0], fs[1..] + rest, Between);
    FlatSnoc([], ps[0]);
    assert [] + [ps[0]] == [ps[0]] == ps[..1];
    FlatNone();
    if |ps| == 1 {
      PiecesWhole(data, mss);
      assert ps[..1] == ps;
      assert fs[1..] + rest == rest;
    } else {
      RestBack(data, mss, next, order, time, ttl, 1, rest);
    }
  }

  lemma FlatNone()
    ensures Flat([]) == []
    ensures forall s: seq<Byte> :: [] + s == s
  {
  }

  lemma PiecesSize(data: seq<Byte>, mss: nat)
    requires mss > 0 && data != []
    ensures |Pieces(data, mss)| == 1 <==> |data| <= mss
  {
  }

  /** One message is cut as it was added exactly if it is a single fragment or its number leaves the two bits free. */
  lemma OneMessageBack(data: seq<Byte>, mss: nat, next: bv32, order: bool, time: nat, ttl: int)
    requires mss > 0 && data != []
    ensures
      Rejoined(Message(data, mss, next, order, time, ttl), Between) == Whole([data])
      <==> |data| <= mss || next < 0x40000000
  {
    var ps, fs := Pieces(data, mss), Message(data, mss, next, order, time, ttl);
    PiecesSize(data, mss);
    if |data| <= mss || next < 0x40000000 {
      hide Message, Pieces;
      MessageBack(data, mss, next, order, time, ttl, []);
      assert fs + [] == fs && [data] + [] == [data];
    } else {
      hide *;
      MessageAt(data, mss, next, order, time, ttl, 0);
      MessageAt(data, mss, next, order, time, ttl, 1);
      Boundaries(next, order, true, false);
      Boundaries(next, order, false, |ps| == 2);
      var more := fs[2..];
      assert fs == [fs[0]] + ([fs[1]] + more);
      RejoinedOne(fs[0], [fs[1]] + more, Between);
      RejoinedOne(fs[1], more, Between);
      RejoinedOne(fs[1], more, Within(ps[0]));
      ThenBroken(ps[0]);
    }
  }

  lemma ThenBroken(data: seq<Byte>)
    ensures Then(data, Broken) == Broken
  {
  }

  // ----- messages added one after the other

  datatype Added = Added(data: seq<Byte>, order: bool, time: nat, ttl: int)

  /** What calls of `addBuffer` put into an empty queue. */
  function Queued(ms: seq<Added>, mss: nat, next: bv32): seq<Fragment>
    requires mss > 0
  {
    if ms == [] then []
    else
      Message(ms[0].data, mss, next, ms[0].order, ms[0].time, ms[0].ttl) + Queued(ms[1..], mss, Successor(next))
  }

  /** The numbers of the messages leave the boundary bits free. */
  predicate Numbered(n: nat, next: bv32) {
    n == 0 || (next < 0x40000000 && Numbered(n - 1, Successor(next)))
  }

  /** The messages that have bytes. */
  function Filled(ms: seq<Added>): seq<seq<Byte>> {
    if ms == [] then [] else (if ms[0].data == [] then [] else [ms[0].data]) + Filled(ms[1..])
  }

  /** Cut at its boundary bits the queue gives back the messages in the order in which they were added. */
  lemma {:induction false} MessagesBack(ms: seq<Added>, mss: nat, next: bv32)
    requires mss > 0 && Numbered(|ms|, next)
    ensures Rejoined(Queued(ms, mss, next), Between) == Whole(Filled(ms))
  {
    hide Message, Successor;
    if ms != [] {
      var m := ms[0];
      var rest := Queued(ms[1..], mss, Successor(next));
      MessagesBack(ms[1..], mss, Successor(next));
      if m.data == [] {
        NoFragments(mss, next, m.order, m.time, m.ttl);
        assert [] + rest == rest;
      } else {
        MessageBack(m.data, mss, next, m.order, m.time, m.ttl, rest);
      }
    }
  }

  lemma NoFragments(mss: nat, next: bv32, order: bool, time: nat, ttl: int)
    requires mss > 0
    ensures Message([], mss, next, order, time, ttl) == []
  {
  }
}
