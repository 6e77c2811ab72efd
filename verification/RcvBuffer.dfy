/**
 The receiver's buffer of UDT (`buffer.cpp`): a ring of units that arrive in any order and are
 read as one stream of bytes.
 */
module RcvBuffer {
  import SndBuffer

  type Byte = SndBuffer.Byte

  class Unit {
    var payload: seq<Byte>
    /** 0: free, 1: occupied */
    var flag: int

    constructor (payload: seq<Byte>)
      ensures this.payload == payload && flag == 0
    {
      this.payload, flag := payload, 0;
    }
  }

  /** The queue that all units come from, and the number of them in use. */
  class UnitQueue {
    var count: int

    constructor ()
      ensures count == 0
    {
      count := 0;
    }
  }

  // ----- places in the ring

  function Wrap(size: nat, start: nat, i: nat): nat {
    if start + i < size then start + i else start + i - size
  }

  lemma WrapMod(size: nat, x: nat)
    requires 0 < size && x < 2 * size
    ensures x % size == if x < size then x else x - size
  {
  }

  /** The number of occupied slots. */
  function Occupied(slots: seq<Unit?>): nat {
    if slots == [] then 0 else (if slots[0] == null then 0 else 1) + Occupied(slots[1..])
  }

  lemma {:induction false} OccupiedPut(slots: seq<Unit?>, i: nat, u: Unit?)
    requires i < |slots|
    ensures Occupied(slots[i := u])
         == Occupied(slots) - (if slots[i] == null then 0 else 1) + (if u == null then 0 else 1)
  {
    if i == 0 {
      assert slots[0 := u][1..] == slots[1..];
    } else {
      assert slots[i := u][1..] == slots[1..][i - 1 := u];
      OccupiedPut(slots[1..], i - 1, u);
    }
  }

  lemma {:induction false} OccupiedNone(slots: seq<Unit?>)
    requires forall i :: 0 <= i < |slots| ==> slots[i] == null
    ensures Occupied(slots) == 0
  {
    if slots != [] {
      OccupiedNone(slots[1..]);
    }
  }

  /** The slots from one on, once around. */
  ghost function Turned(slots: seq<Unit?>, start: nat): (view: seq<Unit?>)
    requires start < |slots|
    ensures |view| == |slots|
    ensures forall i :: 0 <= i < |slots| ==> view[i] == slots[Wrap(|slots|, start, i)]
  {
    seq(|slots|, i requires 0 <= i < |slots| => slots[Wrap(|slots|, start, i)])
  }

  lemma TurnedPut(slots: seq<Unit?>, start: nat, i: nat, u: Unit?)
    requires start < |slots| && i < |slots|
    ensures Turned(slots[Wrap(|slots|, start, i) := u], start) == Turned(slots, start)[i := u]
  {
  }

  function NextPlace(size: nat, p: nat): nat {
    if p + 1 == size then 0 else p + 1
  }

  lemma TurnedOn(slots: seq<Unit?>, start: nat)
    requires start < |slots|
    ensures Turned(slots, NextPlace(|slots|, start)) == Turned(slots, start)[1..] + [slots[start]]
  {
    var n, q := |slots|, NextPlace(|slots|, start);
    forall i | 0 <= i < n
      ensures Wrap(n, q, i) == if i + 1 < n then Wrap(n, start, i + 1) else start
    {
    }
    assert Wrap(n, start, 0) == start;
  }

  lemma FrontAt(slots: seq<Unit?>, start: nat)
    requires start < |slots|
    ensures Turned(slots, start)[0] == slots[start] && Wrap(|slots|, start, 0) == start
  {
  }

  // ----- the bytes in a row of units

  ghost function Bytes(us: seq<Unit?>): seq<Byte>
    reads (set u | u in us && u != null)`payload
  {
    if us == [] then [] else (if us[0] == null then [] else us[0].payload) + Bytes(us[1..])
  }

  lemma {:induction false} BytesAdd(us: seq<Unit?>, vs: seq<Unit?>)
    ensures Bytes(us + vs) == Bytes(us) + Bytes(vs)
  {
    if us == [] {
      assert us + vs == vs;
    } else {
      assert (us + vs)[1..] == us[1..] + vs;
      BytesAdd(us[1..], vs);
    }
  }

  /** `getRcvDataSize`: how far a place is before another, around the ring. */
  function Distance(size: nat, from: nat, to: nat): nat
    requires from < size
  {
    if to >= from then to - from else size + to - from
  }

  class ReceiveBuffer {
    const units: array<Unit?>
    const queue: UnitQueue
    var startPos: nat
    var lastAckPos: nat
    var maxPos: int
    var notch: nat

    /** All bytes acknowledged so far, and all bytes read so far. */
    ghost var acked: seq<Byte>
    ghost var taken: seq<Byte>

    ghost function View(start: nat): (view: seq<Unit?>)
      requires start < units.Length
      reads units
      ensures |view| == units.Length
    {
      Turned(units[..], start)
    }

    /** The slots hold different units, all marked, without a gap before the last acknowledged place. */
    ghost predicate Ring(start: nat)
      reads `lastAckPos, units, (set u | u in units[..] && u != null)`flag
    {
      && start < units.Length && lastAckPos < units.Length
      && (forall i, j :: 0 <= i < j < units.Length && units[i] != null ==> units[i] != units[j])
      && (forall i :: 0 <= i < units.Length && units[i] != null ==> units[i].flag == 1)
      && (forall i :: 0 <= i < Distance(units.Length, start, lastAckPos) ==> View(start)[i] != null)
    }

    /** The units to be read next. */
    ghost function Pending(start: nat): seq<Unit?>
      requires start < units.Length && lastAckPos < units.Length
      reads `lastAckPos, units
    {
      View(start)[..Distance(units.Length, start, lastAckPos)]
    }

    /** What has been read and what is still to be read is what has been acknowledged. */
    ghost predicate Stream(start: nat)
      reads `lastAckPos, `notch, `acked, `taken, units, (set u | u in units[..] && u != null)`payload
    {
      && start < units.Length && lastAckPos < units.Length
      && (notch > 0 ==> Pending(start) != [] && Pending(start)[0] != null && notch < |Pending(start)[0].payload|)
      && notch <= |Bytes(Pending(start))|
      && acked == taken + Bytes(Pending(start))[notch..]
    }

    ghost predicate Valid()
      reads `startPos, `lastAckPos, `notch, `acked, `taken, units, (set u | u in units[..] && u != null)
    {
      Ring(startPos) && Stream(startPos)
    }

    constructor (size: nat, queue: UnitQueue)
      requires size > 0
      ensures Valid() && fresh(units) && units.Length == size && this.queue == queue
      ensures acked == [] && taken == [] && maxPos == -1 && Occupied(units[..]) == 0
    {
      units := new Unit?[size](i => null);
      this.queue := queue;
      startPos, lastAckPos, maxPos, notch := 0, 0, -1, 0;
      acked, taken := [], [];
      new;
      OccupiedNone(units[..]);
    }

    function RcvDataSize(): (n: nat)
      requires startPos < units.Length && lastAckPos < units.Length
      reads `startPos, `lastAckPos
      ensures n < units.Length
    {
      Distance(units.Length, startPos, lastAckPos)
    }

    /** One slot stays empty. */
    function AvailBufSize(): (n: nat)
      requires startPos < units.Length && lastAckPos < units.Length
      reads `startPos, `lastAckPos
    {
      units.Length - RcvDataSize() - 1
    }

    /** A unit takes a free place that is not to be read yet. */
    method Store(unit: Unit, pos: nat, ghost i: nat)
      requires Ring(startPos) && unit.flag == 0 && RcvDataSize() <= i < units.Length
      requires pos == Wrap(units.Length, startPos, i) && units[pos] == null
      modifies units, unit`flag
      ensures Ring(startPos) && View(startPos) == old(View(startPos))[i := unit] && unit.flag == 1
      ensures units[..] == old(units[..])[pos := unit] && Pending(startPos) == old(Pending(startPos))
      ensures Stream(startPos) == old(Stream(startPos))
    {
      TurnedPut(units[..], startPos, i, unit);
      hide Turned;
      ghost var was, view := units[..], View(startPos);
      assert forall j :: 0 <= j < units.Length ==> was[j] != unit;
      units[pos] := unit;
      assert units[..] == was[pos := unit];
      unit.flag := 1;
      assert View(startPos) == view[i := unit];
    }

    /** `addData`: a unit that arrives goes to its place, unless one is there already. */
    method AddData(unit: Unit, offset: nat) returns (r: int)
      requires Valid() && unit.flag == 0 && offset < AvailBufSize()
      modifies this`maxPos, units, unit`flag, queue
      ensures Valid()
      ensures maxPos == if offset > old(maxPos) then offset else old(maxPos)
      ensures r == if old(View(startPos)[RcvDataSize() + offset]) == null then 0 else -1
      ensures View(startPos)
           == if r == 0 then old(View(startPos))[RcvDataSize() + offset := unit] else old(View(startPos))
      ensures unit.flag == if r == 0 then 1 else 0
      ensures queue.count - Occupied(units[..]) == old(queue.count - Occupied(units[..]))
    {
      hide *;
      ValidIs();
      ghost var i := RcvDataSize() + offset;
      var pos := PlaceOf(offset);
      if offset > maxPos {
        maxPos := offset;
      }
      if units[pos] != null {
        r := -1;
        return;
      }
      OccupiedPut(units[..], pos, unit);
      Store(unit, pos, i);
      queue.count := queue.count + 1;
      r := 0;
      IsValid();
    }

    lemma ValidIs()
      requires Valid()
      ensures startPos < units.Length && lastAckPos < units.Length && Ring(startPos) && Stream(startPos)
    {
      hide Turned, Bytes;
    }

    lemma IsValid()
      requires Ring(startPos) && Stream(startPos)
      ensures Valid()
    {
      hide Ring, Stream;
    }

    method PlaceOf(offset: nat) returns (pos: nat)
      requires startPos < units.Length && lastAckPos < units.Length && offset < AvailBufSize()
      ensures RcvDataSize() + offset < units.Length
      ensures pos == Wrap(units.Length, startPos, RcvDataSize() + offset) < units.Length
      ensures View(startPos)[RcvDataSize() + offset] == units[pos]
    {
      WrapMod(units.Length, lastAckPos + offset);
      pos := (lastAckPos + offset) % units.Length;
    }

    /** The units that the next n acknowledged places hold. */
    ghost function Next(n: nat): seq<Unit?>
      requires startPos < units.Length && lastAckPos < units.Length && n <= AvailBufSize()
      reads `startPos, `lastAckPos, units
    {
      View(startPos)[RcvDataSize()..RcvDataSize() + n]
    }

    method MoveAck(len: nat)
      requires Ring(startPos) && len <= AvailBufSize() && null !in Next(len)
      modifies `lastAckPos
      ensures lastAckPos < units.Length && Ring(startPos) && View(startPos) == old(View(startPos))
              && RcvDataSize() == old(RcvDataSize()) + len
      ensures Pending(startPos) == old(Pending(startPos) + Next(len))
    {
      hide Turned;
      ghost var d, more := RcvDataSize(), Next(len);
      WrapMod(units.Length, lastAckPos + len);
      lastAckPos := (lastAckPos + len) % units.Length;
      assert RcvDataSize() == d + len;
      assert View(startPos)[..d + len] == View(startPos)[..d] + more;
      forall i | 0 <= i < d + len
        ensures View(startPos)[i] != null
      {
        assert i >= d ==> View(startPos)[i] == more[i - d];
      }
    }

    /** `ackData`, for places that are filled: the units there become part of the stream. */
    method AckData(len: nat)
      requires Valid() && len <= AvailBufSize() && null !in Next(len)
      modifies `lastAckPos, `maxPos, `acked
      ensures Valid() && View(startPos) == old(View(startPos)) && RcvDataSize() == old(RcvDataSize()) + len
      ensures acked == old(acked) + old(Bytes(Next(len))) && maxPos == old(maxPos) - len
    {
      hide Valid, Ring, Stream, Bytes, View, Pending, Next, RcvDataSize, AvailBufSize, Distance;
      ValidIs();
      ghost var pending, more := Pending(startPos), Next(len);
      StreamIs(startPos);
      ghost var bp, bm := Bytes(pending), Bytes(more);
      acked := acked + Bytes(more);
      assert bp == Bytes(pending) && bm == Bytes(more);
      maxPos := maxPos - len;
      assert bp == Bytes(pending) && bm == Bytes(more);
      MoveAck(len);
      assert bp == Bytes(pending) && bm == Bytes(more);
      StreamGrown(startPos, pending, more);
      IsValid();
    }

    ghost predicate Notched(pending: seq<Unit?>)
      reads `notch, (set u | u in pending && u != null)`payload
    {
      && (notch > 0 ==> pending != [] && pending[0] != null && notch < |pending[0].payload|)
      && notch <= |Bytes(pending)|
    }

    lemma StreamIs(start: nat)
      requires start < units.Length && lastAckPos < units.Length
      ensures Stream(start) <==> Notched(Pending(start)) && acked == taken + Bytes(Pending(start))[notch..]
    {
      hide Bytes, Pending;
    }

    lemma StreamGrown(start: nat, pending: seq<Unit?>, more: seq<Unit?>)
      requires start < units.Length && lastAckPos < units.Length && Pending(start) == pending + more
      requires Notched(pending) && acked == taken + Bytes(pending)[notch..] + Bytes(more)
      ensures Stream(start)
    {
      hide Stream, Bytes, Pending, Notched;
      NotchedMore(pending, more);
      StreamIs(start);
    }

    lemma NotchedMore(pending: seq<Unit?>, more: seq<Unit?>)
      requires Notched(pending)
      ensures notch <= |Bytes(pending)| && Notched(pending + more)
      ensures notch <= |Bytes(pending + more)|
              && Bytes(pending + more)[notch..] == Bytes(pending)[notch..] + Bytes(more)
    {
      hide Bytes;
      BytesAdd(pending, more);
      assert pending != [] ==> (pending + more)[0] == pending[0];
    }

    /** What has been acknowledged and not read. */
    ghost function Unread(start: nat): seq<Byte>
      requires Stream(start)
      reads `lastAckPos, `notch, `acked, `taken, units, (set u | u in units[..] && u != null)`payload
    {
      Bytes(Pending(start))[notch..]
    }

    /** The read bytes are always the beginning of the acknowledged ones. */
    lemma ReadsArePrefix()
      requires Valid()
      ensures taken <= acked && acked == taken + Unread(startPos)
    {
      hide Ring, Bytes, Pending;
    }

    /** The front unit is done with: its slot is emptied. */
    method Release(p: nat) returns (q: nat)
      requires Ring(p) && p != lastAckPos
      modifies units, (set u | u in units[..] && u != null)`flag, queue
      ensures Ring(q) && p != q == NextPlace(units.Length, p) < units.Length
      ensures forall u :: u in units[..] && u != null ==> u in old(units[..])
      ensures View(q) == old(View(p))[1..] + [null] && Pending(q) == old(Pending(p))[1..]
      ensures Distance(units.Length, q, lastAckPos) == Distance(units.Length, p, lastAckPos) - 1
      ensures queue.count - Occupied(units[..]) == old(queue.count - Occupied(units[..]))
    {
      hide Turned;
      ghost var was, view := units[..], View(p);
      FrontAt(was, p);
      var tmp := units[p];
      OccupiedPut(was, p, null);
      units[p] := null;
      tmp.flag := 0;
      queue.count := queue.count - 1;
      q := p + 1;
      if q == units.Length {
        q := 0;
      }
      assert units[..] == was[p := null];
      TurnedPut(was, p, 0, null);
      TurnedOn(units[..], p);
      assert View(q) == view[1..] + [null];
      forall i | 0 <= i < Distance(units.Length, q, lastAckPos)
        ensures View(q)[i] != null
      {
        assert View(q)[i] == view[i + 1];
      }
    }

    lemma FrontBytes(start: nat)
      requires Ring(start) && Stream(start) && start != lastAckPos
      ensures start < units.Length && lastAckPos < units.Length
      ensures units[start] != null && Pending(start) != [] && Pending(start)[0] == units[start]
      ensures notch <= |units[start].payload| <= |Bytes(Pending(start))|
      ensures Unread(start) == Bytes(Pending(start))[notch..] && acked == taken + Unread(start)
      ensures Unread(start) == units[start].payload[notch..] + Bytes(Pending(start)[1..])
    {
      hide Turned;
      FrontAt(units[..], start);
      assert Pending(start)[0] == View(start)[0];
    }

    /** As many bytes of the front unit as fit are copied. */
    method CopyUnit(data: array<Byte>, at: nat, p: nat, rs: nat) returns (unitSize: nat)
      requires Ring(p) && Stream(p) && p != lastAckPos && at + rs <= data.Length && p < units.Length
      modifies data
      ensures Ring(p) && Stream(p) && units[p] != null && notch <= |units[p].payload|
      ensures unitSize == if |units[p].payload| - notch > rs then rs else |units[p].payload| - notch
      ensures unitSize <= |Unread(p)|
      ensures data[..] == old(data[..at]) + Unread(p)[..unitSize] + old(data[at + unitSize..])
    {
      hide *;
      FrontBytes(p);
      var payload := units[p].payload;
      unitSize := |payload| - notch;
      if unitSize > rs {
        unitSize := rs;
      }
      SplitFront(Unread(p), payload[notch..], Bytes(Pending(p)[1..]), unitSize);
      assert payload[notch..notch + unitSize] == payload[notch..][..unitSize];
      Copy(data, at, payload[notch..notch + unitSize]);
    }

    method FinishUnit(p: nat) returns (q: nat)
      requires Ring(p) && p != lastAckPos && p < units.Length && lastAckPos < units.Length && Pending(p) != []
      requires acked == taken + Bytes(Pending(p)[1..])
      modifies `notch, units, (set u | u in units[..] && u != null)`flag, queue
      ensures q < units.Length && Ring(q) && Stream(q) && Unread(q) == old(Bytes(Pending(p)[1..]))
      ensures forall u :: u in units[..] && u != null ==> u in old(units[..])
      ensures q != p && View(q) == old(View(p))[1..] + [null]
      ensures Distance(units.Length, q, lastAckPos) == Distance(units.Length, p, lastAckPos) - 1
      ensures queue.count - Occupied(units[..]) == old(queue.count - Occupied(units[..]))
    {
      hide *;
      ghost var rest := Pending(p)[1..];
      assert acked == taken + Bytes(rest);
      q := Release(p);
      assert Pending(q) == rest;
      notch := 0;
      WholeRead(q);
    }

    /** A unit that is finished is released; otherwise the notch moves on. */
    method PassUnit(p: nat, rs: nat, unitSize: nat) returns (q: nat)
      requires Ring(p) && Stream(p) && p != lastAckPos && 0 < rs && p < units.Length
      requires units[p] != null && notch <= |units[p].payload|
      requires unitSize == if |units[p].payload| - notch > rs then rs else |units[p].payload| - notch
      modifies `notch, `taken, units, (set u | u in units[..] && u != null)`flag, queue
      ensures q < units.Length && Ring(q) && Stream(q) && unitSize <= |old(Unread(p))|
      ensures taken == old(taken) + old(Unread(p))[..unitSize] && Unread(q) == old(Unread(p))[unitSize..]
      ensures forall u :: u in units[..] && u != null ==> u in old(units[..])
      ensures q == p ==> unitSize == rs && View(p) == old(View(p))
      ensures q != p ==> View(q) == old(View(p))[1..] + [null]
      ensures q != p ==> Distance(units.Length, q, lastAckPos) == Distance(units.Length, p, lastAckPos) - 1
      ensures queue.count - Occupied(units[..]) == old(queue.count - Occupied(units[..]))
    {
      hide *;
      UnreadSplit(p, unitSize);
      ghost var unread := Unread(p);
      taken := taken + unread[..unitSize];
      if rs > unitSize || rs == |units[p].payload| - notch {
        q := FinishUnit(p);
      } else {
        q := p;
        ReadPart(p, rs, unread);
      }
    }

    /** Part of the front unit is read. */
    method ReadPart(p: nat, rs: nat, ghost unread: seq<Byte>)
      requires Ring(p) && p < units.Length && lastAckPos < units.Length && Pending(p) != [] && Pending(p)[0] != null
      requires notch + rs < |Pending(p)[0].payload| <= |Bytes(Pending(p))|
      requires rs <= |unread| && unread == Bytes(Pending(p))[notch..] && acked == taken + unread[rs..]
      modifies `notch
      ensures Ring(p) && Stream(p) && Unread(p) == unread[rs..] && View(p) == old(View(p))
    {
      hide *;
      notch := notch + rs;
      HalfRead(p, unread, notch - rs);
    }

    /** The unread bytes, n of them from the front unit, and the others. */
    lemma UnreadSplit(p: nat, n: nat)
      requires Ring(p) && Stream(p) && p != lastAckPos && p < units.Length && units[p] != null
      requires notch + n <= |units[p].payload|
      ensures lastAckPos < units.Length && Pending(p) != [] && Pending(p)[0] == units[p]
      ensures |units[p].payload| <= |Bytes(Pending(p))| && Unread(p) == Bytes(Pending(p))[notch..]
      ensures n <= |Unread(p)| && acked == (taken + Unread(p)[..n]) + Unread(p)[n..]
      ensures notch + n == |units[p].payload| ==> Unread(p)[n..] == Bytes(Pending(p)[1..])
    {
      hide *;
      FrontBytes(p);
      var unread := Unread(p);
      SplitFront(unread, units[p].payload[notch..], Bytes(Pending(p)[1..]), n);
      assert unread == unread[..n] + unread[n..];
    }

    /** One turn of the loop of `readBuffer`. */
    method TakeUnit(data: array<Byte>, at: nat, p: nat, rs: nat, ghost done: seq<Byte>, ghost unread: seq<Byte>,
        ghost was: seq<Byte>, ghost view: seq<Unit?>, ghost k: nat)
      returns (q: nat, left: nat, to: nat)
      requires Ring(p) && Stream(p) && p != lastAckPos && 0 < rs && at + rs <= data.Length && p < units.Length
      requires at <= |unread| && |was| == data.Length && k + Distance(units.Length, p, lastAckPos) <= units.Length
      requires data[..] == unread[..at] + was[at..] && taken == done + unread[..at] && Unread(p) == unread[at..]
      requires |view| == units.Length && Kept(view, View(p), k)
      modifies `notch, `taken, units, (set u | u in units[..] && u != null)`flag, queue, data
      ensures q < units.Length && Ring(q) && Stream(q) && left <= rs && to == at + rs - left <= |unread|
      ensures data[..] == unread[..to] + was[to..] && taken == done + unread[..to] && Unread(q) == unread[to..]
      ensures forall u :: u in units[..] && u != null ==> u in old(units[..])
      ensures q == p ==> left == 0 && Kept(view, View(q), k)
      ensures q != p ==> Kept(view, View(q), k + 1)
      ensures q != p ==> Distance(units.Length, q, lastAckPos) == Distance(units.Length, p, lastAckPos) - 1
      ensures queue.count - Occupied(units[..]) == old(queue.count - Occupied(units[..]))
    {
      hide *;
      DistancePositive(p);
      ghost var before, now := data[..], View(p);
      var unitSize := CopyUnit(data, at, p, rs);
      DataNext(before, data[..], was, unread, at, unitSize);
      q := PassUnit(p, rs, unitSize);
      KeptNext(view, now, k, View(q));
      left, to := rs - unitSize, at + unitSize;
      TakenMore(done, unread, at, unitSize);
    }

    static lemma TakenMore(done: seq<Byte>, unread: seq<Byte>, at: nat, n: nat)
      requires at + n <= |unread|
      ensures (done + unread[..at]) + unread[at..][..n] == done + unread[..at + n]
      ensures unread[at..][n..] == unread[at + n..]
    {
      assert unread[..at] + unread[at..][..n] == unread[..at + n];
    }

    lemma DistancePositive(p: nat)
      requires p < units.Length && p != lastAckPos && Ring(p)
      ensures 0 < Distance(units.Length, p, lastAckPos) < units.Length && |View(p)| == units.Length
    {
      hide Turned;
    }

    lemma SplitFront(whole: seq<Byte>, front: seq<Byte>, rest: seq<Byte>, n: nat)
      requires whole == front + rest && n <= |front|
      ensures whole[..n] == front[..n] && whole[n..] == front[n..] + rest
      ensures n == |front| ==> whole[n..] == rest
    {
    }

    lemma WholeRead(q: nat)
      requires q < units.Length && lastAckPos < units.Length && notch == 0 && acked == taken + Bytes(Pending(q))
      ensures Stream(q) && Unread(q) == Bytes(Pending(q))
    {
      hide Pending, Bytes;
    }

    lemma HalfRead(q: nat, unread: seq<Byte>, was: nat)
      requires Ring(q) && q < units.Length && lastAckPos < units.Length && Pending(q) != [] && Pending(q)[0] != null
      requires was <= notch < |Pending(q)[0].payload| && notch <= |Bytes(Pending(q))|
      requires unread == Bytes(Pending(q))[was..] && acked == taken + unread[notch - was..]
      ensures Stream(q) && Unread(q) == unread[notch - was..]
    {
      hide Ring, Pending, Bytes;
    }

    /** `memcpy` */
    static method Copy(data: array<Byte>, at: nat, bytes: seq<Byte>)
      requires at + |bytes| <= data.Length
      modifies data
      ensures data[..] == old(data[..at]) + bytes + old(data[at + |bytes|..])
    {
      ghost var was := data[..];
      CopiedNone(was, at, bytes);
      for k := 0 to |bytes|
        invariant data[..] == Copied(was, at, bytes, k)
      {
        CopiedMore(was, at, bytes, k);
        data[at + k] := bytes[k];
      }
      assert bytes[..|bytes|] == bytes;
    }

    /** The array with the first k of the bytes copied. */
    static ghost function Copied(was: seq<Byte>, at: nat, bytes: seq<Byte>, k: nat): seq<Byte>
      requires k <= |bytes| && at + |bytes| <= |was|
    {
      was[..at] + bytes[..k] + was[at + k..]
    }

    static lemma CopiedNone(was: seq<Byte>, at: nat, bytes: seq<Byte>)
      requires at + |bytes| <= |was|
      ensures Copied(was, at, bytes, 0) == was
    {
    }

    static lemma CopiedMore(was: seq<Byte>, at: nat, bytes: seq<Byte>, k: nat)
      requires k < |bytes| && at + |bytes| <= |was|
      ensures |Copied(was, at, bytes, k)| == |was|
      ensures Copied(was, at, bytes, k + 1) == Copied(was, at, bytes, k)[at + k := bytes[k]]
    {
    }

    /** The loop of `readBuffer`. */
    method TakeUnits(data: array<Byte>, len: nat, ghost unread: seq<Byte>, ghost view: seq<Unit?>, ghost size: nat)
      returns (p: nat, rs: nat)
      requires startPos < units.Length && Ring(startPos) && Stream(startPos) && len <= data.Length
      requires unread == Unread(startPos) && view == View(startPos)
      requires size == Distance(units.Length, startPos, lastAckPos) < units.Length
      modifies `notch, `taken, units, (set u | u in units[..] && u != null)`flag, queue, data
      ensures p < units.Length && Ring(p) && Stream(p) && rs <= len && len - rs <= |unread|
      ensures rs == 0 || len - rs == |unread|
      ensures data[..] == unread[..len - rs] + old(data[len - rs..])
      ensures taken == old(taken) + unread[..len - rs] && Unread(p) == unread[len - rs..]
      ensures Distance(units.Length, p, lastAckPos) <= size
      ensures Kept(view, View(p), size - Distance(units.Length, p, lastAckPos))
      ensures queue.count - Occupied(units[..]) == old(queue.count - Occupied(units[..]))
    {
      hide *;
      ghost var was := data[..];
      var at: nat := 0;
      p, rs := startPos, len;
      KeptAll(view);
      while p != lastAckPos && rs > 0
        invariant p < units.Length && Ring(p) && Stream(p) && at + rs == len && at <= |unread|
        invariant data[..] == unread[..at] + was[at..]
        invariant taken == old(taken) + unread[..at] && Unread(p) == unread[at..]
        invariant Distance(units.Length, p, lastAckPos) <= size
        invariant Kept(view, View(p), size - Distance(units.Length, p, lastAckPos))
        invariant forall u :: u in units[..] && u != null ==> u in old(units[..])
        invariant queue.count - Occupied(units[..]) == old(queue.count - Occupied(units[..]))
        decreases Distance(units.Length, p, lastAckPos), rs
      {
        ghost var k := size - Distance(units.Length, p, lastAckPos);
        p, rs, at := TakeUnit(data, at, p, rs, old(taken), unread, was, view, k);
      }
      UnreadEnd(p);
    }

    /**
     `readBuffer`: the next bytes of the stream, as many as there are and fit. Units beyond the
     acknowledged place stay where they are.
     */
    method ReadBuffer(data: array<Byte>, len: nat) returns (n: nat)
      requires Valid() && len <= data.Length
      modifies `startPos, `notch, `taken, units, (set u | u in units[..] && u != null)`flag, queue, data
      ensures Valid() && n == if len < |old(Unread(startPos))| then len else |old(Unread(startPos))|
      ensures data[..] == old(Unread(startPos))[..n] + old(data[n..])
      ensures taken == old(taken) + data[..n] && Unread(startPos) == old(Unread(startPos))[n..]
      ensures RcvDataSize() <= old(RcvDataSize())
      ensures Next(old(AvailBufSize())) == old(Next(AvailBufSize()))
      ensures queue.count - Occupied(units[..]) == old(queue.count - Occupied(units[..]))
    {
      hide *;
      ValidIs();
      Sizes();
      ghost var avail, size := AvailBufSize(), RcvDataSize();
      NextIs(avail);
      ghost var unread, view := Unread(startPos), View(startPos);
      var p, rs := TakeUnits(data, len, unread, view, size);
      n := len - rs;
      startPos := p;
      IsValid();
      Sizes();
      KeptBeyond(view, View(startPos), size, RcvDataSize(), avail);
      NextIs(avail);
    }

    lemma NextIs(n: nat)
      requires startPos < units.Length && lastAckPos < units.Length && n <= AvailBufSize()
      ensures Next(n) == View(startPos)[RcvDataSize()..RcvDataSize() + n]
    {
    }

    lemma Sizes()
      requires startPos < units.Length && lastAckPos < units.Length
      ensures RcvDataSize() == Distance(units.Length, startPos, lastAckPos) < units.Length
      ensures AvailBufSize() == units.Length - RcvDataSize() - 1
    {
    }

    lemma UnreadEnd(p: nat)
      requires Stream(p)
      ensures p == lastAckPos ==> Unread(p) == []
    {
    }
  }

  /** One view of the ring is another without its first k slots. */
  ghost predicate Kept(was: seq<Unit?>, now: seq<Unit?>, k: nat) {
    |now| == |was| && k <= |was| && now[..|was| - k] == was[k..]
  }

  lemma KeptAll(view: seq<Unit?>)
    ensures Kept(view, view, 0)
  {
  }

  lemma KeptNext(was: seq<Unit?>, now: seq<Unit?>, k: nat, next: seq<Unit?>)
    requires Kept(was, now, k) && k < |was|
    ensures next == now ==> Kept(was, next, k)
    ensures next == now[1..] + [null] ==> Kept(was, next, k + 1)
  {
    if next == now[1..] + [null] {
      assert next[..|was| - k - 1] == now[..|was| - k][1..];
      assert was[k..][1..] == was[k + 1..];
    }
  }

  lemma KeptBeyond(was: seq<Unit?>, now: seq<Unit?>, d0: nat, d1: nat, n: nat)
    requires d1 <= d0 && d0 + n <= |was| && Kept(was, now, d0 - d1)
    ensures |now| == |was| && now[d1..d1 + n] == was[d0..d0 + n]
  {
    var k := d0 - d1;
    assert now[..|was| - k][d1..d1 + n] == was[k..][d1..d1 + n];
  }

  lemma DataNext(before: seq<Byte>, after: seq<Byte>, was: seq<Byte>, unread: seq<Byte>, a: nat, n: nat)
    requires a + n <= |was| && a + n <= |unread|
    requires before == unread[..a] + was[a..]
    requires after == before[..a] + unread[a..][..n] + before[a + n..]
    ensures after == unread[..a + n] + was[a + n..]
  {
    assert before[a + n..] == was[a + n..];
    assert unread[..a] + unread[a..][..n] == unread[..a + n];
  }
}
