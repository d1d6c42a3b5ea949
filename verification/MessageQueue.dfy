// The queue segment with its array, count and semaphores, updated in place by one caller at
// a time. A call that would wait for ever ends in Blocked, in the state it waits in.
module MessageQueue {
  import opened Messages
  import opened SequentialQueue
  import Slots

  datatype Outcome = Done | Refused | Blocked

  class Queue {
    const fullShift: bool      // the repair of the shift in mq_send
    const releaseOnShort: bool // the repair of the short-buffer return in mq_receive
    const msgSize: nat
    const slots: array<Msg>
    var cur: nat
    var mutex: nat
    var free: nat
    var avail: nat
    var nonblock: bool

    // The state of the segment between calls.
    ghost predicate Valid()
      reads this
    {
      && cur <= slots.Length
      && mutex <= 1
      && avail == cur && free == slots.Length - cur
    }

    ghost function Contents(): seq<Msg>
      reads this, slots
      requires Valid()
    {
      slots[..cur]
    }

    // mq_open, with or without O_NONBLOCK among its flags.
    constructor (capacity: nat, msgSize: nat, flag: bool, fullShift: bool, releaseOnShort: bool)
      ensures Valid() && fresh(slots) && Contents() == [] && mutex == 1 && nonblock == flag
      ensures slots.Length == capacity && this.msgSize == msgSize
      ensures this.fullShift == fullShift && this.releaseOnShort == releaseOnShort
    {
      this.fullShift, this.releaseOnShort, this.msgSize := fullShift, releaseOnShort, msgSize;
      slots := new Msg[capacity];
      cur, mutex, free, avail, nonblock := 0, 1, capacity, 0, flag;
    }

    // The flag part of mq_setattr: O_NONBLOCK can be set and never cleared.
    method SetAttr(flag: bool) returns (r: Outcome)
      requires Valid()
      modifies this`nonblock
      ensures r == if mutex == 0 then Blocked else Done
      ensures nonblock == (old(nonblock) || (mutex > 0 && flag))
    {
      if mutex == 0 { return Blocked; }
      nonblock := nonblock || flag;
      return Done;
    }

    // The search of mq_send: past the messages of the same or a higher priority.
    method FindPlace(prio: nat) returns (i: nat)
      requires cur <= slots.Length
      ensures i == InsertionPoint(slots[..cur], prio)
    {
      i := 0;
      while i < cur
        invariant i <= cur
        invariant forall k :: 0 <= k < i ==> slots[k].prio >= prio
      {
        if slots[i].prio < prio { break; }
        i := i + 1;
      }
      assert forall k :: 0 <= k < cur ==> slots[..cur][k] == slots[k];
      InsertionPointUnique(slots[..cur], prio, i);
    }

    // memmove of n messages from position i to the next one.
    method MoveUp(i: nat, n: nat)
      requires i + n < slots.Length
      modifies slots
      ensures slots[..] == old(slots[..])[..i + 1] + old(slots[..])[i..i + n] + old(slots[..])[i + n + 1..]
    {
      forall k | i + 1 <= k < i + 1 + n {
        slots[k] := slots[k - 1];
      }
    }

    // The search, shift and store of mq_send.
    method Store(m: Msg)
      requires cur < slots.Length
      modifies slots
      ensures slots[..] == Slots.Store(fullShift, old(slots[..]), cur, m)
    {
      if cur == 0 {
        slots[0] := m;
        return;
      }
      ghost var was := slots[..];
      var i := FindPlace(m.prio);
      assert slots[..cur] == was[..cur];
      if i < cur {
        var n := if fullShift then cur - i else cur - (i + 1);
        MoveUp(i, n);
        Slots.MovedThenStored(was, i, n, m);
      }
      ghost var moved := slots[..];
      slots[i] := m;
      assert slots[..] == moved[i := m];
    }

    method Send(m: Msg) returns (r: Outcome)
      requires Valid()
      modifies this`cur, this`mutex, this`free, this`avail, slots
      ensures Valid()
      ensures
        if old(mutex) == 0 then r == Blocked && mutex == 0 && Contents() == old(Contents())
        else if m.length > slots.Length || (nonblock && old(cur) == slots.Length) then
          r == Refused && mutex == 1 && Contents() == old(Contents())
        else if old(cur) == slots.Length then
          r == Blocked && mutex == 0 && Contents() == old(Contents())
        else
          r == Done && mutex == 1 &&
          Contents() == Slots.Store(fullShift, old(slots[..]), old(cur), m)[..old(cur) + 1]
      ensures fullShift && r == Done ==> Contents() == Insert(old(Contents()), m)
      ensures slots[..] == if r == Done then Slots.Store(fullShift, old(slots[..]), old(cur), m) else old(slots[..])
      ensures r == Done ==> slots[cur..] == old(slots[..])[cur..]
    {
      if mutex == 0 { return Blocked; }
      mutex := mutex - 1;
      if m.length > slots.Length || (nonblock && cur == slots.Length) {
        mutex := mutex + 1;
        return Refused;
      }
      if free == 0 { return Blocked; }
      free := free - 1;
      avail := avail + 1;
      if fullShift { Slots.FullStoreInserts(slots[..], cur, m); }
      assert slots[..][..cur] == slots[..cur];
      Slots.StoreKeepsRest(fullShift, slots[..], cur, m);
      Store(m);
      mutex := mutex + 1;
      cur := cur + 1;
      assert slots[..][..cur] == slots[..cur] && slots[..][cur..] == slots[cur..];
      return Done;
    }

    // The move of mq_receive, once the count is lowered.
    method ShiftDown()
      requires cur < slots.Length
      modifies slots
      ensures slots[..] == Slots.Shift(old(slots[..]), cur)
    {
      ghost var was, n := slots[..], cur;
      if cur == 1 {
        slots[0] := slots[1];
      } else {
        forall k | 0 <= k < cur {
          slots[k] := slots[k + 1];
        }
      }
      assert forall k :: 0 <= k < n ==> slots[k] == was[k + 1];
      assert forall k :: n <= k < slots.Length ==> slots[k] == was[k];
      Slots.ShiftIs(was, slots[..], n);
    }

    method Receive(bufferSize: nat) returns (r: Outcome, data: string, prio: nat)
      requires Valid()
      modifies this`cur, this`mutex, this`free, this`avail, slots
      ensures Valid()
      ensures
        if old(mutex) == 0 then r == Blocked && mutex == 0 && Contents() == old(Contents())
        else if bufferSize < msgSize then
          r == Refused && mutex == (if releaseOnShort then 1 else 0) && Contents() == old(Contents())
        else if old(cur) == 0 then
          r == Blocked && mutex == 0 && Contents() == []
        else
          var m := old(Contents())[0];
          r == Done && mutex == 1 && data == m.data && prio == m.prio && Contents() == old(Contents())[1..]
      ensures slots[..] == if r == Done then Slots.Shift(old(slots[..]), cur) else old(slots[..])
      ensures r == Done ==> slots[cur..] == old(slots[..])[cur..]
    {
      data, prio := "", 0;
      if mutex == 0 { return Blocked, data, prio; }
      mutex := mutex - 1;
      if bufferSize < msgSize {
        if releaseOnShort { mutex := mutex + 1; }
        return Refused, data, prio;
      }
      if avail == 0 { return Blocked, data, prio; }
      avail := avail - 1;
      free := free + 1;
      data := slots[0].data;
      prio := slots[0].prio;
      cur := cur - 1;
      Slots.ShiftDropsHead(slots[..], cur);
      ShiftDown();
      assert slots[..][..cur] == slots[..cur] && slots[..][cur..] == slots[cur..];
      mutex := mutex + 1;
      return Done, data, prio;
    }

    // A receive that leaves a message, and then a send that is accepted: the message is inserted
    // into the rest of the queue with either shift, because the slot behind it is as it was.
    method ReceiveThenSend(bufferSize: nat, m: Msg) returns (data: string, prio: nat)
      requires Valid() && mutex == 1 && cur >= 2 && bufferSize >= msgSize && m.length <= slots.Length
      modifies this`cur, this`mutex, this`free, this`avail, slots
      ensures Valid() && mutex == 1
      ensures data == old(Contents())[0].data && prio == old(Contents())[0].prio
      ensures Contents() == Insert(old(Contents())[1..], m)
    {
      ghost var was, n := slots[..], cur - 1;
      var r, s;
      r, data, prio := Receive(bufferSize);
      s := Send(m);
      if fullShift {
        Slots.FullStoreInserts(Slots.Shift(was, n), n, m);
        Slots.ShiftDropsHead(was, n);
      } else {
        Slots.WrittenStoreAfterDeletion(was, n, m);
      }
      assert was[1..n + 1] == was[..n + 1][1..];
    }

    method SendAll(msgs: seq<Msg>)
      requires Valid() && Contents() == [] && mutex == 1 && fullShift
      requires |msgs| <= slots.Length && forall k :: 0 <= k < |msgs| ==> msgs[k].length <= slots.Length
      modifies this`cur, this`mutex, this`free, this`avail, slots
      ensures Valid() && Contents() == InsertAll(msgs) && mutex == 1
    {
      var i := 0;
      while i < |msgs|
        invariant i <= |msgs| && Valid() && mutex == 1
        invariant Contents() == InsertAll(msgs[..i]) && cur == i
      {
        var r := Send(msgs[i]);
        assert msgs[..i + 1][..i] == msgs[..i];
        i := i + 1;
      }
      assert msgs[..i] == msgs;
    }

    // One receive, seen from a caller that takes the messages of q one after the other.
    method ReceiveNext(ghost q: seq<Msg>, ghost k: nat) returns (got: (string, nat))
      requires Valid() && mutex == 1 && k < |q| && Contents() == q[k..]
      modifies this`cur, this`mutex, this`free, this`avail, slots
      ensures Valid() && mutex == 1 && Contents() == q[k + 1..]
      ensures got == (q[k].data, q[k].prio)
    {
      assert q[k..][0] == q[k] && q[k..][1..] == q[k + 1..];
      var r, data, prio := Receive(msgSize);
      got := (data, prio);
    }

    method ReceiveAll() returns (out: seq<(string, nat)>)
      requires Valid() && mutex == 1
      modifies this`cur, this`mutex, this`free, this`avail, slots
      ensures Valid() && Contents() == [] && mutex == 1
      ensures |out| == old(cur)
      ensures forall k :: 0 <= k < |out| ==> out[k] == (old(Contents())[k].data, old(Contents())[k].prio)
    {
      ghost var q := Contents();
      out := [];
      while cur > 0
        invariant Valid() && mutex == 1 && |out| <= |q|
        invariant Contents() == q[|out|..]
        invariant forall k :: 0 <= k < |out| ==> out[k] == (q[k].data, q[k].prio)
        decreases |q| - |out|
      {
        assert |Contents()| == cur;
        var got := ReceiveNext(q, |out|);
        out := out + [got];
      }
      assert |Contents()| == 0;
    }

    // Any list of at most `capacity` messages, sent to an empty queue and then all received,
    // comes back as its stable descending sort.
    method SendAllThenReceiveAll(msgs: seq<Msg>) returns (out: seq<(string, nat)>)
      requires Valid() && Contents() == [] && mutex == 1 && fullShift
      requires |msgs| <= slots.Length && forall k :: 0 <= k < |msgs| ==> msgs[k].length <= slots.Length
      modifies this`cur, this`mutex, this`free, this`avail, slots
      ensures Valid() && Contents() == [] && mutex == 1
      ensures |out| == |msgs| == |InsertAll(msgs)|
      ensures IsStableSort(InsertAll(msgs), msgs)
      ensures forall k :: 0 <= k < |out| ==> out[k] == (InsertAll(msgs)[k].data, InsertAll(msgs)[k].prio)
    {
      SendAll(msgs);
      InsertAllSorts(msgs);
      out := ReceiveAll();
    }
  }
}
