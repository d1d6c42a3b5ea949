// The queue array as mq_send and mq_receive move it about: `slots` is the whole
// array, of which the first `cur` entries are the queue.
module Slots {
  import opened Messages

  // Storing a message. With `full`, the `cur - i` lower-priority messages behind the
  // insertion point i all move up. Without it, only the `cur - (i + 1)` messages that the
  // code moves do, so the last one stays where it is and slot `cur` keeps what it held.
  // A count that is negative or beyond the array is what an unlocked count update can
  // leave behind: the search loop then stops at once, or the move is out of range.
  function Store(full: bool, slots: seq<Msg>, cur: int, m: Msg): (r: seq<Msg>)
    ensures |r| == |slots|
  {
    if slots == [] || cur >= |slots| then slots
    else if cur <= 0 then slots[0 := m]
    else
      var i := InsertionPoint(slots[..cur], m.prio);
      if i == cur then slots[i := m]
      else if full then slots[..i] + [m] + slots[i..cur] + slots[cur + 1..]
      else slots[..i] + [m] + slots[i..cur - 1] + slots[cur..]
  }

  // Deleting the first message, once the count has been lowered to `cur`.
  function Shift(slots: seq<Msg>, cur: int): (r: seq<Msg>)
    ensures |r| == |slots|
  {
    if 0 <= cur < |slots| then slots[1..cur + 1] + slots[cur..] else slots
  }

  // Moving n messages up from position i and writing into the gap.
  lemma MovedThenStored(slots: seq<Msg>, i: nat, n: nat, m: Msg)
    requires i + n < |slots|
    ensures (slots[..i + 1] + slots[i..i + n] + slots[i + n + 1..])[i := m] ==
            slots[..i] + [m] + slots[i..i + n] + slots[i + n + 1..]
  {
  }

  // The full shift inserts.
  lemma FullStoreInserts(slots: seq<Msg>, cur: nat, m: Msg)
    requires cur < |slots|
    ensures Store(true, slots, cur, m)[..cur + 1] == Insert(slots[..cur], m)
    ensures Store(true, slots, cur, m)[cur + 1..] == slots[cur + 1..]
  {
    var q := slots[..cur];
    var i := InsertionPoint(q, m.prio);
    assert slots[..i] == q[..i];
    assert slots[i..cur] == q[i..];
  }

  // The shift as written inserts exactly when the message goes last, or when slot `cur`
  // happens to hold a copy of the last message already.
  lemma WrittenStoreInserts(slots: seq<Msg>, cur: nat, m: Msg)
    requires cur < |slots|
    ensures Store(false, slots, cur, m)[..cur + 1] == Insert(slots[..cur], m) <==>
            (forall k :: 0 <= k < cur ==> slots[k].prio >= m.prio) || slots[cur] == slots[cur - 1]
  {
    var q := slots[..cur];
    var i := InsertionPoint(q, m.prio);
    var r := Store(false, slots, cur, m)[..cur + 1];
    assert slots[..i] == q[..i];
    if i < cur {
      assert q[i] == slots[i] && slots[i].prio < m.prio;
      assert r[cur] == slots[cur];
      assert Insert(q, m)[cur] == slots[cur - 1];
      if slots[cur] == slots[cur - 1] {
        assert r == slots[..i] + [m] + slots[i..cur - 1] + [slots[cur]];
        assert q[i..] == slots[i..cur - 1] + [slots[cur - 1]];
      }
    } else {
      forall k | 0 <= k < cur ensures slots[k].prio >= m.prio {
        assert q[k].prio >= m.prio;
      }
    }
  }

  lemma SliceOfSlice(s: seq<Msg>, i: nat, j: nat, n: nat)
    requires i <= j <= n <= |s|
    ensures |s[..n][i..]| == n - i && s[..n][i..][..j - i] == s[i..j]
  {
    forall k | 0 <= k < j - i ensures s[..n][i..][..j - i][k] == s[i..j][k] {
      assert s[..n][i..][k] == s[..n][i + k] == s[i + k];
    }
  }

  lemma AllButLast(a: seq<Msg>, m: Msg, c: seq<Msg>)
    requires c != []
    ensures (a + [m] + c)[..|a| + |c|] == a + [m] + c[..|c| - 1]
  {
  }

  // What the shift as written does to a message that does not go last: it inserts it and drops the
  // last message, and the slot behind the queue keeps what it held.
  lemma WrittenStoreDropsLast(slots: seq<Msg>, cur: nat, m: Msg)
    requires cur < |slots| && exists k :: 0 <= k < cur && slots[k].prio < m.prio
    ensures Store(false, slots, cur, m) == Insert(slots[..cur], m)[..cur] + slots[cur..]
  {
    var q := slots[..cur];
    var i := InsertionPoint(q, m.prio);
    var k :| 0 <= k < cur && slots[k].prio < m.prio;
    assert q[k].prio < m.prio;
    assert i < cur;
    AllButLast(q[..i], m, q[i..]);
    assert slots[..i] == q[..i];
    SliceOfSlice(slots, i, cur - 1, cur);
  }

  // Either shift inserts a message that goes last.
  lemma StoreInPlace(full: bool, slots: seq<Msg>, q: seq<Msg>, m: Msg)
    requires |q| < |slots| && slots[..|q|] == q
    requires full || forall k :: 0 <= k < |q| ==> q[k].prio >= m.prio
    ensures Store(full, slots, |q|, m)[..|q| + 1] == Insert(q, m)
  {
    if full {
      FullStoreInserts(slots, |q|, m);
    } else {
      forall k | 0 <= k < |q| ensures slots[k].prio >= m.prio {
        assert slots[..|q|][k] == q[k];
      }
      WrittenStoreInserts(slots, |q|, m);
    }
  }

  lemma StoreKeepsRest(full: bool, slots: seq<Msg>, cur: nat, m: Msg)
    requires cur < |slots|
    ensures Store(full, slots, cur, m)[cur + 1..] == slots[cur + 1..]
  {
    var r := Store(full, slots, cur, m);
    StoredBehind(full, slots, cur, m);
    var a, b := r[cur + 1..], slots[cur + 1..];
    forall k | 0 <= k < |a| ensures a[k] == b[k] {
      assert a[k] == r[cur + 1 + k] && b[k] == slots[cur + 1 + k];
    }
  }

  // A store changes nothing behind the slot it grows into.
  lemma StoredBehind(full: bool, slots: seq<Msg>, cur: nat, m: Msg)
    ensures forall k :: cur < k < |slots| ==> Store(full, slots, cur, m)[k] == slots[k]
    ensures !full && (exists k :: 0 <= k < cur < |slots| && slots[k].prio < m.prio) ==>
              Store(full, slots, cur, m)[cur] == slots[cur]
  {
  }

  lemma ShiftIs(was: seq<Msg>, now: seq<Msg>, n: nat)
    requires |now| == |was| && n < |was|
    requires forall k :: 0 <= k < n ==> now[k] == was[k + 1]
    requires forall k :: n <= k < |was| ==> now[k] == was[k]
    ensures now == Shift(was, n)
  {
  }

  // Deletion drops the head, and leaves a copy of the last message just behind the queue.
  lemma ShiftDropsHead(slots: seq<Msg>, cur: nat)
    requires cur < |slots|
    ensures Shift(slots, cur)[..cur] == slots[1..cur + 1]
    ensures Shift(slots, cur)[cur..] == slots[cur..]
  {
  }

  // Hence the first store after a deletion that left a message is correct even as written.
  lemma WrittenStoreAfterDeletion(slots: seq<Msg>, cur: nat, m: Msg)
    requires 0 < cur < |slots|
    ensures Store(false, Shift(slots, cur), cur, m)[..cur + 1] == Insert(slots[1..cur + 1], m)
  {
    ShiftDropsHead(slots, cur);
    var s := Shift(slots, cur);
    assert s[cur - 1] == s[..cur][cur - 1] == slots[cur];
    assert s[cur] == s[cur..][0] == slots[cur];
    WrittenStoreInserts(s, cur, m);
  }
}
