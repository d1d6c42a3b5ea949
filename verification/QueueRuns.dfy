// Runs put together from whole calls, for the systems in which the code as written goes wrong.
module QueueRuns {
  import opened Messages
  import opened SequentialQueue
  import opened QueueProtocol
  import opened Runs
  import opened QueueTokens
  import opened Totals
  import opened QueueDeadlock
  import Slots

  lemma Extended(c: Config, r: QueueRun, i: nat) returns (r': QueueRun)
    requires IsRun(c, r) && r.last.slots != [] && Enabled(c, r.last, i)
    ensures r' == Then(r, i, Exec(c, r.last, i)) && IsRun(c, r') && First(r') == First(r)
  {
    r' := Then(r, i, Exec(c, r.last, i));
  }

  // The first three steps of a send that finds room: two semaphores taken, one given.
  lemma SendBegins(c: Config, r: QueueRun, i: nat) returns (r': QueueRun)
    requires IsRun(c, r) && r.last.slots != [] && r.last.mutex == 1 && r.last.free > 0
    requires i < |r.last.procs| && r.last.procs[i].Sender? && r.last.procs[i].pc == 0 && !Finished(r.last.procs[i])
    ensures IsRun(c, r') && First(r') == First(r)
    ensures var s := r.last;
            r'.last == s.(mutex := 0, free := s.free - 1, avail := s.avail + 1,
                          procs := s.procs[i := Sender(s.procs[i].todo, 3)])
  {
    r' := Extended(c, r, i);
    r' := Extended(c, r', i);
    r' := Extended(c, r', i);
  }

  // The store and the step after it.
  lemma SendStores(c: Config, r: QueueRun, i: nat) returns (r': QueueRun)
    requires IsRun(c, r) && r.last.slots != [] && r.last.mutex == 0
    requires i < |r.last.procs| && r.last.procs[i].Sender? && r.last.procs[i].pc == 3 && !Finished(r.last.procs[i])
    ensures IsRun(c, r') && First(r') == First(r)
    ensures var s := r.last;
            var m := s.procs[i].todo[0];
            r'.last == s.(slots := Slots.Store(c.fullShift, s.slots, s.cur, m), log := s.log + [Put(i, m)],
                          procs := s.procs[i := Sender(s.procs[i].todo, 5)],
                          mutex := if c.countInside then 0 else 1,
                          cur := if c.countInside then s.cur + 1 else s.cur)
  {
    r' := Extended(c, r, i);
    r' := Extended(c, r', i);
  }

  lemma SendEnds(c: Config, r: QueueRun, i: nat) returns (r': QueueRun)
    requires IsRun(c, r) && r.last.slots != [] && (if c.countInside then r.last.mutex == 0 else true)
    requires i < |r.last.procs| && r.last.procs[i].Sender? && r.last.procs[i].pc == 5 && !Finished(r.last.procs[i])
    ensures IsRun(c, r') && First(r') == First(r)
    ensures var s := r.last;
            r'.last == s.(procs := s.procs[i := Sender(s.procs[i].todo[1..], 0)],
                          mutex := if c.countInside then 1 else s.mutex,
                          cur := if c.countInside then s.cur else s.cur + 1)
  {
    r' := Extended(c, r, i);
  }

  // A whole send with nobody else about.
  lemma SendAlone(c: Config, r: QueueRun, i: nat) returns (r': QueueRun)
    requires IsRun(c, r) && r.last.slots != [] && r.last.mutex == 1 && r.last.free > 0
    requires i < |r.last.procs| && r.last.procs[i].Sender? && r.last.procs[i].pc == 0 && !Finished(r.last.procs[i])
    ensures IsRun(c, r') && First(r') == First(r)
    ensures var s := r.last;
            var m := s.procs[i].todo[0];
            r'.last == s.(slots := Slots.Store(c.fullShift, s.slots, s.cur, m), log := s.log + [Put(i, m)],
                          procs := s.procs[i := Sender(s.procs[i].todo[1..], 0)], cur := s.cur + 1,
                          free := s.free - 1, avail := s.avail + 1)
  {
    r' := SendBegins(c, r, i);
    r' := SendStores(c, r', i);
    r' := SendEnds(c, r', i);
  }

  // A receiver comes between the store and the count of the first sender.
  lemma TakesUncounted(c: Config, r: QueueRun, i: nat) returns (r': QueueRun)
    requires IsRun(c, r) && r.last.slots != [] && r.last.mutex == 1 && r.last.avail > 0
    requires i < |r.last.procs| && r.last.procs[i].Receiver? && r.last.procs[i].pc == 0 && !Finished(r.last.procs[i])
    ensures IsRun(c, r') && First(r') == First(r)
    ensures |r'.last.procs| == |r.last.procs| && r'.last.cur == r.last.cur - 1
    ensures r'.last.procs[i].Receiver? && r'.last.procs[i].pc == 4 && !Finished(r'.last.procs[i])
  {
    r' := Extended(c, r, i);
    r' := Extended(c, r', i);
    r' := Extended(c, r', i);
    r' := Extended(c, r', i);
  }

  lemma ReceiveBegins(c: Config, r: QueueRun, i: nat) returns (r': QueueRun)
    requires IsRun(c, r) && r.last.slots != [] && r.last.mutex == 1 && r.last.avail > 0
    requires i < |r.last.procs| && r.last.procs[i].Receiver? && r.last.procs[i].pc == 0 && !Finished(r.last.procs[i])
    ensures IsRun(c, r') && First(r') == First(r)
    ensures var s := r.last;
            r'.last == s.(mutex := 0, free := s.free + 1, avail := s.avail - 1,
                          procs := s.procs[i := s.procs[i].(pc := 3)])
  {
    r' := Extended(c, r, i);
    r' := Extended(c, r', i);
    r' := Extended(c, r', i);
  }

  lemma ReceiveEnds(c: Config, r: QueueRun, i: nat) returns (r': QueueRun)
    requires IsRun(c, r) && r.last.slots != [] && r.last.mutex == 0
    requires i < |r.last.procs| && r.last.procs[i].Receiver? && r.last.procs[i].pc == 3 && !Finished(r.last.procs[i])
    ensures IsRun(c, r') && First(r') == First(r)
    ensures var s := r.last;
            var p := s.procs[i];
            r'.last == s.(slots := Slots.Shift(s.slots, s.cur - 1), cur := s.cur - 1, mutex := 1,
                          log := s.log + [Got(i, s.slots[0])],
                          procs := s.procs[i := Receiver(p.left - 1, 0, p.got + [s.slots[0]])])
  {
    r' := Extended(c, r, i);
    r' := Extended(c, r', i);
    r' := Extended(c, r', i);
  }

  // Between calls, with l messages in the array and everything behind them, save the first
  // slot, as it was at the start.
  ghost predicate Level(s: State, l: nat, x: Msg) {
    && Quiescent(s) && s.mutex == 1 && s.cur == s.avail == l <= |s.slots| && s.free == |s.slots| - l
    && s.slots != [] && forall k :: 1 <= k && l <= k < |s.slots| ==> s.slots[k] == x
  }

  lemma SendMore(c: Config, r: QueueRun, i: nat, l: nat, x: Msg) returns (r': QueueRun)
    requires IsRun(c, r) && Level(r.last, l, x) && l < |r.last.slots|
    requires i < |r.last.procs| && r.last.procs[i].Sender? && r.last.procs[i].todo != []
    ensures IsRun(c, r') && First(r') == First(r) && Level(r'.last, l + 1, x)
    ensures |r'.last.slots| == |r.last.slots| && Receives(c, r'.last) == Receives(c, r.last)
    ensures var s := r.last;
            var p := s.procs[i];
            && r'.last.procs == s.procs[i := Sender(p.todo[1..], 0)]
            && r'.last.log == s.log + [Put(i, p.todo[0])]
            && r'.last.slots == Slots.Store(c.fullShift, s.slots, l, p.todo[0])
  {
    var s := r.last;
    r' := SendAlone(c, r, i);
    Slots.StoredBehind(c.fullShift, s.slots, l, s.procs[i].todo[0]);
    TotalUpdate(ToTake(c), s.procs, i, r'.last.procs[i]);
  }

  // The only message is received: the array is as before it was sent, save the first slot.
  lemma TakeOne(c: Config, r: QueueRun, x: Msg) returns (r': QueueRun)
    requires IsRun(c, r) && Level(r.last, 1, x) && Receives(c, r.last) > 0
    ensures IsRun(c, r') && First(r') == First(r) && Level(r'.last, 0, x)
    ensures |r'.last.slots| == |r.last.slots| && Receives(c, r'.last) == Receives(c, r.last) - 1
    ensures |r'.last.procs| == |r.last.procs|
    ensures forall k :: 0 <= k < |r.last.procs| && r.last.procs[k].Sender? ==> r'.last.procs[k] == r.last.procs[k]
  {
    var s := r.last;
    var i := ReceiverExists(c, s.procs);
    r' := ReceiveBegins(c, r, i);
    r' := ReceiveEnds(c, r', i);
    assert r'.last.procs == s.procs[i := r'.last.procs[i]];
    assert r'.last.slots == s.slots;
    TotalUpdate(ToTake(c), s.procs, i, r'.last.procs[i]);
  }

  // Messages are left in the array only when there is no receive to make any more.
  ghost predicate Drained(c: Config, s: State, l: nat, x: Msg) {
    Level(s, l, x) && Receives(c, s) >= 0 && (l > 0 ==> Receives(c, s) == 0)
  }

  // t is s after sender i has sent n messages.
  ghost predicate Sent(s: State, t: State, i: nat, n: nat)
    requires i < |s.procs| && s.procs[i].Sender? && n <= |s.procs[i].todo|
  {
    && |t.slots| == |s.slots| && |t.procs| == |s.procs|
    && t.procs[i] == Sender(s.procs[i].todo[n..], 0)
    && forall k :: 0 <= k < |s.procs| && s.procs[k].Sender? && k != i ==> t.procs[k] == s.procs[k]
  }

  // A message is sent, and received at once if there is still a receive to make.
  lemma SendOne(c: Config, r: QueueRun, i: nat, l: nat, x: Msg) returns (r': QueueRun, l': nat)
    requires IsRun(c, r) && Drained(c, r.last, l, x) && l < |r.last.slots|
    requires i < |r.last.procs| && r.last.procs[i].Sender? && r.last.procs[i].todo != []
    ensures IsRun(c, r') && First(r') == First(r) && Drained(c, r'.last, l', x)
    ensures l' - Receives(c, r'.last) == l + 1 - Receives(c, r.last)
    ensures Sent(r.last, r'.last, i, 1)
  {
    r' := SendMore(c, r, i, l, x);
    l' := l + 1;
    if Receives(c, r.last) > 0 {
      r' := TakeOne(c, r', x);
      l' := 0;
    }
  }

  // Sender i sends n messages, each one received at once as long as there are receives to make.
  lemma {:induction false} SendPrefix(c: Config, r: QueueRun, i: nat, n: nat, l: nat, x: Msg)
    returns (r': QueueRun, l': nat)
    requires IsRun(c, r) && Drained(c, r.last, l, x)
    requires i < |r.last.procs| && r.last.procs[i].Sender? && r.last.procs[i].pc == 0
    requires n <= |r.last.procs[i].todo| && l + n - Receives(c, r.last) < |r.last.slots|
    ensures IsRun(c, r') && First(r') == First(r) && Drained(c, r'.last, l', x)
    ensures l' - Receives(c, r'.last) == l + n - Receives(c, r.last)
    ensures Sent(r.last, r'.last, i, n)
    decreases n
  {
    if n == 0 {
      r', l' := r, l;
    } else {
      r', l' := SendOne(c, r, i, l, x);
      r', l' := SendPrefix(c, r', i, n - 1, l', x);
    }
  }
}
