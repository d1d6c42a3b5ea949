// When the count is safe: exactly in which systems no call is ever at the count or the array
// while another one is.
module QueueExclusive {
  import opened QueueProtocol
  import opened Runs
  import opened QueueTokens
  import opened Totals
  import opened QueueDeadlock
  import opened QueueRefinement
  import opened QueueRange
  import opened QueueLate
  import opened QueueRuns
  import Slots

  // At a step that reads or writes the count or the array.
  predicate Touching(c: Config, p: Proc) {
    !Finished(p) && ActionAt(c, p) in {Store, Count, Take, Shift}
  }

  ghost predicate Exclusive(c: Config, s: State) {
    forall i, j :: 0 <= i < |s.procs| && 0 <= j < |s.procs| && Touching(c, s.procs[i]) && Touching(c, s.procs[j]) ==>
      i == j
  }

  // The count is under the mutex, or there is nothing to send, or one process at most ever
  // raises the count and nobody lowers it.
  ghost predicate CountSafe(c: Config, s: State) {
    c.countInside || Sends(s) == 0 || OneCounts(c, s)
  }

  lemma TakeFromCount(c: Config, r: QueueRun, i: nat)
    requires c.countInside && IsRun(c, r) && Initial(First(r))
    requires i < |r.last.procs| && r.last.procs[i].Receiver? && r.last.procs[i].pc == 3
    ensures r.last.cur > 0
  {
    var s, surplus := r.last, Sends(First(r)) - Receives(c, First(r));
    CountRun(c, r);
    Alone(c, s, surplus, i);
    forall k | 0 <= k < |s.procs| ensures Uncounted(c)(s.procs[k]) == 0 {
      assert ProcOk(s.procs[k]);
      assert k == i || !Inside(c, s.procs[k]);
    }
    TotalZero(Uncounted(c), s.procs);
    MessageForTake(c, s, surplus, s.cur, i);
  }

  // Only a take lowers the count.
  lemma CountFalls(c: Config, s: State, i: nat, t: State)
    requires WellFormed(s) && Next(c, s, i, t)
    ensures t.cur >= s.cur - (if s.procs[i].Receiver? && s.procs[i].pc == 3 then 1 else 0)
  {
    assert ProcOk(s.procs[i]);
  }

  lemma {:induction false} CountNotNegative(c: Config, r: QueueRun)
    requires IsRun(c, r) && Initial(First(r)) && CountSafe(c, First(r))
    ensures r.last.cur >= 0
  {
    if r.Start? {
    } else {
      var s, i := r.before.last, r.who;
      CountNotNegative(c, r.before);
      CountRun(c, r.before);
      CountFalls(c, s, i, r.last);
      if s.procs[i].Receiver? && s.procs[i].pc == 3 {
        if c.countInside {
          TakeFromCount(c, r.before, i);
        } else if Sends(First(r)) == 0 {
          IdleRun(c, r.before);
        } else {
          NoReceiver(c, r.before, i);
        }
      }
    }
  }

  // No store and no shift leaves the array.
  lemma NeverOutOfRange(c: Config, r: QueueRun, i: nat)
    requires IsRun(c, r) && Initial(First(r)) && Enabled(c, r.last, i) && CountSafe(c, First(r))
    ensures InRange(c, r.last, i)
    ensures ActionAt(c, r.last.procs[i]) in {Store, Shift} ==> 0 <= r.last.cur < |r.last.slots|
  {
    var p := r.last.procs[i];
    CountRun(c, r);
    CountNotNegative(c, r);
    assert ProcOk(p);
    if p.Sender? && p.pc == 3 {
      StoreInRange(c, r, i);
    } else if p.Receiver? && p.pc == 4 {
      if c.countInside {
        ShiftInRange(c, r, i);
      } else if Sends(First(r)) == 0 {
        IdleRun(c, r);
      } else {
        NoReceiver(c, r, i);
      }
    }
  }

  // One slot and no receiver: one message token at most is ever given, so that one sender at
  // most is past its semaphores.
  lemma OneGiven(c: Config, r: QueueRun)
    requires IsRun(c, r) && Initial(First(r)) && Receives(c, First(r)) == 0 && |First(r).slots| == 1
    ensures Total(Uncounted(c), r.last.procs) + Total(StorePending(), r.last.procs) <= 1
  {
    var s := r.last;
    CountRun(c, r);
    SlotsKept(c, r);
    CountNotNegative(c, r);
    forall k | 0 <= k < |s.procs| ensures TakePending(c)(s.procs[k]) == 0 {
      assert ProcOk(s.procs[k]);
      if s.procs[k].Receiver? {
        NoReceiver(c, r, k);
      }
    }
    TotalZero(TakePending(c), s.procs);
    AllNonNegative(c, s.procs);
    TotalAtLeast(SlotHeld(c), s.procs);
    TotalAtLeast(TokenHeld(c), s.procs);
  }

  lemma TwoGiven(c: Config, ps: seq<Proc>, i: nat, j: nat)
    requires !c.countInside && i < j < |ps| && ps[i].Sender? && ps[j].Sender?
    requires Touching(c, ps[i]) && Touching(c, ps[j]) && ProcOk(ps[i]) && ProcOk(ps[j])
    ensures Total(Uncounted(c), ps) + Total(StorePending(), ps) >= 2
  {
    assert NonNegative(Uncounted(c), ps) && NonNegative(StorePending(), ps);
    assert ps[i].pc in {3, 5} && ps[j].pc in {3, 5};
    TotalAtLeast(Uncounted(c), ps);
    TotalAtLeast(StorePending(), ps);
    TotalTwo(Uncounted(c), ps, i, j);
    TotalTwo(StorePending(), ps, i, j);
  }

  lemma OnlyOne(c: Config, r: QueueRun, i: nat, j: nat)
    requires IsRun(c, r) && Initial(First(r)) && CountSafe(c, First(r))
    requires i < j < |r.last.procs|
    ensures !(Touching(c, r.last.procs[i]) && Touching(c, r.last.procs[j]))
  {
    var s, surplus := r.last, Sends(First(r)) - Receives(c, First(r));
    CountRun(c, r);
    assert ProcOk(s.procs[i]) && ProcOk(s.procs[j]);
    if Touching(c, s.procs[i]) && Touching(c, s.procs[j]) {
      if c.countInside {
        MutualExclusion(c, s, surplus, i, j);
      } else if Sends(First(r)) == 0 {
        IdleRun(c, r);
      } else if s.procs[i].Receiver? {
        NoReceiver(c, r, i);
      } else if s.procs[j].Receiver? {
        NoReceiver(c, r, j);
      } else if |First(r).slots| == 1 {
        OneGiven(c, r);
        TwoGiven(c, s.procs, i, j);
      } else {
        OthersRest(c, r, i, j);
      }
    }
  }

  lemma ExclusiveRun(c: Config, r: QueueRun)
    requires IsRun(c, r) && Initial(First(r)) && CountSafe(c, First(r))
    ensures Exclusive(c, r.last)
  {
    forall i, j | 0 <= i < |r.last.procs| && 0 <= j < |r.last.procs|
      && Touching(c, r.last.procs[i]) && Touching(c, r.last.procs[j])
      ensures i == j
    {
      if i < j {
        OnlyOne(c, r, i, j);
      } else if j < i {
        OnlyOne(c, r, j, i);
      }
    }
  }

  // A first sender stores and releases the mutex, but has not raised the count.
  lemma StoresUncounted(c: Config, r: QueueRun, i: nat) returns (r': QueueRun)
    requires !c.countInside && IsRun(c, r) && Initial(r.last) && i < |r.last.procs| && Sending(r.last.procs[i])
    ensures IsRun(c, r') && First(r') == First(r)
    ensures r'.last.procs == r.last.procs[i := Sender(r.last.procs[i].todo, 5)]
    ensures |r'.last.slots| == |r.last.slots|
    ensures forall k :: 1 <= k < |r.last.slots| ==> r'.last.slots[k] == r.last.slots[k]
    ensures r'.last.cur == 0 && r'.last.mutex == 1 && r'.last.free == |r.last.slots| - 1 && r'.last.avail == 1
  {
    r' := SendBegins(c, r, i);
    r' := SendStores(c, r', i);
    Slots.StoredBehind(c.fullShift, r.last.slots, 0, r.last.procs[i].todo[0]);
  }

  // Another sender or a receiver then comes to the array.
  lemma MeetSender(c: Config, s: State, i: nat, j: nat) returns (r: QueueRun)
    requires !c.countInside && Initial(s) && |s.slots| >= 2
    requires i < |s.procs| && Sending(s.procs[i]) && j < |s.procs| && Sending(s.procs[j]) && i != j
    ensures IsRun(c, r) && First(r) == s && !Exclusive(c, r.last)
  {
    r := StoresUncounted(c, Start(s), i);
    r := SendBegins(c, r, j);
    assert Touching(c, r.last.procs[i]) && Touching(c, r.last.procs[j]);
  }

  lemma MeetReceiver(c: Config, s: State, i: nat, j: nat) returns (r: QueueRun)
    requires !c.countInside && Initial(s) && i < |s.procs| && Sending(s.procs[i])
    requires j < |s.procs| && s.procs[j].Receiver? && !Finished(s.procs[j])
    ensures IsRun(c, r) && First(r) == s && !Exclusive(c, r.last)
  {
    r := StoresUncounted(c, Start(s), i);
    r := ReceiveBegins(c, r, j);
    assert Touching(c, r.last.procs[i]) && Touching(c, r.last.procs[j]);
  }

  lemma SenderExists(c: Config, s: State) returns (i: nat)
    requires Initial(s) && Sends(s) != 0
    ensures i < |s.procs| && Sending(s.procs[i])
  {
    InitialTokens(c, s);
    AllNonNegative(c, s.procs);
    TotalAtLeast(ToGive(), s.procs);
    i := Positive(ToGive(), s.procs);
  }

  // In every run one call at most is at the count or the array, exactly when the count is safe.
  lemma ExclusiveExactly(c: Config, s: State)
    requires Initial(s)
    ensures (forall r: QueueRun :: IsRun(c, r) && First(r) == s ==> Exclusive(c, r.last)) <==> CountSafe(c, s)
  {
    if CountSafe(c, s) {
      forall r: QueueRun | IsRun(c, r) && First(r) == s ensures Exclusive(c, r.last) {
        ExclusiveRun(c, r);
      }
    } else if Receives(c, s) != 0 {
      TakesLeft(c, s);
      var i := SenderExists(c, s);
      var j := ReceiverExists(c, s.procs);
      var r := MeetReceiver(c, s, i, j);
    } else {
      var i, j :| 0 <= i < |s.procs| && 0 <= j < |s.procs| && Sending(s.procs[i]) && Sending(s.procs[j]) && i != j;
      var r := MeetSender(c, s, i, j);
    }
  }
}
