// With whole steps: how far the count lags behind the stores, whatever the shift does with the
// contents, and where a store or a shift finds it within the array.
module QueueRange {
  import opened QueueProtocol
  import opened Runs
  import opened QueueTokens
  import opened Totals
  import opened QueueDeadlock
  import opened QueueHistory
  import opened QueueRefinement

  // A sender that has stored and has still to raise the count.
  function Uncounted(c: Config): Proc -> int {
    (p: Proc) => if p.Sender? && (p.pc == 4 || (p.pc == 5 && !c.countInside)) then 1 else 0
  }

  // The count lags behind the stores by those that are not counted.
  lemma StepCounts(c: Config, s: State, i: nat, t: State)
    requires WellFormed(s) && Next(c, s, i, t)
    ensures t.cur + Total(Uncounted(c), t.procs) ==
            s.cur + Total(Uncounted(c), s.procs) + Grown(Logged(s.procs[i], i, s.slots[0]))
  {
    StepProc(c, s, i, t);
    TotalUpdate(Uncounted(c), s.procs, i, t.procs[i]);
  }

  // A receiver that has given its slot token and is still inside: the token is free, or held by
  // a sender that cannot come in.
  ghost predicate SlotGiven(c: Config, s: State) {
    forall i :: 0 <= i < |s.procs| && s.procs[i].Receiver? && s.procs[i].pc >= 3 ==>
      s.free + Total(SlotHeld(c), s.procs) >= 1
  }

  lemma SlotGivenStep(c: Config, s: State, w: nat, t: State, surplus: int)
    requires Tokens(c, s, surplus) && SlotGiven(c, s) && Next(c, s, w, t)
    ensures SlotGiven(c, t)
  {
    StepProc(c, s, w, t);
    TotalUpdate(SlotHeld(c), s.procs, w, t.procs[w]);
    AllNonNegative(c, s.procs);
    TotalAtLeast(SlotHeld(c), s.procs);
    AllNonNegative(c, t.procs);
    TotalAtLeast(SlotHeld(c), t.procs);
    forall i | 0 <= i < |t.procs| && t.procs[i].Receiver? && t.procs[i].pc >= 3
      ensures t.free + Total(SlotHeld(c), t.procs) >= 1
    {
      assert ProcOk(s.procs[i]) && ProcOk(t.procs[i]);
      if i != w {
        MutualExclusion(c, s, surplus, i, w);
      }
    }
  }

  ghost predicate CountOk(c: Config, s: State) {
    Accounts(c, s, s.cur + Total(Uncounted(c), s.procs)) && SlotGiven(c, s)
  }

  lemma {:induction false} CountRun(c: Config, r: QueueRun)
    requires IsRun(c, r) && Initial(First(r))
    ensures CountOk(c, r.last) && Tokens(c, r.last, Sends(First(r)) - Receives(c, First(r)))
  {
    var surplus := Sends(First(r)) - Receives(c, First(r));
    InitialTokens(c, First(r));
    TokensRun(c, r, surplus);
    if r.Start? {
      TotalZero(Uncounted(c), r.last.procs);
      TotalZero(TakePending(c), r.last.procs);
      TotalZero(StorePending(), r.last.procs);
    } else {
      CountRun(c, r.before);
      StepCounts(c, r.before.last, r.who, r.last);
      StepAccounts(c, r.before.last, r.who, r.last);
      SlotGivenStep(c, r.before.last, r.who, r.last, surplus);
    }
  }

  // While nobody holds the mutex, the message semaphore, with the tokens that waiting receivers
  // have taken from it, is the count with the stores not yet counted, and the other semaphore
  // is the rest of the slots. With the count under the mutex nothing is uncounted, and with the
  // written lock order nobody waits with a token.
  lemma SemaphoresCountTheQueue(c: Config, r: QueueRun)
    requires IsRun(c, r) && Initial(First(r)) && r.last.mutex > 0
    ensures var s := r.last;
            && s.avail + Total(TokenHeld(c), s.procs) == s.cur + Total(Uncounted(c), s.procs)
            && s.free + Total(SlotHeld(c), s.procs) == |s.slots| - s.cur - Total(Uncounted(c), s.procs)
            && (c.countInside ==> Total(Uncounted(c), s.procs) == 0)
            && (!c.tokenFirst ==> Total(TokenHeld(c), s.procs) == Total(SlotHeld(c), s.procs) == 0)
  {
    var s, surplus := r.last, Sends(First(r)) - Receives(c, First(r));
    CountRun(c, r);
    forall i | 0 <= i < |s.procs| ensures !Inside(c, s.procs[i]) {
      MutexFreeNobodyInside(c, s, surplus, i);
    }
    TotalZero(StorePending(), s.procs);
    PendingAreHeld(c, s.procs);
    if c.countInside {
      TotalZero(Uncounted(c), s.procs);
    }
    if !c.tokenFirst {
      TotalZero(TokenHeld(c), s.procs);
      TotalZero(SlotHeld(c), s.procs);
    }
  }

  // A whole store is never out of range: the count can only be too low.
  lemma StoreInRange(c: Config, r: QueueRun, i: nat)
    requires IsRun(c, r) && Initial(First(r)) && i < |r.last.procs|
    requires r.last.procs[i].Sender? && r.last.procs[i].pc == 3
    ensures r.last.cur < |r.last.slots|
  {
    var s, surplus := r.last, Sends(First(r)) - Receives(c, First(r));
    CountRun(c, r);
    RoomForStore(c, s, surplus, s.cur + Total(Uncounted(c), s.procs), i);
    assert NonNegative(Uncounted(c), s.procs);
    TotalAtLeast(Uncounted(c), s.procs);
  }

  // Neither is a shift, with the count raised under the mutex.
  lemma ShiftInRange(c: Config, r: QueueRun, i: nat)
    requires c.countInside && IsRun(c, r) && Initial(First(r)) && i < |r.last.procs|
    requires r.last.procs[i].Receiver? && r.last.procs[i].pc == 4
    ensures 0 <= r.last.cur < |r.last.slots|
  {
    var s, surplus := r.last, Sends(First(r)) - Receives(c, First(r));
    CountRun(c, r);
    Alone(c, s, surplus, i);
    TotalZero(Uncounted(c), s.procs);
    TotalZero(StorePending(), s.procs);
    PendingAreHeld(c, s.procs);
    AllNonNegative(c, s.procs);
    TotalAtLeast(TokenHeld(c), s.procs);
  }

  // Without sends there is no message token, so no receiver ever gets to its shift.
  ghost predicate Idle(c: Config, s: State) {
    && s.avail == 0 && s.cur == 0 && s.log == []
    && forall i :: 0 <= i < |s.procs| ==>
         if s.procs[i].Sender? then Finished(s.procs[i]) else !TookToken(c, s.procs[i])
  }

  lemma {:induction false} IdleRun(c: Config, r: QueueRun)
    requires IsRun(c, r) && Initial(First(r)) && Sends(First(r)) == 0
    ensures Idle(c, r.last)
  {
    if r.Start? {
      NoneLeft(c, r.last.procs, true);
    } else {
      IdleRun(c, r.before);
    }
  }

  lemma {:induction false} FinishedStays(c: Config, r: QueueRun, i: nat)
    requires IsRun(c, r) && i < |First(r).procs| && Finished(First(r).procs[i])
    ensures i < |r.last.procs| && r.last.procs[i] == First(r).procs[i]
  {
    if r.Start? {
    } else {
      FinishedStays(c, r.before, i);
      StepMoves(c, r.before.last, r.who, r.last);
    }
  }

  // Without receives there is no shift.
  lemma NoReceiver(c: Config, r: QueueRun, i: nat)
    requires IsRun(c, r) && Initial(First(r)) && Receives(c, First(r)) == 0
    requires i < |r.last.procs| && r.last.procs[i].Receiver?
    ensures Finished(r.last.procs[i])
  {
    ProcsKept(c, r);
    HistoryIsReal(c, r, i);
    NoneLeft(c, First(r).procs, false);
    FinishedStays(c, r, i);
  }
}
