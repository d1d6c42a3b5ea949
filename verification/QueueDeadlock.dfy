// When the processes of a queue can get stuck: exactly, for the lock order as written and
// for the repaired one, whatever the other two repairs.
module QueueDeadlock {
  import opened QueueProtocol
  import opened Runs
  import opened QueueTokens
  import opened Totals

  // h holds the mutex and waits for a token that is not there.
  ghost predicate BlockedInside(c: Config, s: State, h: nat) {
    && h < |s.procs|
    && !Finished(s.procs[h])
    && Inside(c, s.procs[h])
    && ActionAt(c, s.procs[h]) == TakeToken
    && (if s.procs[h].Sender? then s.free == 0 else s.avail == 0)
  }

  // A sender that has released the mutex and has still to raise the count.
  predicate CountPending(c: Config, p: Proc) {
    !c.countInside && p.Sender? && p.pc == 5
  }

  lemma MutexFreeNobodyInside(c: Config, s: State, surplus: int, i: nat)
    requires Tokens(c, s, surplus) && s.mutex > 0 && i < |s.procs|
    ensures !Inside(c, s.procs[i])
  {
    if Inside(c, s.procs[i]) {
      MutualExclusion(c, s, surplus, i, i);
    }
  }

  lemma BlockedIsStuck(c: Config, s: State, surplus: int, h: nat)
    requires !c.tokenFirst && Tokens(c, s, surplus) && BlockedInside(c, s, h)
    requires forall i :: 0 <= i < |s.procs| ==> !CountPending(c, s.procs[i])
    ensures Stuck(c, s) && !AllFinished(s)
  {
    forall i: nat | i < |s.procs| ensures !Enabled(c, s, i) {
      assert ProcOk(s.procs[i]);
      MutualExclusion(c, s, surplus, h, i);
    }
  }

  lemma StuckIsBlocked(c: Config, s: State, surplus: int) returns (h: nat)
    requires !c.tokenFirst && Tokens(c, s, surplus) && Stuck(c, s) && !AllFinished(s)
    ensures BlockedInside(c, s, h)
    ensures forall i :: 0 <= i < |s.procs| ==> !CountPending(c, s.procs[i])
  {
    forall i | 0 <= i < |s.procs| ensures !CountPending(c, s.procs[i]) {
      assert ProcOk(s.procs[i]) && !Enabled(c, s, i);
    }
    var j: nat :| j < |s.procs| && !Finished(s.procs[j]);
    assert !Enabled(c, s, j) && ProcOk(s.procs[j]);
    if s.mutex > 0 {
      MutexFreeNobodyInside(c, s, surplus, j);
    }
    AllNonNegative(c, s.procs);
    TotalAtLeast(Holding(c), s.procs);
    h := Positive(Holding(c), s.procs);
    assert ProcOk(s.procs[h]) && !Enabled(c, s, h);
  }

  // The deadlock of the written lock order: processes are left and none can step exactly when
  // the holder of the mutex waits for a token that is not there and no count is pending.
  lemma DeadlockExactly(c: Config, r: QueueRun)
    requires !c.tokenFirst && IsRun(c, r) && Initial(First(r))
    ensures Stuck(c, r.last) && !AllFinished(r.last) <==>
            && (exists h: nat :: BlockedInside(c, r.last, h))
            && (forall i :: 0 <= i < |r.last.procs| ==> !CountPending(c, r.last.procs[i]))
  {
    var surplus := Sends(First(r)) - Receives(c, First(r));
    InitialTokens(c, First(r));
    TokensRun(c, r, surplus);
    if Stuck(c, r.last) && !AllFinished(r.last) {
      var h := StuckIsBlocked(c, r.last, surplus);
    }
    if h: nat :|
      BlockedInside(c, r.last, h) && forall i :: 0 <= i < |r.last.procs| ==> !CountPending(c, r.last.procs[i])
    {
      BlockedIsStuck(c, r.last, surplus, h);
    }
  }

  // Once the holder waits this way, only pending counts can still run, and they free nobody.
  lemma {:induction false} BlockedForever(c: Config, r: QueueRun, surplus: int, h: nat)
    requires !c.tokenFirst && IsRun(c, r)
    requires Tokens(c, First(r), surplus) && BlockedInside(c, First(r), h)
    ensures BlockedInside(c, r.last, h)
    ensures r.last.procs[h] == First(r).procs[h]
    ensures r.last.slots == First(r).slots && r.last.log == First(r).log
  {
    if r.Start? {
    } else {
      var s, i := r.before.last, r.who;
      BlockedForever(c, r.before, surplus, h);
      TokensRun(c, r.before, surplus);
      MutualExclusion(c, s, surplus, h, i);
      assert ProcOk(s.procs[i]);
    }
  }

  // In the repaired order the holder of the mutex never waits.
  lemma HolderCanStep(c: Config, s: State, h: nat)
    requires c.tokenFirst && WellFormed(s) && h < |s.procs| && Inside(c, s.procs[h])
    ensures Enabled(c, s, h)
  {
    assert ProcOk(s.procs[h]);
  }

  // In a stuck state of the repaired order every call is at its start.
  lemma StuckAtStart(c: Config, s: State, surplus: int)
    requires c.tokenFirst && Tokens(c, s, surplus) && Stuck(c, s)
    ensures Quiescent(s)
    ensures s.free + s.avail == |s.slots|
    ensures forall i :: 0 <= i < |s.procs| && !Finished(s.procs[i]) ==>
              if s.procs[i].Sender? then s.free == 0 else s.avail == 0
  {
    if s.mutex == 0 {
      var h := Positive(Holding(c), s.procs);
      HolderCanStep(c, s, h);
    }
    forall i | 0 <= i < |s.procs| ensures s.procs[i].pc == 0 {
      assert ProcOk(s.procs[i]) && !Enabled(c, s, i);
    }
    TotalZero(SlotHeld(c), s.procs);
    TotalZero(TokenHeld(c), s.procs);
    forall i | 0 <= i < |s.procs| && !Finished(s.procs[i])
      ensures if s.procs[i].Sender? then s.free == 0 else s.avail == 0
    {
      assert !Enabled(c, s, i);
    }
  }

  lemma {:induction false} NoneLeft(c: Config, ps: seq<Proc>, senders: bool)
    requires forall i :: 0 <= i < |ps| ==> ps[i].pc == 0
    ensures (forall i :: 0 <= i < |ps| && ps[i].Sender? == senders ==> Finished(ps[i])) <==>
            Total(if senders then ToGive() else ToTake(c), ps) == 0
    ensures Total(if senders then ToGive() else ToTake(c), ps) >= 0
  {
    if ps == [] {
    } else {
      NoneLeft(c, ps[1..], senders);
      if forall i :: 0 <= i < |ps[1..]| && ps[1..][i].Sender? == senders ==> Finished(ps[1..][i]) {
        forall i | 0 < i < |ps| && ps[i].Sender? == senders ensures Finished(ps[i]) {
          assert ps[i] == ps[1..][i - 1];
        }
      }
    }
  }

  // With a token taken before the mutex, a run that can go no further has finished every call
  // exactly when there are no fewer sends than receives, and at most a queueful more.
  lemma StuckIsFinished(c: Config, s: State, surplus: int)
    requires c.tokenFirst && Tokens(c, s, surplus) && Stuck(c, s)
    ensures AllFinished(s) <==> 0 <= surplus <= |s.slots|
  {
    StuckAtStart(c, s, surplus);
    NoneLeft(c, s.procs, true);
    NoneLeft(c, s.procs, false);
  }

  lemma FinishedSurplus(c: Config, s: State, surplus: int)
    requires Tokens(c, s, surplus) && AllFinished(s)
    ensures s.avail == surplus && s.free == |s.slots| - surplus
    ensures 0 <= surplus <= |s.slots|
    ensures s.mutex == 1
  {
    forall i | 0 <= i < |s.procs| ensures s.procs[i].pc == 0 {
      assert ProcOk(s.procs[i]);
    }
    NoneLeft(c, s.procs, true);
    NoneLeft(c, s.procs, false);
    TotalZero(SlotHeld(c), s.procs);
    TotalZero(TokenHeld(c), s.procs);
    TotalZero(Holding(c), s.procs);
  }

  // Any state can be run until no step is left.
  lemma {:induction false} RunToTheEnd(c: Config, s: State) returns (r: QueueRun)
    requires WellFormed(s)
    ensures IsRun(c, r) && First(r) == s && Stuck(c, r.last)
    decreases Total(StepsLeft(), s.procs)
  {
    r := Start(s);
    if !Stuck(c, s) {
      var i: nat :| Enabled(c, s, i);
      var t := Exec(c, s, i);
      r := Then(r, i, t);
      RunLength(c, r);
      AllNonNegative(c, t.procs);
      TotalAtLeast(StepsLeft(), t.procs);
      var rest := RunToTheEnd(c, t);
      AppendRun(c, r, rest);
      r := Append(r, rest);
    }
  }

  // Some run from s ends with calls left and no step possible.
  ghost predicate CanDeadlock(c: Config, s: State) {
    exists r: QueueRun :: IsRun(c, r) && First(r) == s && Stuck(c, r.last) && !AllFinished(r.last)
  }

  lemma {:induction false} ReceiverExists(c: Config, ps: seq<Proc>) returns (i: nat)
    requires forall i :: 0 <= i < |ps| ==> ps[i].pc == 0
    requires Total(ToTake(c), ps) > 0
    ensures i < |ps| && ps[i].Receiver? && !Finished(ps[i])
  {
    if ps[0].Receiver? && !Finished(ps[0]) {
      i := 0;
    } else {
      i := ReceiverExists(c, ps[1..]);
      i := i + 1;
    }
  }

  // As written, one receiver that comes first is enough.
  lemma ReceiverFirst(c: Config, s: State, i: nat)
    requires !c.tokenFirst && Initial(s)
    requires i < |s.procs| && s.procs[i].Receiver? && !Finished(s.procs[i])
    ensures Enabled(c, s, i) && Stuck(c, Exec(c, s, i)) && !AllFinished(Exec(c, s, i))
    ensures CanDeadlock(c, s)
  {
    var surplus := Sends(s) - Receives(c, s);
    InitialTokens(c, s);
    var t := Exec(c, s, i);
    assert BlockedInside(c, t, i);
    var r := Then(Start(s), i, t);
    assert IsRun(c, r);
    TokensRun(c, r, surplus);
    forall k | 0 <= k < |t.procs| ensures !CountPending(c, t.procs[k]) {
    }
    BlockedIsStuck(c, t, surplus, i);
  }

  // A blocked holder is the only call between its two semaphore operations, if there is one.
  lemma BlockedTokens(c: Config, s: State, surplus: int, h: nat)
    requires !c.tokenFirst && Tokens(c, s, surplus) && BlockedInside(c, s, h)
    ensures s.free + s.avail == |s.slots|
  {
    forall i | 0 <= i < |s.procs| ensures SlotHeld(c)(s.procs[i]) == 0 && TokenHeld(c)(s.procs[i]) == 0 {
      assert ProcOk(s.procs[i]);
      MutualExclusion(c, s, surplus, h, i);
    }
    TotalZero(SlotHeld(c), s.procs);
    TotalZero(TokenHeld(c), s.procs);
  }

  // With no token left to take, the blocked holder is a sender, and no slot is free.
  lemma BlockedSender(c: Config, s: State, surplus: int, h: nat)
    requires !c.tokenFirst && Tokens(c, s, surplus) && BlockedInside(c, s, h)
    requires Total(ToTake(c), s.procs) <= 0
    ensures s.free == 0 && Total(ToGive(), s.procs) > 0
  {
    AllNonNegative(c, s.procs);
    TotalAtLeast(ToTake(c), s.procs);
    TotalAtLeast(ToGive(), s.procs);
    assert ToTake(c)(s.procs[h]) <= 0 && ToGive()(s.procs[h]) <= Total(ToGive(), s.procs);
  }

  // With no receives left a stuck state of the written order has used all the slots.
  lemma NoReceivesStuck(c: Config, s: State, surplus: int)
    requires !c.tokenFirst && Tokens(c, s, surplus) && Total(ToTake(c), s.procs) <= 0
    requires Stuck(c, s) && !AllFinished(s)
    ensures surplus > |s.slots|
  {
    var h := StuckIsBlocked(c, s, surplus);
    BlockedTokens(c, s, surplus, h);
    BlockedSender(c, s, surplus, h);
    TakesLeft(c, s);
  }

  lemma TakesLeft(c: Config, s: State)
    requires WellFormed(s)
    ensures Total(ToTake(c), s.procs) >= 0
  {
    AllNonNegative(c, s.procs);
    TotalAtLeast(ToTake(c), s.procs);
  }

  lemma {:induction false} SlotsKept(c: Config, r: QueueRun)
    requires IsRun(c, r)
    ensures |r.last.slots| == |First(r).slots|
  {
    if r.Start? {
    } else {
      SlotsKept(c, r.before);
    }
  }

  lemma {:induction false} TakesOnlyFall(c: Config, r: QueueRun)
    requires IsRun(c, r) && WellFormed(First(r))
    ensures Total(ToTake(c), r.last.procs) <= Total(ToTake(c), First(r).procs)
  {
    if r.Start? {
    } else {
      TakesOnlyFall(c, r.before);
      RunLength(c, r.before);
      StepProc(c, r.before.last, r.who, r.last);
      TotalUpdate(ToTake(c), r.before.last.procs, r.who, r.last.procs[r.who]);
    }
  }

  // The exact condition, for any number of processes, any calls and any capacity.
  lemma DeadlockPossible(c: Config, s: State)
    requires Initial(s)
    ensures CanDeadlock(c, s) <==>
            if c.tokenFirst then !(Receives(c, s) <= Sends(s) <= Receives(c, s) + |s.slots|)
            else Receives(c, s) > 0 || Sends(s) > |s.slots|
  {
    var surplus := Sends(s) - Receives(c, s);
    InitialTokens(c, s);
    AllNonNegative(c, s.procs);
    TotalAtLeast(ToTake(c), s.procs);
    var e := RunToTheEnd(c, s);
    TokensRun(c, e, surplus);
    SlotsKept(c, e);
    if AllFinished(e.last) {
      FinishedSurplus(c, e.last, surplus);
    }
    if c.tokenFirst {
      StuckIsFinished(c, e.last, surplus);
      forall r | IsRun(c, r) && First(r) == s && Stuck(c, r.last)
        ensures AllFinished(r.last) <==> 0 <= surplus <= |s.slots|
      {
        TokensRun(c, r, surplus);
        SlotsKept(c, r);
        StuckIsFinished(c, r.last, surplus);
      }
    } else if Receives(c, s) > 0 {
      var i := ReceiverExists(c, s.procs);
      ReceiverFirst(c, s, i);
    } else if r :| IsRun(c, r) && First(r) == s && Stuck(c, r.last) && !AllFinished(r.last) {
      TokensRun(c, r, surplus);
      SlotsKept(c, r);
      TakesOnlyFall(c, r);
      NoReceivesStuck(c, r.last, surplus);
    }
  }

  lemma {:induction false} InitialSteps(c: Config, ps: seq<Proc>)
    requires forall i :: 0 <= i < |ps| ==> ps[i].pc == 0
    ensures Total(StepsLeft(), ps) == 6 * (Total(ToGive(), ps) + Total(ToTake(c), ps))
  {
    if ps == [] {
    } else {
      InitialSteps(c, ps[1..]);
    }
  }

  lemma FinishedSteps(s: State)
    requires WellFormed(s) && AllFinished(s)
    ensures Total(StepsLeft(), s.procs) == 0
  {
    forall i | 0 <= i < |s.procs| ensures StepsLeft()(s.procs[i]) == 0 {
      assert ProcOk(s.procs[i]);
    }
    TotalZero(StepsLeft(), s.procs);
  }

  // n sends and n receives with the repaired order: no run is longer than 12 n steps, and one
  // that can go no further has taken them all, finished every call and emptied the queue.
  lemma BalancedRunsFinish(c: Config, r: QueueRun)
    requires c.tokenFirst && IsRun(c, r) && Initial(First(r))
    requires Sends(First(r)) == Receives(c, First(r))
    ensures Steps(r) <= 12 * Sends(First(r))
    ensures Stuck(c, r.last) <==> Steps(r) == 12 * Sends(First(r))
    ensures Stuck(c, r.last) ==> AllFinished(r.last) && r.last.avail == 0 && r.last.free == |r.last.slots|
  {
    InitialTokens(c, First(r));
    TokensRun(c, r, 0);
    RunLength(c, r);
    InitialSteps(c, First(r).procs);
    AllNonNegative(c, r.last.procs);
    TotalAtLeast(StepsLeft(), r.last.procs);
    if Stuck(c, r.last) {
      StuckIsFinished(c, r.last, 0);
      FinishedSurplus(c, r.last, 0);
      FinishedSteps(r.last);
    } else {
      var i: nat :| Enabled(c, r.last, i);
      assert ProcOk(r.last.procs[i]);
      assert StepsLeft()(r.last.procs[i]) > 0;
    }
  }
}
