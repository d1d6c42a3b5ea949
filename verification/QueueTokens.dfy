// What the three semaphores count, in every reachable state and under every combination
// of repairs.
module QueueTokens {
  import opened QueueProtocol
  import opened Runs
  import opened Totals

  // Whether a call holds the mutex after pc of its steps.
  predicate Inside(c: Config, p: Proc) {
    (if c.tokenFirst then 2 else 1) <= p.pc <= (if p.Receiver? || c.countInside then 5 else 4)
  }

  predicate TookToken(c: Config, p: Proc) {
    (if c.tokenFirst then 1 else 2) <= p.pc
  }

  // Quantities to be totalled over all processes.

  // Holds the mutex.
  function Holding(c: Config): Proc -> int {
    (p: Proc) => if Inside(c, p) then 1 else 0
  }

  // A sender between its two semaphore operations.
  function SlotHeld(c: Config): Proc -> int {
    (p: Proc) => if p.Sender? && TookToken(c, p) && p.pc <= 2 then 1 else 0
  }

  // A receiver between its two semaphore operations.
  function TokenHeld(c: Config): Proc -> int {
    (p: Proc) => if p.Receiver? && TookToken(c, p) && p.pc <= 2 then 1 else 0
  }

  // A sender that has given its message token and not yet stored.
  function StorePending(): Proc -> int {
    (p: Proc) => if p.Sender? && p.pc == 3 then 1 else 0
  }

  // A receiver that has its message token and has not yet taken its message.
  function TakePending(c: Config): Proc -> int {
    (p: Proc) => if p.Receiver? && TookToken(c, p) && p.pc <= 3 then 1 else 0
  }

  // Message tokens a sender has still to give.
  function ToGive(): Proc -> int {
    (p: Proc) => if p.Sender? then |p.todo| - (if p.pc > 2 then 1 else 0) else 0
  }

  // Message tokens a receiver has still to take.
  function ToTake(c: Config): Proc -> int {
    (p: Proc) => if p.Receiver? then p.left - (if TookToken(c, p) then 1 else 0) else 0
  }

  // Steps still to be made.
  function StepsLeft(): Proc -> int {
    (p: Proc) => 6 * (if p.Sender? then |p.todo| else p.left) - p.pc
  }

  // No quantity is negative.
  lemma AllNonNegative(c: Config, ps: seq<Proc>)
    requires forall k :: 0 <= k < |ps| ==> ProcOk(ps[k])
    ensures NonNegative(Holding(c), ps) && NonNegative(SlotHeld(c), ps) && NonNegative(TokenHeld(c), ps)
    ensures NonNegative(TakePending(c), ps) && NonNegative(ToGive(), ps) && NonNegative(ToTake(c), ps)
    ensures NonNegative(StepsLeft(), ps)
  {
    forall k | 0 <= k < |ps| ensures ToGive()(ps[k]) >= 0 && ToTake(c)(ps[k]) >= 0 && StepsLeft()(ps[k]) >= 0 {
      assert ProcOk(ps[k]);
    }
  }

  // The token equations. `surplus` is the number of sends minus the number of receives that
  // the whole system makes.
  ghost predicate Tokens(c: Config, s: State, surplus: int) {
    && WellFormed(s)
    && s.mutex + Total(Holding(c), s.procs) == 1
    && s.free + s.avail + Total(SlotHeld(c), s.procs) + Total(TokenHeld(c), s.procs) == |s.slots|
    && s.avail + Total(ToGive(), s.procs) - Total(ToTake(c), s.procs) == surplus
  }

  function Sends(s: State): int { Total(ToGive(), s.procs) }

  function Receives(c: Config, s: State): int { Total(ToTake(c), s.procs) }

  lemma InitialTokens(c: Config, s: State)
    requires Initial(s)
    ensures Tokens(c, s, Sends(s) - Receives(c, s))
  {
    TotalZero(Holding(c), s.procs);
    TotalZero(SlotHeld(c), s.procs);
    TotalZero(TokenHeld(c), s.procs);
  }

  // What a step does to the processes and to the history, whatever it does to the segment.
  ghost predicate Moves(s: State, i: nat, t: State) {
    && s.slots != []
    && i < |s.procs|
    && !Finished(s.procs[i])
    && t.procs == s.procs[i := NextProc(s.procs[i], s.slots[0])]
    && t.log == s.log + Logged(s.procs[i], i, s.slots[0])
    && |t.slots| == |s.slots|
  }

  lemma StepMoves(c: Config, s: State, i: nat, t: State)
    requires Next(c, s, i, t)
    ensures Moves(s, i, t)
  {
  }

  lemma MovesWellFormed(s: State, i: nat, t: State)
    requires WellFormed(s) && Moves(s, i, t)
    ensures WellFormed(t)
    ensures StepsLeft()(t.procs[i]) == StepsLeft()(s.procs[i]) - 1
  {
    assert ProcOk(s.procs[i]) && ProcOk(t.procs[i]);
    forall k | 0 <= k < |t.procs| ensures ProcOk(t.procs[k]) {
      assert k == i || t.procs[k] == s.procs[k];
    }
  }

  lemma StepProc(c: Config, s: State, i: nat, t: State)
    requires WellFormed(s) && Next(c, s, i, t)
    ensures Moves(s, i, t) && WellFormed(t)
    ensures StepsLeft()(t.procs[i]) == StepsLeft()(s.procs[i]) - 1
  {
    StepMoves(c, s, i, t);
    MovesWellFormed(s, i, t);
  }

  lemma StepHolding(c: Config, s: State, i: nat, t: State)
    requires WellFormed(s) && Next(c, s, i, t)
    ensures t.mutex + Total(Holding(c), t.procs) == s.mutex + Total(Holding(c), s.procs)
  {
    StepProc(c, s, i, t);
    TotalUpdate(Holding(c), s.procs, i, t.procs[i]);
  }

  lemma StepTokens(c: Config, s: State, i: nat, t: State)
    requires WellFormed(s) && Next(c, s, i, t)
    ensures t.free + t.avail + Total(SlotHeld(c), t.procs) + Total(TokenHeld(c), t.procs) ==
            s.free + s.avail + Total(SlotHeld(c), s.procs) + Total(TokenHeld(c), s.procs)
  {
    StepProc(c, s, i, t);
    TotalUpdate(SlotHeld(c), s.procs, i, t.procs[i]);
    TotalUpdate(TokenHeld(c), s.procs, i, t.procs[i]);
  }

  lemma StepSurplus(c: Config, s: State, i: nat, t: State)
    requires WellFormed(s) && Next(c, s, i, t)
    ensures t.avail + Total(ToGive(), t.procs) - Total(ToTake(c), t.procs) ==
            s.avail + Total(ToGive(), s.procs) - Total(ToTake(c), s.procs)
  {
    StepProc(c, s, i, t);
    TotalUpdate(ToGive(), s.procs, i, t.procs[i]);
    TotalUpdate(ToTake(c), s.procs, i, t.procs[i]);
  }

  // The token equations hold in every reachable state.
  lemma {:induction false} TokensRun(c: Config, r: QueueRun, surplus: int)
    requires IsRun(c, r) && Tokens(c, First(r), surplus)
    ensures Tokens(c, r.last, surplus)
  {
    if r.Start? {
    } else {
      TokensRun(c, r.before, surplus);
      StepProc(c, r.before.last, r.who, r.last);
      StepHolding(c, r.before.last, r.who, r.last);
      StepTokens(c, r.before.last, r.who, r.last);
      StepSurplus(c, r.before.last, r.who, r.last);
    }
  }

  // At most one process holds the mutex, and none does while its semaphore is free.
  lemma MutualExclusion(c: Config, s: State, surplus: int, i: nat, j: nat)
    requires Tokens(c, s, surplus)
    requires i < |s.procs| && Inside(c, s.procs[i])
    ensures s.mutex == 0
    ensures j < |s.procs| && Inside(c, s.procs[j]) ==> i == j
  {
    AllNonNegative(c, s.procs);
    TotalAtLeast(Holding(c), s.procs);
    if j < |s.procs| && Inside(c, s.procs[j]) {
      if i < j {
        TotalTwo(Holding(c), s.procs, i, j);
      } else if j < i {
        TotalTwo(Holding(c), s.procs, j, i);
      }
    }
  }

  // Every step lowers the number of steps left by one, so a run has a length fixed by its ends.
  lemma {:induction false} RunLength(c: Config, r: QueueRun)
    requires IsRun(c, r) && WellFormed(First(r))
    ensures WellFormed(r.last)
    ensures Total(StepsLeft(), r.last.procs) + Steps(r) == Total(StepsLeft(), First(r).procs)
  {
    if r.Start? {
    } else {
      RunLength(c, r.before);
      StepProc(c, r.before.last, r.who, r.last);
      TotalUpdate(StepsLeft(), r.before.last.procs, r.who, r.last.procs[r.who]);
    }
  }
}
