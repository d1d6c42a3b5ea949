// With the count raised under the mutex and stores in place, every run, in either lock order,
// is a run of the sequential bounded priority queue.
module QueueRefinement {
  import opened Messages
  import opened Options
  import opened SequentialQueue
  import opened QueueProtocol
  import opened Runs
  import opened QueueTokens
  import opened Totals
  import opened QueueOrder
  import Slots

  // How the array and the count represent the queue q. Only the holder of the mutex can be
  // in the middle of a change: stored and not counted, or taken and not shifted.
  ghost predicate Represents(s: State, q: seq<Msg>) {
    && (forall i :: 0 <= i < |s.procs| && s.procs[i].pc == 4 ==>
          if s.procs[i].Sender? then s.cur + 1 == |q| <= |s.slots| && s.slots[..|q|] == q
          else s.cur == |q| < |s.slots| && s.slots[1..|q| + 1] == q)
    && ((forall i :: 0 <= i < |s.procs| ==> s.procs[i].pc != 4) ==>
          s.cur == |q| <= |s.slots| && s.slots[..|q|] == q)
  }

  // The message tokens, given or held, account for the queue.
  ghost predicate Accounts(c: Config, s: State, n: int) {
    n == s.avail + Total(TakePending(c), s.procs) - Total(StorePending(), s.procs)
  }

  function Grown(e: seq<Event>): int {
    if e == [] then 0 else if e[0].Put? then 1 else -1
  }

  lemma StepAccounts(c: Config, s: State, i: nat, t: State)
    requires WellFormed(s) && Next(c, s, i, t)
    ensures t.avail + Total(TakePending(c), t.procs) - Total(StorePending(), t.procs) ==
            s.avail + Total(TakePending(c), s.procs) - Total(StorePending(), s.procs)
            + Grown(Logged(s.procs[i], i, s.slots[0]))
  {
    StepProc(c, s, i, t);
    TotalUpdate(TakePending(c), s.procs, i, t.procs[i]);
    TotalUpdate(StorePending(), s.procs, i, t.procs[i]);
  }

  // While i stores, takes or shifts, nobody else is inside.
  lemma Alone(c: Config, s: State, surplus: int, i: nat)
    requires Tokens(c, s, surplus) && i < |s.procs| && Inside(c, s.procs[i])
    ensures forall k :: 0 <= k < |s.procs| && k != i ==> !Inside(c, s.procs[k])
    ensures forall k :: 0 <= k < |s.procs| && k != i ==> s.procs[k].pc != 3
    ensures forall k :: 0 <= k < |s.procs| && k != i && (c.countInside || s.procs[k].Receiver?) ==> s.procs[k].pc != 4
  {
    forall k | 0 <= k < |s.procs| && k != i ensures !Inside(c, s.procs[k]) {
      MutualExclusion(c, s, surplus, i, k);
    }
  }

  // Receivers past their token operations are past their take, or inside.
  lemma {:induction false} PendingAreHeld(c: Config, ps: seq<Proc>)
    requires forall k :: 0 <= k < |ps| && ps[k].Receiver? ==> ps[k].pc != 3
    ensures Total(TakePending(c), ps) == Total(TokenHeld(c), ps)
  {
    if ps == [] {
    } else {
      PendingAreHeld(c, ps[1..]);
    }
  }

  // A store finds room.
  lemma RoomForStore(c: Config, s: State, surplus: int, n: int, i: nat)
    requires Tokens(c, s, surplus) && Accounts(c, s, n)
    requires i < |s.procs| && s.procs[i].Sender? && s.procs[i].pc == 3
    ensures n < |s.slots|
  {
    Alone(c, s, surplus, i);
    TotalSingle(StorePending(), s.procs, i);
    PendingAreHeld(c, s.procs);
    AllNonNegative(c, s.procs);
    TotalAtLeast(SlotHeld(c), s.procs);
  }

  // A take finds a message.
  lemma MessageForTake(c: Config, s: State, surplus: int, n: int, i: nat)
    requires Tokens(c, s, surplus) && Accounts(c, s, n)
    requires i < |s.procs| && s.procs[i].Receiver? && s.procs[i].pc == 3
    ensures n > 0
  {
    Alone(c, s, surplus, i);
    TotalZero(StorePending(), s.procs);
    AllNonNegative(c, s.procs);
    TotalAtLeast(TakePending(c), s.procs);
    assert TakePending(c)(s.procs[i]) == 1;
  }

  lemma StoreStep(c: Config, s: State, i: nat, t: State, q: seq<Msg>)
    requires c.countInside && WellFormed(s) && Next(c, s, i, t)
    requires s.procs[i].Sender? && s.procs[i].pc == 3
    requires forall k :: 0 <= k < |s.procs| ==> s.procs[k].pc != 4
    requires Represents(s, q) && |q| < |s.slots|
    requires c.fullShift || forall k :: 0 <= k < |q| ==> q[k].prio >= s.procs[i].todo[0].prio
    ensures Represents(t, Insert(q, s.procs[i].todo[0]))
  {
    Slots.StoreInPlace(c.fullShift, s.slots, q, s.procs[i].todo[0]);
    assert t.procs[i].pc == 4;
  }

  lemma TakeStep(c: Config, s: State, i: nat, t: State, q: seq<Msg>)
    requires c.countInside && WellFormed(s) && Next(c, s, i, t)
    requires s.procs[i].Receiver? && s.procs[i].pc == 3
    requires forall k :: 0 <= k < |s.procs| ==> s.procs[k].pc != 4
    requires Represents(s, q) && q != []
    ensures s.slots[0] == q[0] && Represents(t, q[1..])
  {
    assert s.slots[..|q|][0] == q[0];
    assert s.slots[1..|q|] == q[1..];
    assert t.procs[i].pc == 4;
  }

  lemma CountOrShiftStep(c: Config, s: State, i: nat, t: State, q: seq<Msg>)
    requires c.countInside && WellFormed(s) && Next(c, s, i, t)
    requires s.procs[i].pc == 4
    requires forall k :: 0 <= k < |s.procs| && k != i ==> s.procs[k].pc != 4
    requires Represents(s, q)
    ensures Represents(t, q)
  {
    if s.procs[i].Receiver? {
      Slots.ShiftDropsHead(s.slots, s.cur);
    }
  }

  lemma OtherStep(c: Config, s: State, i: nat, t: State, q: seq<Msg>)
    requires c.countInside && WellFormed(s) && Next(c, s, i, t)
    requires s.procs[i].pc !in {3, 4}
    requires Represents(s, q)
    ensures Represents(t, q)
  {
    assert ProcOk(s.procs[i]);
    assert t.slots == s.slots && t.cur == s.cur;
    forall k | 0 <= k < |s.procs| ensures s.procs[k].pc == 4 <==> t.procs[k].pc == 4 {
    }
  }

  // The queue that the history leaves, if it is a history of one.
  function QueueOf(s: State): Option<seq<Msg>> {
    Replay(|s.slots|, s.log)
  }

  // The invariant: the history is legal and the segment represents the queue it leaves.
  ghost predicate Refines(c: Config, s: State) {
    && QueueOf(s).Some?
    && Represents(s, QueueOf(s).value)
    && Accounts(c, s, |QueueOf(s).value|)
  }

  // A store is an insertion and a take a removal of the abstract queue, and the other steps
  // leave it alone.
  lemma RefinesStep(c: Config, s: State, i: nat, t: State, surplus: int)
    requires c.countInside && Tokens(c, s, surplus)
    requires Refines(c, s) && Next(c, s, i, t)
    requires !c.fullShift && s.procs[i].Sender? && s.procs[i].pc == 3 ==>
               forall k :: 0 <= k < |QueueOf(s).value| ==> QueueOf(s).value[k].prio >= s.procs[i].todo[0].prio
    ensures Refines(c, t)
    ensures var q := QueueOf(s).value;
            if s.procs[i].pc != 3 then QueueOf(t) == QueueOf(s)
            else if s.procs[i].Sender? then
              && |q| < |s.slots|
              && QueueOf(t) == Some(Insert(q, s.procs[i].todo[0]))
            else
              && q != []
              && t.procs[i].got == s.procs[i].got + [q[0]]
              && QueueOf(t) == Some(q[1..])
  {
    var q := QueueOf(s).value;
    StepProc(c, s, i, t);
    StepAccounts(c, s, i, t);
    if s.procs[i].pc == 3 {
      Alone(c, s, surplus, i);
      Extend(|s.slots|, s.log, Logged(s.procs[i], i, s.slots[0])[0]);
      assert t.log == s.log + [Logged(s.procs[i], i, s.slots[0])[0]];
      if s.procs[i].Sender? {
        RoomForStore(c, s, surplus, |q|, i);
        StoreStep(c, s, i, t, q);
      } else {
        MessageForTake(c, s, surplus, |q|, i);
        TakeStep(c, s, i, t, q);
      }
    } else {
      assert t.log == s.log;
      if s.procs[i].pc == 4 {
        Alone(c, s, surplus, i);
        CountOrShiftStep(c, s, i, t, q);
      } else {
        OtherStep(c, s, i, t, q);
      }
    }
  }

  // The message of a sender about to store goes last, unless the shift is full.
  lemma InPlace(c: Config, r: QueueRun, i: nat, q: seq<Msg>, surplus: int)
    requires IsRun(c, r) && Initial(First(r)) && StoresInPlace(c, First(r))
    requires Tokens(c, r.last, surplus) && Accounts(c, r.last, |q|)
    requires Replay(|First(r).slots|, r.last.log) == Some(q) && |First(r).slots| == |r.last.slots|
    requires i < |r.last.procs| && r.last.procs[i].Sender? && r.last.procs[i].pc == 3 && !c.fullShift
    ensures forall k :: 0 <= k < |q| ==> q[k].prio >= r.last.procs[i].todo[0].prio
  {
    assert ProcOk(r.last.procs[i]);
    RoomForStore(c, r.last, surplus, |q|, i);
    GoesLast(c, r, i, q);
  }

  // Every run refines the sequential bounded priority queue.
  lemma {:induction false} RunRefines(c: Config, r: QueueRun)
    requires c.countInside && IsRun(c, r) && Initial(First(r)) && StoresInPlace(c, First(r))
    ensures |r.last.slots| == |First(r).slots| && Refines(c, r.last)
  {
    if r.Start? {
      TotalZero(TakePending(c), r.last.procs);
      TotalZero(StorePending(), r.last.procs);
    } else {
      var s, surplus := r.before.last, Sends(First(r)) - Receives(c, First(r));
      RunRefines(c, r.before);
      InitialTokens(c, First(r));
      TokensRun(c, r.before, surplus);
      if !c.fullShift && s.procs[r.who].Sender? && s.procs[r.who].pc == 3 {
        InPlace(c, r.before, r.who, QueueOf(s).value, surplus);
      }
      RefinesStep(c, s, r.who, r.last, surplus);
    }
  }
}
