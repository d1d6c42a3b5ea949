// The count raised after the mutex is released: the systems in which no other call comes
// between a store and its count, so that the contents are right all the same.
module QueueLate {
  import opened Options
  import opened SequentialQueue
  import opened QueueProtocol
  import opened Runs
  import opened QueueTokens
  import opened Totals
  import opened QueueOrder
  import opened QueueRefinement
  import opened QueueRange
  import opened QueueDeadlock
  import opened QueueHistory
  import Slots

  predicate Sending(p: Proc) {
    p.Sender? && !Finished(p)
  }

  // One process at most has anything to send.
  ghost predicate OneSender(s: State) {
    forall i, j :: 0 <= i < |s.procs| && 0 <= j < |s.procs| && Sending(s.procs[i]) && Sending(s.procs[j]) ==> i == j
  }

  // Nobody receives, and one process at most ever gets to raise the count.
  ghost predicate OneCounts(c: Config, s: State) {
    Receives(c, s) == 0 && (|s.slots| == 1 || OneSender(s))
  }

  // The array holds the queue, and the count lags behind it by the store that is not counted.
  ghost predicate Holds(c: Config, s: State) {
    && QueueOf(s).Some?
    && var q := QueueOf(s).value;
    && |q| <= |s.slots| && s.slots[..|q|] == q
    && 0 <= s.cur == |q| - Total(Uncounted(c), s.procs)
  }

  // The others of a single sender are at rest.
  lemma OthersRest(c: Config, r: QueueRun, i: nat, k: nat)
    requires IsRun(c, r) && Initial(First(r)) && OneSender(First(r))
    requires i < |r.last.procs| && Sending(r.last.procs[i])
    requires k < |r.last.procs| && k != i && r.last.procs[k].Sender?
    ensures r.last.procs[k].pc == 0
  {
    ProcsKept(c, r);
    HistoryIsReal(c, r, i);
    HistoryIsReal(c, r, k);
    if Finished(First(r).procs[i]) {
      FinishedStays(c, r, i);
    } else {
      FinishedStays(c, r, k);
    }
  }

  // A store comes when all the others are counted.
  lemma AllCounted(c: Config, r: QueueRun, i: nat)
    requires IsRun(c, r) && Initial(First(r)) && OneCounts(c, First(r)) && Holds(c, r.last)
    requires i < |r.last.procs| && r.last.procs[i].Sender? && r.last.procs[i].pc == 3
    ensures Total(Uncounted(c), r.last.procs) == 0 && r.last.cur < |r.last.slots|
    ensures |r.last.slots| == |First(r).slots|
  {
    var s, surplus := r.last, Sends(First(r)) - Receives(c, First(r));
    CountRun(c, r);
    SlotsKept(c, r);
    RoomForStore(c, s, surplus, s.cur + Total(Uncounted(c), s.procs), i);
    assert NonNegative(Uncounted(c), s.procs);
    TotalAtLeast(Uncounted(c), s.procs);
    if |First(r).slots| > 1 {
      assert ProcOk(s.procs[i]);
      forall k | 0 <= k < |s.procs| ensures Uncounted(c)(s.procs[k]) == 0 {
        if k != i && s.procs[k].Sender? {
          OthersRest(c, r, i, k);
        }
      }
      TotalZero(Uncounted(c), s.procs);
    }
  }

  lemma StoreHolds(c: Config, s: State, i: nat, t: State)
    requires WellFormed(s) && Holds(c, s) && Next(c, s, i, t)
    requires s.procs[i].Sender? && s.procs[i].pc == 3
    requires Total(Uncounted(c), s.procs) == 0 && s.cur < |s.slots|
    requires c.fullShift ||
             forall k :: 0 <= k < |QueueOf(s).value| ==> QueueOf(s).value[k].prio >= s.procs[i].todo[0].prio
    ensures Holds(c, t)
  {
    var q, m := QueueOf(s).value, s.procs[i].todo[0];
    StepCounts(c, s, i, t);
    Extend(|s.slots|, s.log, Put(i, m));
    Slots.StoreInPlace(c.fullShift, s.slots, q, m);
  }

  lemma OtherHolds(c: Config, s: State, i: nat, t: State)
    requires WellFormed(s) && Holds(c, s) && Next(c, s, i, t)
    requires s.procs[i].Sender? && s.procs[i].pc != 3
    ensures Holds(c, t)
  {
    StepCounts(c, s, i, t);
    assert t.log == s.log && t.slots == s.slots && t.cur >= s.cur;
  }

  lemma {:induction false} HoldsRun(c: Config, r: QueueRun)
    requires IsRun(c, r) && Initial(First(r)) && OneCounts(c, First(r)) && StoresInPlace(c, First(r))
    ensures Holds(c, r.last)
  {
    if r.Start? {
      TotalZero(Uncounted(c), r.last.procs);
    } else {
      var s, surplus := r.before.last, Sends(First(r)) - Receives(c, First(r));
      HoldsRun(c, r.before);
      CountRun(c, r.before);
      if s.procs[r.who].Receiver? {
        NoReceiver(c, r.before, r.who);
      } else if s.procs[r.who].pc == 3 {
        AllCounted(c, r.before, r.who);
        if !c.fullShift {
          InPlace(c, r.before, r.who, QueueOf(s).value, surplus);
        }
        StoreHolds(c, s, r.who, r.last);
      } else {
        OtherHolds(c, s, r.who, r.last);
      }
    }
  }

  // Between calls the queue is then what the history says, whatever repairs are in force.
  lemma LateCountFaithful(c: Config, r: QueueRun)
    requires IsRun(c, r) && Initial(First(r)) && Quiescent(r.last)
    requires OneCounts(c, First(r)) && StoresInPlace(c, First(r))
    ensures 0 <= r.last.cur <= |r.last.slots|
    ensures Replay(|r.last.slots|, r.last.log) == Some(r.last.slots[..r.last.cur])
  {
    HoldsRun(c, r);
    TotalZero(Uncounted(c), r.last.procs);
  }
}
