// Progress does not depend on how the accesses to the count are taken apart: the semaphores count
// the same, and the same systems can get stuck.
module QueueProgress {
  import opened QueueProtocol
  import opened Runs
  import opened QueueTokens
  import opened Totals
  import opened QueueDeadlock
  import opened QueueRange
  import opened QueueSplit
  import opened QueueExpand

  // But for the count and the array, the last part of a step is the step.
  lemma PartOrStep(c: Config, f: Split, w: nat, g: Split)
    requires SplitNext(c, f, w, g)
    ensures if Completes(c, f, w) then
              Next(c, f.s, w, Exec(c, f.s, w)) && g.s == Exec(c, f.s, w).(slots := g.s.slots, cur := g.s.cur)
            else g.s == f.s.(slots := g.s.slots)
    ensures |g.s.slots| == |f.s.slots|
  {
  }

  lemma SplitStepTokens(c: Config, f: Split, w: nat, g: Split, surplus: int)
    requires SplitNext(c, f, w, g) && Tokens(c, f.s, surplus)
    ensures Tokens(c, g.s, surplus) && Total(ToTake(c), g.s.procs) <= Total(ToTake(c), f.s.procs)
  {
    PartOrStep(c, f, w, g);
    if Completes(c, f, w) {
      var t := Exec(c, f.s, w);
      var r := Then(Start(f.s), w, t);
      assert IsRun(c, r.before) && IsRun(c, r);
      TokensRun(c, r, surplus);
      TakesOnlyFall(c, r);
    }
  }

  // The token equations hold in every run of the split steps.
  lemma {:induction false} SplitTokens(c: Config, fr: SplitRun, surplus: int)
    requires IsSplitRun(c, fr) && Tokens(c, First(fr).s, surplus)
    ensures Tokens(c, fr.last.s, surplus) && |fr.last.s.slots| == |First(fr).s.slots|
    ensures Total(ToTake(c), fr.last.s.procs) <= Total(ToTake(c), First(fr).s.procs)
  {
    if fr.Start? {
    } else {
      SplitTokens(c, fr.before, surplus);
      PartOrStep(c, fr.before.last, fr.who, fr.last);
      SplitStepTokens(c, fr.before.last, fr.who, fr.last, surplus);
    }
  }

  // A whole step, in range or not.
  lemma ExecAlone(c: Config, fr: SplitRun, w: nat) returns (fr': SplitRun)
    requires IsSplitRun(c, fr) && fr.last == AtRest(fr.last.s) && fr.last.s.slots != []
    requires Enabled(c, fr.last.s, w)
    requires ActionAt(c, fr.last.s.procs[w]) == Store ==> fr.last.s.cur < |fr.last.s.slots|
    ensures IsSplitRun(c, fr') && First(fr') == First(fr) && fr'.last == AtRest(Exec(c, fr.last.s, w))
  {
    var f := fr.last;
    if ActionAt(c, f.s.procs[w]) == Shift && !InRange(c, f.s, w) {
      fr' := SplitExtended(c, fr, w);
      fr' := SplitExtended(c, fr', w);
      assert fr'.last.at == f.at;
    } else {
      fr' := StepAlone(c, fr, w);
    }
  }

  lemma FewerLeft(c: Config, r: QueueRun, w: nat)
    requires IsRun(c, r) && Initial(First(r)) && r.last.slots != [] && Enabled(c, r.last, w)
    ensures var next := Then(r, w, Exec(c, r.last, w));
            && IsRun(c, next)
            && 0 <= Total(StepsLeft(), next.last.procs) < Total(StepsLeft(), r.last.procs)
    ensures ActionAt(c, r.last.procs[w]) == Store ==> r.last.cur < |r.last.slots|
  {
    var next := Then(r, w, Exec(c, r.last, w));
    RunLength(c, r);
    RunLength(c, next);
    AllNonNegative(c, next.last.procs);
    TotalAtLeast(StepsLeft(), next.last.procs);
    assert ProcOk(r.last.procs[w]);
    if ActionAt(c, r.last.procs[w]) == Store {
      StoreInRange(c, r, w);
    }
  }

  // r is the run of whole steps that fr has made.
  lemma {:induction false} SplitToTheEnd(c: Config, fr: SplitRun, r: QueueRun) returns (fr': SplitRun)
    requires IsSplitRun(c, fr) && fr.last == AtRest(fr.last.s)
    requires IsRun(c, r) && Initial(First(r)) && r.last == fr.last.s
    ensures IsSplitRun(c, fr') && First(fr') == First(fr) && Stuck(c, fr'.last.s)
    decreases Total(StepsLeft(), r.last.procs)
  {
    RunLength(c, r);
    if Stuck(c, r.last) {
      fr' := fr;
    } else {
      var w: nat :| Enabled(c, r.last, w);
      FewerLeft(c, r, w);
      fr' := ExecAlone(c, fr, w);
      fr' := SplitToTheEnd(c, fr', Then(r, w, Exec(c, r.last, w)));
    }
  }

  ghost predicate SplitCanDeadlock(c: Config, s: State) {
    exists fr: SplitRun ::
      IsSplitRun(c, fr) && First(fr) == AtRest(s) && Stuck(c, fr.last.s) && !AllFinished(fr.last.s)
  }

  lemma SplitReceiverFirst(c: Config, s: State)
    requires !c.tokenFirst && Initial(s) && Receives(c, s) > 0
    ensures SplitCanDeadlock(c, s)
  {
    var i := ReceiverExists(c, s.procs);
    ReceiverFirst(c, s, i);
    var fr := ExecAlone(c, Start(AtRest(s)), i);
  }

  // The systems that can get stuck are the same.
  lemma SplitDeadlockPossible(c: Config, s: State)
    requires Initial(s)
    ensures SplitCanDeadlock(c, s) <==>
            if c.tokenFirst then !(Receives(c, s) <= Sends(s) <= Receives(c, s) + |s.slots|)
            else Receives(c, s) > 0 || Sends(s) > |s.slots|
  {
    var surplus := Sends(s) - Receives(c, s);
    InitialTokens(c, s);
    TakesLeft(c, s);
    var e := SplitToTheEnd(c, Start(AtRest(s)), Start(s));
    SplitTokens(c, e, surplus);
    if AllFinished(e.last.s) {
      FinishedSurplus(c, e.last.s, surplus);
    }
    forall fr: SplitRun |
      IsSplitRun(c, fr) && First(fr) == AtRest(s) && Stuck(c, fr.last.s) && !AllFinished(fr.last.s)
      ensures if c.tokenFirst then !(0 <= surplus <= |s.slots|) else Receives(c, s) > 0 || surplus > |s.slots|
    {
      SplitTokens(c, fr, surplus);
      if c.tokenFirst {
        StuckIsFinished(c, fr.last.s, surplus);
      } else if Receives(c, s) <= 0 {
        NoReceivesStuck(c, fr.last.s, surplus);
      }
    }
    if !c.tokenFirst && Receives(c, s) > 0 {
      SplitReceiverFirst(c, s);
    }
  }
}
