// Systems that only send, with the count raised outside the mutex: how far a count that is
// written back late can fall behind one that a store has already tested.
module QueueOnlySends {
  import opened QueueProtocol
  import opened Runs
  import opened QueueTokens
  import opened Totals
  import opened QueueDeadlock
  import opened QueueRefinement
  import opened QueueRange
  import opened QueueLate
  import opened QueueSplit
  import opened QueueReduce

  // The first position from which a move has too few messages once the count has gone back to 1.
  function Far(c: Config): nat {
    if c.fullShift then 2 else 1
  }

  // The stores whose count has been raised.
  function Done(c: Config, s: State): int {
    s.avail + Total(TakePending(c), s.procs) - Total(StorePending(), s.procs) - Total(Uncounted(c), s.procs)
  }

  // The number of stores that can come before one that is under way.
  function Room(s: State, sends: int): int {
    (if |s.slots| < sends then |s.slots| else sends) - 1
  }

  // How far a process has come that is in the middle of a store or of a count.
  ghost predicate Fits(c: Config, s: State, p: Proc, place: Place) {
    match place
    case Rest => true
    case Searching(i) => Storing(p) && i <= Done(c, s)
    case Testing(i) => Storing(p) && i <= Done(c, s)
    case Moving(i) => Storing(p) && i < Done(c, s)
    case Placing(i) => Storing(p) && i <= Done(c, s)
    case Loaded(n) => Sending(p) && p.pc == 5 && 0 <= n <= Done(c, s)
    case Sizing(_) => false
  }

  // Nobody receives, and the count is at least 1 once a store has been counted, and never more
  // than those.
  ghost predicate Low(c: Config, f: Split, sends: int) {
    && |f.at| == |f.s.procs|
    && Tokens(c, f.s, sends)
    && (forall k :: 0 <= k < |f.s.procs| && f.s.procs[k].Receiver? ==> Finished(f.s.procs[k]))
    && (if Done(c, f.s) <= 0 then f.s.cur == 0 == Done(c, f.s) else 1 <= f.s.cur <= Done(c, f.s))
    && (forall k :: 0 <= k < |f.at| ==> Fits(c, f.s, f.s.procs[k], f.at[k]))
  }

  lemma NoTakes(c: Config, s: State, sends: int)
    requires Tokens(c, s, sends)
    requires forall k :: 0 <= k < |s.procs| && s.procs[k].Receiver? ==> Finished(s.procs[k])
    ensures Total(TakePending(c), s.procs) == 0 && Total(ToTake(c), s.procs) == 0
    ensures s.avail <= sends
  {
    forall k | 0 <= k < |s.procs| ensures TakePending(c)(s.procs[k]) == 0 && ToTake(c)(s.procs[k]) == 0 {
      assert ProcOk(s.procs[k]);
    }
    TotalZero(TakePending(c), s.procs);
    TotalZero(ToTake(c), s.procs);
    AllNonNegative(c, s.procs);
    TotalAtLeast(ToGive(), s.procs);
  }

  // Before a store there is room, and the stores so far are the counted and the uncounted ones.
  lemma StoresSoFar(c: Config, s: State, sends: int, w: nat)
    requires Tokens(c, s, sends)
    requires forall k :: 0 <= k < |s.procs| && s.procs[k].Receiver? ==> Finished(s.procs[k])
    requires w < |s.procs| && s.procs[w].Sender? && s.procs[w].pc == 3
    ensures Done(c, s) + Total(Uncounted(c), s.procs) <= Room(s, sends)
    ensures Total(Uncounted(c), s.procs) >= 0
  {
    NoTakes(c, s, sends);
    Alone(c, s, sends, w);
    TotalSingle(StorePending(), s.procs, w);
    RoomForStore(c, s, sends, Done(c, s) + Total(Uncounted(c), s.procs), w);
    assert NonNegative(Uncounted(c), s.procs);
    TotalAtLeast(Uncounted(c), s.procs);
  }

  // So only the size of a move can be wrong.
  lemma LowInRange(c: Config, f: Split, sends: int, w: nat)
    requires Low(c, f, sends) && w < |f.at| && Enabled(c, f.s, w)
    ensures (f.at[w].Moving? ==> Size(c, f.s.cur, f.at[w].i) >= 0) ==> PartInRange(c, f, w)
  {
    assert Fits(c, f.s, f.s.procs[w], f.at[w]);
    if !f.at[w].Rest? && !f.at[w].Loaded? {
      StoresSoFar(c, f.s, sends, w);
    }
  }

  // A part that does not complete its step.
  lemma LowPart(c: Config, f: Split, sends: int, w: nat, g: Split)
    requires !c.countInside && Low(c, f, sends) && SplitNext(c, f, w, g) && !Completes(c, f, w)
    ensures g.s == f.s.(slots := g.s.slots) && g.at == f.at[w := NextPlace(c, f, w)] && Low(c, g, sends)
  {
    var p := f.s.procs[w];
    assert Fits(c, f.s, p, f.at[w]) && ProcOk(p);
    assert g.s == f.s.(slots := g.s.slots) && g.at == f.at[w := NextPlace(c, f, w)];
    assert Done(c, g.s) == Done(c, f.s);
    forall k | 0 <= k < |g.at| ensures Fits(c, g.s, g.s.procs[k], g.at[k]) {
      assert Fits(c, f.s, f.s.procs[k], f.at[k]);
    }
  }

  // The totals after a whole step of a process that is not a receiver.
  lemma TotalsStep(c: Config, s: State, sends: int, w: nat, t: State)
    requires Tokens(c, s, sends) && Next(c, s, w, t) && s.procs[w].Sender?
    ensures Tokens(c, t, sends) && Moves(s, w, t)
    ensures Done(c, t) == Done(c, s) + t.cur - s.cur
    ensures s.procs[w].pc != 3 ==>
              Total(Uncounted(c), t.procs) == Total(Uncounted(c), s.procs) - (t.cur - s.cur)
  {
    StepProc(c, s, w, t);
    StepHolding(c, s, w, t);
    StepTokens(c, s, w, t);
    StepSurplus(c, s, w, t);
    StepAccounts(c, s, w, t);
    StepCounts(c, s, w, t);
  }

  // The count is written back.
  lemma LowCount(c: Config, f: Split, sends: int, w: nat, g: Split)
    requires !c.countInside && Low(c, f, sends) && SplitNext(c, f, w, g) && f.at[w].Loaded?
    ensures Low(c, g, sends)
    ensures g.s.cur == f.at[w].count + 1 && g.at == f.at[w := Rest]
    ensures f.s.procs[w].Sender? && f.s.procs[w].todo != [] && f.s.procs[w].pc == 5
    ensures g.s.procs == f.s.procs[w := Sender(f.s.procs[w].todo[1..], 0)]
    ensures Total(Uncounted(c), f.s.procs) >= 1
  {
    var t := Exec(c, f.s, w);
    assert Fits(c, f.s, f.s.procs[w], f.at[w]);
    assert g == LastExec(c, f, w) && g.s == t.(cur := f.at[w].count + 1);
    TotalsStep(c, f.s, sends, w, t);
    assert Tokens(c, g.s, sends) && Done(c, g.s) == Done(c, f.s) + 1;
    assert NonNegative(Uncounted(c), f.s.procs);
    TotalAtLeast(Uncounted(c), f.s.procs);
    assert Uncounted(c)(f.s.procs[w]) == 1;
    forall k | 0 <= k < |g.at| ensures Fits(c, g.s, g.s.procs[k], g.at[k]) {
      assert Fits(c, f.s, f.s.procs[k], f.at[k]);
    }
  }

  // What any other last part does.
  lemma OtherExec(c: Config, f: Split, w: nat, g: Split)
    requires SplitNext(c, f, w, g) && Completes(c, f, w) && !f.at[w].Loaded? && !f.at[w].Sizing?
    requires !c.countInside && f.s.procs[w].Sender? && ProcOk(f.s.procs[w])
    ensures Next(c, f.s, w, Exec(c, f.s, w)) && g.s == Exec(c, f.s, w).(slots := g.s.slots)
    ensures g.s.cur == Exec(c, f.s, w).cur == f.s.cur && g.at == f.at[w := Rest]
    ensures g.s.procs == f.s.procs[w := Sender(f.s.procs[w].todo, f.s.procs[w].pc + 1)]
  {
  }

  // Any other step is completed: the process does not get to the end of its call.
  lemma LowOther(c: Config, f: Split, sends: int, w: nat, g: Split)
    requires !c.countInside && Low(c, f, sends) && SplitNext(c, f, w, g) && Completes(c, f, w) && !f.at[w].Loaded?
    ensures Low(c, g, sends)
    ensures g.s.cur == f.s.cur && g.at == f.at[w := Rest]
    ensures f.s.procs[w].Sender? && g.s.procs == f.s.procs[w := Sender(f.s.procs[w].todo, f.s.procs[w].pc + 1)]
    ensures f.s.procs[w].pc != 3 ==> Total(Uncounted(c), g.s.procs) == Total(Uncounted(c), f.s.procs)
  {
    var p, t := f.s.procs[w], Exec(c, f.s, w);
    assert Fits(c, f.s, p, f.at[w]) && ProcOk(p);
    OtherExec(c, f, w, g);
    TotalsStep(c, f.s, sends, w, t);
    assert Tokens(c, g.s, sends) && Done(c, g.s) == Done(c, f.s);
    forall k | 0 <= k < |g.at| && k != w ensures Fits(c, g.s, g.s.procs[k], g.at[k]) {
      assert Fits(c, f.s, f.s.procs[k], f.at[k]);
    }
  }

  lemma LowStep(c: Config, f: Split, sends: int, w: nat, g: Split)
    requires !c.countInside && Low(c, f, sends) && SplitNext(c, f, w, g)
    ensures Low(c, g, sends)
  {
    if !Completes(c, f, w) {
      LowPart(c, f, sends, w, g);
    } else if f.at[w].Loaded? {
      LowCount(c, f, sends, w, g);
    } else {
      LowOther(c, f, sends, w, g);
    }
  }

  lemma {:induction false} LowRun(c: Config, fr: SplitRun)
    requires !c.countInside && IsSplitRun(c, fr) && Initial(First(fr).s) && First(fr) == AtRest(First(fr).s)
    requires Receives(c, First(fr).s) == 0
    ensures |fr.last.s.slots| == |First(fr).s.slots| && Low(c, fr.last, Sends(First(fr).s))
  {
    var s, sends := First(fr).s, Sends(First(fr).s);
    if fr.Start? {
      InitialTokens(c, s);
      NoneLeft(c, s.procs, false);
      TotalZero(TakePending(c), s.procs);
      TotalZero(StorePending(), s.procs);
      TotalZero(Uncounted(c), s.procs);
    } else {
      LowRun(c, fr.before);
      LowStep(c, fr.before.last, sends, fr.who, fr.last);
    }
  }

  // With few slots or few messages: a move from a far position finds all stores counted.
  ghost predicate FarIsCounted(c: Config, f: Split) {
    forall k :: 0 <= k < |f.at| && f.at[k].Moving? && f.at[k].i >= Far(c) ==>
      Total(Uncounted(c), f.s.procs) == 0 && f.at[k].i < f.s.cur
  }

  lemma FewPart(c: Config, f: Split, sends: int, w: nat, g: Split)
    requires !c.countInside && Low(c, f, sends) && FarIsCounted(c, f) && SplitNext(c, f, w, g) && !Completes(c, f, w)
    requires Room(f.s, sends) <= Far(c) + 1
    ensures FarIsCounted(c, g)
  {
    LowPart(c, f, sends, w, g);
    assert Fits(c, f.s, f.s.procs[w], f.at[w]) && ProcOk(f.s.procs[w]);
    if ActionAt(c, f.s.procs[w]) == Store {
      StoresSoFar(c, f.s, sends, w);
    }
  }

  lemma FewOther(c: Config, f: Split, sends: int, w: nat, g: Split)
    requires !c.countInside && Low(c, f, sends) && FarIsCounted(c, f) && SplitNext(c, f, w, g)
    requires Completes(c, f, w) && !f.at[w].Loaded?
    ensures FarIsCounted(c, g)
  {
    LowOther(c, f, sends, w, g);
    forall k | 0 <= k < |g.at| && g.at[k].Moving? ensures f.s.procs[w].pc != 3 {
      assert Fits(c, f.s, f.s.procs[k], f.at[k]);
      if f.s.procs[w].pc == 3 {
        MutualExclusion(c, f.s, sends, w, k);
      }
    }
  }

  lemma FewStep(c: Config, f: Split, sends: int, w: nat, g: Split)
    requires !c.countInside && Low(c, f, sends) && FarIsCounted(c, f) && SplitNext(c, f, w, g)
    requires Room(f.s, sends) <= Far(c) + 1
    ensures FarIsCounted(c, g)
  {
    if !Completes(c, f, w) {
      FewPart(c, f, sends, w, g);
    } else if f.at[w].Loaded? {
      LowCount(c, f, sends, w, g);
    } else {
      FewOther(c, f, sends, w, g);
    }
  }

  lemma {:induction false} FewRun(c: Config, fr: SplitRun)
    requires !c.countInside && IsSplitRun(c, fr) && Initial(First(fr).s) && First(fr) == AtRest(First(fr).s)
    requires Receives(c, First(fr).s) == 0 && Room(First(fr).s, Sends(First(fr).s)) <= Far(c) + 1
    ensures FarIsCounted(c, fr.last)
  {
    if fr.Start? {
    } else {
      FewRun(c, fr.before);
      LowRun(c, fr.before);
      FewStep(c, fr.before.last, Sends(First(fr).s), fr.who, fr.last);
    }
  }

  // Two senders a and b, of which b has had nb messages counted: while a has a count to write
  // back, that and the true one, and what b has to write back, are not far apart; and while b is
  // about to move, both leave it enough to move.
  ghost predicate Near(c: Config, f: Split, a: nat, b: nat, na: int, nb: int)
    requires a < |f.at| && b < |f.at|
  {
    && (f.at[a].Loaded? ==>
          && f.s.cur <= f.at[a].count + nb
          && f.at[a].count <= f.s.cur + na
          && (f.at[b].Loaded? ==> f.at[b].count <= f.at[a].count + nb))
    && (f.at[b].Moving? ==>
          && f.at[b].i + 2 <= f.s.cur + Far(c)
          && (f.at[a].Loaded? ==> f.at[b].i + 1 <= f.at[a].count + Far(c)))
  }

  ghost predicate TwoSenders(s: State, a: nat, b: nat) {
    && a < |s.procs| && b < |s.procs| && a != b && s.procs[a].Sender? && s.procs[b].Sender?
    && forall k :: 0 <= k < |s.procs| && k != a && k != b ==> Finished(s.procs[k])
  }

  ghost predicate Close(c: Config, f: Split, a: nat, b: nat, ta: nat, tb: nat) {
    && |f.at| == |f.s.procs| && TwoSenders(f.s, a, b)
    && |f.s.procs[a].todo| <= ta <= Far(c) + 1 && |f.s.procs[b].todo| <= tb <= Far(c) + 1
    && Near(c, f, a, b, ta - |f.s.procs[a].todo|, tb - |f.s.procs[b].todo|)
    && Near(c, f, b, a, tb - |f.s.procs[b].todo|, ta - |f.s.procs[a].todo|)
  }

  lemma ClosePart(c: Config, f: Split, sends: int, a: nat, b: nat, ta: nat, tb: nat, g: Split)
    requires !c.countInside && Low(c, f, sends) && Close(c, f, a, b, ta, tb)
    requires SplitNext(c, f, b, g) && !Completes(c, f, b)
    ensures Close(c, g, a, b, ta, tb)
  {
    LowPart(c, f, sends, b, g);
    assert Fits(c, f.s, f.s.procs[a], f.at[a]);
    assert Fits(c, f.s, f.s.procs[b], f.at[b]) && ProcOk(f.s.procs[b]);
  }

  lemma CloseCount(c: Config, f: Split, sends: int, a: nat, b: nat, ta: nat, tb: nat, g: Split)
    requires !c.countInside && Low(c, f, sends) && Close(c, f, a, b, ta, tb)
    requires SplitNext(c, f, b, g) && f.at[b].Loaded?
    ensures Close(c, g, a, b, ta, tb)
  {
    LowCount(c, f, sends, b, g);
  }

  lemma CloseOther(c: Config, f: Split, sends: int, a: nat, b: nat, ta: nat, tb: nat, g: Split)
    requires !c.countInside && Low(c, f, sends) && Close(c, f, a, b, ta, tb)
    requires SplitNext(c, f, b, g) && Completes(c, f, b) && !f.at[b].Loaded?
    ensures Close(c, g, a, b, ta, tb)
  {
    LowOther(c, f, sends, b, g);
  }

  lemma CloseStepOf(c: Config, f: Split, sends: int, a: nat, b: nat, ta: nat, tb: nat, g: Split)
    requires !c.countInside && Low(c, f, sends) && Close(c, f, a, b, ta, tb) && SplitNext(c, f, b, g)
    ensures Close(c, g, a, b, ta, tb)
  {
    if !Completes(c, f, b) {
      ClosePart(c, f, sends, a, b, ta, tb, g);
    } else if f.at[b].Loaded? {
      CloseCount(c, f, sends, a, b, ta, tb, g);
    } else {
      CloseOther(c, f, sends, a, b, ta, tb, g);
    }
  }

  lemma {:induction false} CloseRun(c: Config, fr: SplitRun, a: nat, b: nat)
    requires !c.countInside && IsSplitRun(c, fr) && Initial(First(fr).s) && First(fr) == AtRest(First(fr).s)
    requires Receives(c, First(fr).s) == 0 && TwoSenders(First(fr).s, a, b)
    requires |First(fr).s.procs[a].todo| <= Far(c) + 1 && |First(fr).s.procs[b].todo| <= Far(c) + 1
    ensures Close(c, fr.last, a, b, |First(fr).s.procs[a].todo|, |First(fr).s.procs[b].todo|)
  {
    if fr.Start? {
    } else {
      var ta, tb := |First(fr).s.procs[a].todo|, |First(fr).s.procs[b].todo|;
      var sends := Sends(First(fr).s);
      CloseRun(c, fr.before, a, b);
      LowRun(c, fr.before);
      if fr.who == b {
        CloseStepOf(c, fr.before.last, sends, a, b, ta, tb, fr.last);
      } else {
        CloseStepOf(c, fr.before.last, sends, b, a, tb, ta, fr.last);
      }
    }
  }
}
