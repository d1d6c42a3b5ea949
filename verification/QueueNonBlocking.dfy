// Senders with O_NONBLOCK, in the lock order as written: under the mutex they compare the count
// with the capacity, and go away without sending when the queue is full by it.
module QueueNonBlocking {
  import opened Messages
  import opened QueueProtocol
  import opened Runs
  import opened QueueTokens
  import opened Totals
  import opened QueueRefinement
  import opened QueueRange
  import opened QueueRuns
  import opened QueueFinish

  // `passed` are the senders that have found room by the count and are about to wait for a slot
  // token, which they expect to be there.
  datatype Nb = Nb(s: State, passed: set<nat>)

  // Sender i holds the mutex and has not taken its slot token.
  predicate AtTest(s: State, i: nat) {
    i < |s.procs| && s.procs[i].Sender? && s.procs[i].pc == 1 && !Finished(s.procs[i])
  }

  predicate Full(s: State) {
    s.cur == |s.slots|
  }

  // The refused call ends: its message is not sent.
  function Refuse(s: State, i: nat): State
    requires AtTest(s, i)
  {
    s.(mutex := s.mutex + 1, procs := s.procs[i := Sender(s.procs[i].todo[1..], 0)])
  }

  ghost predicate NbNext(c: Config, flagged: set<nat>, f: Nb, i: nat, g: Nb) {
    if i in flagged && AtTest(f.s, i) && i !in f.passed then
      f.s.slots != [] && g == if Full(f.s) then Nb(Refuse(f.s, i), f.passed) else Nb(f.s, f.passed + {i})
    else
      Next(c, f.s, i, g.s) && g.passed == f.passed - {i}
  }

  type NbRun = Run<Nb, nat>

  ghost predicate IsNbRun(c: Config, flagged: set<nat>, r: NbRun) {
    match r
    case Start(_) => true
    case Then(before, i, last) => IsNbRun(c, flagged, before) && NbNext(c, flagged, before.last, i, last)
  }

  // What the message tokens account for.
  function Surplus(c: Config, s: State): int {
    s.avail + Total(ToGive(), s.procs) - Total(ToTake(c), s.procs)
  }

  ghost predicate Counted(c: Config, s: State) {
    Tokens(c, s, Surplus(c, s)) && Accounts(c, s, s.cur + Total(Uncounted(c), s.procs))
  }

  lemma RefuseCounted(c: Config, s: State, i: nat)
    requires !c.tokenFirst && Counted(c, s) && AtTest(s, i)
    ensures Counted(c, Refuse(s, i))
  {
    var t := Refuse(s, i);
    TotalUpdate(Holding(c), s.procs, i, t.procs[i]);
    TotalUpdate(SlotHeld(c), s.procs, i, t.procs[i]);
    TotalUpdate(TokenHeld(c), s.procs, i, t.procs[i]);
    TotalUpdate(TakePending(c), s.procs, i, t.procs[i]);
    TotalUpdate(StorePending(), s.procs, i, t.procs[i]);
    TotalUpdate(Uncounted(c), s.procs, i, t.procs[i]);
    forall k | 0 <= k < |t.procs| ensures ProcOk(t.procs[k]) {
      assert ProcOk(s.procs[k]);
    }
  }

  lemma NextCounted(c: Config, s: State, i: nat, t: State)
    requires Counted(c, s) && Next(c, s, i, t)
    ensures Counted(c, t)
  {
    StepProc(c, s, i, t);
    StepHolding(c, s, i, t);
    StepTokens(c, s, i, t);
    StepAccounts(c, s, i, t);
    StepCounts(c, s, i, t);
  }

  lemma {:induction false} CountedRun(c: Config, flagged: set<nat>, r: NbRun)
    requires !c.tokenFirst && IsNbRun(c, flagged, r) && Initial(First(r).s)
    ensures Counted(c, r.last.s)
  {
    if r.Start? {
      InitialTokens(c, r.last.s);
      TotalZero(Uncounted(c), r.last.s.procs);
      TotalZero(TakePending(c), r.last.s.procs);
      TotalZero(StorePending(), r.last.s.procs);
    } else {
      var f, i := r.before.last, r.who;
      CountedRun(c, flagged, r.before);
      if i in flagged && AtTest(f.s, i) && i !in f.passed {
        RefuseCounted(c, f.s, i);
      } else {
        NextCounted(c, f.s, i, r.last.s);
      }
    }
  }

  // With the count under the mutex the test says exactly whether there is a slot token.
  lemma TestIsExact(c: Config, s: State, i: nat)
    requires !c.tokenFirst && c.countInside && Counted(c, s) && AtTest(s, i)
    ensures Full(s) <==> s.free == 0
  {
    Alone(c, s, Surplus(c, s), i);
    forall k | 0 <= k < |s.procs|
      ensures SlotHeld(c)(s.procs[k]) == 0 && TokenHeld(c)(s.procs[k]) == 0 && TakePending(c)(s.procs[k]) == 0
      ensures StorePending()(s.procs[k]) == 0 && Uncounted(c)(s.procs[k]) == 0
    {
      assert ProcOk(s.procs[k]);
      assert k == i || !Inside(c, s.procs[k]);
    }
    TotalZero(SlotHeld(c), s.procs);
    TotalZero(TokenHeld(c), s.procs);
    TotalZero(TakePending(c), s.procs);
    TotalZero(StorePending(), s.procs);
    TotalZero(Uncounted(c), s.procs);
  }

  // No sender that has passed the test finds no token.
  ghost predicate NeverWaits(c: Config, flagged: set<nat>, s: State) {
    forall r: NbRun :: IsNbRun(c, flagged, r) && First(r) == Nb(s, {}) ==>
      forall i :: i in r.last.passed ==> r.last.s.free > 0
  }

  // While i is between test and token, nobody changes the count or the tokens.
  lemma PassedStep(c: Config, flagged: set<nat>, f: Nb, w: nat, g: Nb, i: nat)
    requires !c.tokenFirst && c.countInside && Counted(c, f.s) && NbNext(c, flagged, f, w, g)
    requires i in f.passed && AtTest(f.s, i) && !Full(f.s) && i in g.passed
    ensures AtTest(g.s, i) && !Full(g.s)
  {
    MutualExclusion(c, f.s, Surplus(c, f.s), i, w);
    if w < |f.s.procs| { assert ProcOk(f.s.procs[w]); }
  }

  lemma {:induction false} PassedRun(c: Config, flagged: set<nat>, r: NbRun)
    requires !c.tokenFirst && c.countInside && IsNbRun(c, flagged, r) && Initial(First(r).s) && First(r).passed == {}
    ensures forall i :: i in r.last.passed ==> AtTest(r.last.s, i) && !Full(r.last.s)
  {
    if r.Start? {
    } else {
      PassedRun(c, flagged, r.before);
      CountedRun(c, flagged, r.before);
      forall i | i in r.last.passed ensures AtTest(r.last.s, i) && !Full(r.last.s) {
        if i in r.before.last.passed {
          PassedStep(c, flagged, r.before.last, r.who, r.last, i);
        }
      }
    }
  }

  lemma NeverWaitsInside(c: Config, flagged: set<nat>, s: State)
    requires !c.tokenFirst && c.countInside && Initial(s)
    ensures NeverWaits(c, flagged, s)
  {
    forall r: NbRun, i | IsNbRun(c, flagged, r) && First(r) == Nb(s, {}) && i in r.last.passed
      ensures r.last.s.free > 0
    {
      PassedRun(c, flagged, r);
      CountedRun(c, flagged, r);
      TestIsExact(c, r.last.s, i);
    }
  }

  lemma {:induction false} StepsFall(c: Config, r: QueueRun, j: nat)
    requires IsRun(c, r) && WellFormed(First(r)) && j < |First(r).procs|
    ensures WellFormed(r.last) && |r.last.procs| == |First(r).procs|
    ensures StepsLeft()(r.last.procs[j]) <= StepsLeft()(First(r).procs[j])
  {
    if r.Start? {
    } else {
      StepsFall(c, r.before, j);
      StepProc(c, r.before.last, r.who, r.last);
    }
  }

  // A run in which j does not move is one of blocking and non-blocking senders alike.
  lemma {:induction false} Lifted(c: Config, r: QueueRun, j: nat) returns (nr: NbRun)
    requires IsRun(c, r) && WellFormed(First(r)) && j < |First(r).procs| == |r.last.procs|
    requires r.last.procs[j] == First(r).procs[j]
    ensures IsNbRun(c, {j}, nr) && First(nr) == Nb(First(r), {}) && nr.last == Nb(r.last, {})
  {
    if r.Start? {
      nr := Start(Nb(r.last, {}));
    } else {
      StepsFall(c, r.before, j);
      StepProc(c, r.before.last, r.who, r.last);
      nr := Lifted(c, r.before, j);
      nr := Then(nr, r.who, Nb(r.last, {}));
    }
  }

  // The first process sends n messages.
  lemma {:induction false} Fills(c: Config, r: QueueRun, l: nat, n: nat) returns (r': QueueRun)
    requires IsRun(c, r) && Calm(r.last, l) && r.last.cur == l && |r.last.procs| == 2 && l + n <= |r.last.slots|
    requires r.last.procs[0].Sender? && n <= |r.last.procs[0].todo|
    ensures IsRun(c, r') && First(r') == First(r) && Calm(r'.last, l + n) && r'.last.cur == l + n
    ensures |r'.last.slots| == |r.last.slots| && |r'.last.procs| == 2 && r'.last.procs[1] == r.last.procs[1]
    ensures r'.last.procs[0].Sender? && |r'.last.procs[0].todo| == |r.last.procs[0].todo| - n
    decreases n
  {
    if n == 0 {
      r' := r;
    } else {
      r' := SendAlone(c, r, 0);
      r' := Fills(c, r', l + 1, n - 1);
    }
  }

  // The slots are filled, but the last message is not counted.
  lemma FillsUncounted(c: Config, s: State) returns (r: QueueRun)
    requires !c.countInside && Initial(s) && |s.procs| == 2
    requires s.procs[0].Sender? && |s.procs[0].todo| == |s.slots|
    ensures IsRun(c, r) && First(r) == s && |r.last.procs| == 2 && r.last.procs[1] == s.procs[1]
    ensures |r.last.slots| == |s.slots| && r.last.mutex == 1 && r.last.free == 0 && r.last.cur == |s.slots| - 1
  {
    r := Fills(c, Start(s), 0, |s.slots| - 1);
    r := SendBegins(c, r, 0);
    r := SendStores(c, r, 0);
  }

  // A non-blocking sender then finds room by the count, and waits with the mutex in its hands.
  lemma LateCountWaits(c: Config, s: State)
    requires !c.tokenFirst && !c.countInside && Initial(s) && |s.procs| == 2
    requires s.procs[0].Sender? && |s.procs[0].todo| == |s.slots|
    requires s.procs[1].Sender? && s.procs[1].todo != []
    ensures !NeverWaits(c, {1}, s)
  {
    var r := FillsUncounted(c, s);
    var nr := Lifted(c, r, 1);
    var t := Exec(c, r.last, 1);
    nr := Then(nr, 1, Nb(t, {}));
    nr := Then(nr, 1, Nb(t, {1}));
    assert IsNbRun(c, {1}, nr) && 1 in nr.last.passed;
  }

  // Non-blocking senders never wait, whatever the others do, exactly when the count is raised
  // under the mutex.
  lemma NonBlockingExactly(c: Config, cap: nat)
    requires !c.tokenFirst && cap > 0
    ensures (forall s: State, flagged: set<nat> :: Initial(s) && |s.slots| == cap ==> NeverWaits(c, flagged, s)) <==>
            c.countInside
  {
    if c.countInside {
      forall s: State, flagged: set<nat> | Initial(s) && |s.slots| == cap ensures NeverWaits(c, flagged, s) {
        NeverWaitsInside(c, flagged, s);
      }
    } else {
      var m := Msg("", 0, 0);
      var s := State(seq(cap, _ => m), 0, 1, cap, 0, [Sender(seq(cap, _ => m), 0), Sender([m], 0)], []);
      LateCountWaits(c, s);
      assert !NeverWaits(c, {1}, s);
    }
  }
}
