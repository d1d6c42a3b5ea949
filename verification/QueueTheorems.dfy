// What a user of the queue may rely on, in every run of any number of processes, when the count
// is raised under the mutex and stores are made in place.
module QueueTheorems {
  import opened Messages
  import opened SequentialQueue
  import opened QueueProtocol
  import opened Runs
  import opened QueueTokens
  import opened Totals
  import opened QueueDeadlock
  import opened QueueHistory
  import opened QueueOrder
  import opened QueueRefinement
  import opened QueueRange

  // For each priority, the messages received so far are a prefix of those sent so far, in the
  // order of insertion, and the rest are in the queue.
  lemma FifoPerPriority(c: Config, r: QueueRun, p: nat)
    requires c.countInside && IsRun(c, r) && Initial(First(r)) && StoresInPlace(c, First(r))
    ensures OfPrio(Gets(r.last.log), p) <= OfPrio(Puts(r.last.log), p)
    ensures Quiescent(r.last) ==>
              && 0 <= r.last.cur <= |r.last.slots|
              && OfPrio(Puts(r.last.log), p) == OfPrio(Gets(r.last.log), p) + OfPrio(r.last.slots[..r.last.cur], p)
  {
    RunRefines(c, r);
    ReplayFifo(|r.last.slots|, r.last.log, p);
  }

  // Nothing is lost, duplicated or out of order in the segment.
  lemma NothingLost(c: Config, r: QueueRun)
    requires c.countInside && IsRun(c, r) && Initial(First(r)) && StoresInPlace(c, First(r)) && Quiescent(r.last)
    ensures 0 <= r.last.cur <= |r.last.slots|
    ensures Sorted(r.last.slots[..r.last.cur])
    ensures multiset(Puts(r.last.log)) == multiset(Gets(r.last.log)) + multiset(r.last.slots[..r.last.cur])
  {
    RunRefines(c, r);
    ReplaySorted(|r.last.slots|, r.last.log);
    ReplayConserves(|r.last.slots|, r.last.log);
  }

  // A take, whatever else is going on, yields the oldest message of the highest priority
  // among all those stored and not yet taken.
  lemma TakesOldestOfHighest(c: Config, r: QueueRun)
    requires c.countInside && IsRun(c, r) && Initial(First(r)) && StoresInPlace(c, First(r))
    requires r.Then? && r.last.log != r.before.last.log && r.before.last.procs[r.who].Receiver?
    ensures r.last.procs[r.who].got != []
    ensures var m := r.last.procs[r.who].got[|r.last.procs[r.who].got| - 1];
            var before := r.before.last.log;
            && (forall x :: x in multiset(Puts(before)) - multiset(Gets(before)) ==> x.prio <= m.prio)
            && OfPrio(Gets(before), m.prio) + [m] <= OfPrio(Puts(before), m.prio)
  {
    var s, i := r.before.last, r.who;
    RunRefines(c, r.before);
    RunRefines(c, r);
    StepMoves(c, s, i, r.last);
    HeadTaken(|s.slots|, s.log, i, s.slots[0]);
  }

  lemma HeadTaken(cap: nat, log: seq<Event>, i: nat, m: Msg)
    requires Replay(cap, log).Some? && Replay(cap, log + [Got(i, m)]).Some?
    ensures forall x :: x in multiset(Puts(log)) - multiset(Gets(log)) ==> x.prio <= m.prio
    ensures OfPrio(Gets(log), m.prio) + [m] <= OfPrio(Puts(log), m.prio)
  {
    var q := Replay(cap, log).value;
    Extend(cap, log, Got(i, m));
    ReplaySorted(cap, log);
    ReplayConserves(cap, log);
    ReplayFifo(cap, log, m.prio);
    HeadIsOldestOfHighest(q);
    forall x | x in multiset(Puts(log)) - multiset(Gets(log)) ensures x.prio <= m.prio {
      assert x in q;
    }
  }

  function AllUnsent(ps: seq<Proc>): multiset<Msg>
    requires forall i :: 0 <= i < |ps| ==> ProcOk(ps[i])
  {
    if ps == [] then multiset{} else multiset(Unsent(ps[0])) + AllUnsent(ps[1..])
  }

  function AllGot(ps: seq<Proc>): multiset<Msg> {
    if ps == [] then multiset{}
    else (if ps[0].Receiver? then multiset(ps[0].got) else multiset{}) + AllGot(ps[1..])
  }

  lemma {:induction false} AllUnsentUpdate(ps: seq<Proc>, i: nat, p: Proc, moved: multiset<Msg>)
    requires forall k :: 0 <= k < |ps| ==> ProcOk(ps[k])
    requires i < |ps| && ProcOk(p)
    requires multiset(Unsent(ps[i])) == multiset(Unsent(p)) + moved
    ensures AllUnsent(ps) == AllUnsent(ps[i := p]) + moved
  {
    assert forall k :: 0 <= k < |ps[1..]| ==> ProcOk(ps[1..][k]);
    if i == 0 {
      assert ps[i := p][1..] == ps[1..];
    } else {
      assert ps[i := p][1..] == ps[1..][i - 1 := p];
      AllUnsentUpdate(ps[1..], i - 1, p, moved);
    }
  }

  lemma {:induction false} AllGotUpdate(ps: seq<Proc>, i: nat, p: Proc, moved: multiset<Msg>)
    requires i < |ps| && p.Receiver? == ps[i].Receiver?
    requires p.Receiver? ==> multiset(p.got) == multiset(ps[i].got) + moved
    requires p.Sender? ==> moved == multiset{}
    ensures AllGot(ps[i := p]) == AllGot(ps) + moved
  {
    if i == 0 {
      assert ps[i := p][1..] == ps[1..];
    } else {
      assert ps[i := p][1..] == ps[1..][i - 1 := p];
      AllGotUpdate(ps[1..], i - 1, p, moved);
    }
  }

  function PutOf(es: seq<Event>): multiset<Msg> {
    if es != [] && es[0].Put? then multiset{es[0].msg} else multiset{}
  }

  function GotOf(es: seq<Event>): multiset<Msg> {
    if es != [] && es[0].Got? then multiset{es[0].msg} else multiset{}
  }

  lemma BooksNext(p: Proc, i: nat, first: Msg)
    requires ProcOk(p) && !Finished(p)
    ensures ProcOk(NextProc(p, first))
    ensures multiset(Unsent(p)) == multiset(Unsent(NextProc(p, first))) + PutOf(Logged(p, i, first))
    ensures p.Receiver? ==> multiset(NextProc(p, first).got) == multiset(p.got) + GotOf(Logged(p, i, first))
  {
    if p.Sender? && p.pc == 3 {
      HeadAndRest(p.todo);
    }
  }

  lemma LogAppend(log: seq<Event>, es: seq<Event>)
    requires |es| <= 1
    ensures multiset(Puts(log + es)) == multiset(Puts(log)) + PutOf(es)
    ensures multiset(Gets(log + es)) == multiset(Gets(log)) + GotOf(es)
  {
    if es != [] {
      assert es == [es[0]];
      Extend(0, log, es[0]);
    } else {
      assert log + es == log;
    }
  }

  lemma UnsentStep(s: State, i: nat, t: State)
    requires WellFormed(s) && WellFormed(t) && Moves(s, i, t)
    ensures AllUnsent(s.procs) == AllUnsent(t.procs) + PutOf(Logged(s.procs[i], i, s.slots[0]))
  {
    var p, first := s.procs[i], s.slots[0];
    BooksNext(p, i, first);
    AllUnsentUpdate(s.procs, i, NextProc(p, first), PutOf(Logged(p, i, first)));
  }

  lemma GotStep(s: State, i: nat, t: State)
    requires WellFormed(s) && Moves(s, i, t)
    ensures AllGot(t.procs) == AllGot(s.procs) + GotOf(Logged(s.procs[i], i, s.slots[0]))
  {
    var p, first := s.procs[i], s.slots[0];
    BooksNext(p, i, first);
    AllGotUpdate(s.procs, i, NextProc(p, first), GotOf(Logged(p, i, first)));
  }

  lemma BooksStep(s: State, i: nat, t: State)
    requires WellFormed(s) && WellFormed(t) && Moves(s, i, t)
    ensures AllUnsent(s.procs) + multiset(Puts(s.log)) == AllUnsent(t.procs) + multiset(Puts(t.log))
    ensures AllGot(s.procs) == multiset(Gets(s.log)) ==> AllGot(t.procs) == multiset(Gets(t.log))
  {
    LogAppend(s.log, Logged(s.procs[i], i, s.slots[0]));
    UnsentStep(s, i, t);
    GotStep(s, i, t);
  }

  lemma {:induction false} Books(c: Config, r: QueueRun)
    requires IsRun(c, r) && Initial(First(r))
    ensures WellFormed(First(r)) && WellFormed(r.last)
    ensures AllUnsent(First(r).procs) == AllUnsent(r.last.procs) + multiset(Puts(r.last.log))
    ensures AllGot(r.last.procs) == multiset(Gets(r.last.log))
  {
    if r.Start? {
      NothingGot(r.last.procs);
    } else {
      Books(c, r.before);
      StepProc(c, r.before.last, r.who, r.last);
      BooksStep(r.before.last, r.who, r.last);
    }
  }

  lemma {:induction false} NothingGot(ps: seq<Proc>)
    requires forall i :: 0 <= i < |ps| ==> (ps[i].Receiver? ==> ps[i].got == [])
    ensures AllGot(ps) == multiset{}
  {
    if ps == [] {
    } else {
      NothingGot(ps[1..]);
    }
  }

  lemma {:induction false} NothingUnsent(ps: seq<Proc>)
    requires forall i :: 0 <= i < |ps| ==> ProcOk(ps[i]) && Finished(ps[i])
    ensures AllUnsent(ps) == multiset{}
  {
    if ps == [] {
    } else {
      NothingUnsent(ps[1..]);
    }
  }

  lemma EmptyAtEnd(c: Config, r: QueueRun)
    requires c.countInside && IsRun(c, r) && Initial(First(r))
    requires Sends(First(r)) == Receives(c, First(r)) && AllFinished(r.last)
    ensures Quiescent(r.last) && r.last.cur == 0
  {
    InitialTokens(c, First(r));
    TokensRun(c, r, 0);
    FinishedSurplus(c, r.last, 0);
    SemaphoresCountTheQueue(c, r);
    forall i | 0 <= i < |r.last.procs| ensures r.last.procs[i].pc == 0 {
      assert ProcOk(r.last.procs[i]);
    }
    TotalZero(TokenHeld(c), r.last.procs);
  }

  // With tokens first, the count inside, stores in place and as many receives as sends, a run
  // that can go no further has delivered exactly the messages that the senders were given. The
  // run exists and is bounded by BalancedRunsFinish.
  lemma EverythingDelivered(c: Config, r: QueueRun)
    requires c.tokenFirst && c.countInside && IsRun(c, r) && Initial(First(r)) && StoresInPlace(c, First(r))
    requires Sends(First(r)) == Receives(c, First(r)) && Stuck(c, r.last)
    ensures AllFinished(r.last) && r.last.cur == 0
    ensures WellFormed(First(r)) && AllGot(r.last.procs) == AllUnsent(First(r).procs)
  {
    BalancedRunsFinish(c, r);
    Books(c, r);
    assert forall i :: 0 <= i < |r.last.procs| ==> ProcOk(r.last.procs[i]);
    NothingUnsent(r.last.procs);
    EmptyAtEnd(c, r);
    NothingLost(c, r);
    assert r.last.slots[..0] == [];
  }
}
