// What non-blocking senders mean for the contents: a refused message leaves no trace in the
// segment, and the history is still one of the sequential queue.
module QueueRefusals {
  import opened Messages
  import opened Options
  import opened SequentialQueue
  import opened QueueProtocol
  import opened Runs
  import opened QueueTokens
  import opened Totals
  import opened QueueHistory
  import opened QueueOrder
  import opened QueueRefinement
  import opened QueueNonBlocking

  // Sender i is at its test and has not passed it.
  predicate Tests(flagged: set<nat>, f: Nb, i: nat) {
    i in flagged && AtTest(f.s, i) && i !in f.passed
  }

  // The outcome of a test, by what changes. On a full queue the mutex is released and the message
  // is gone from the sender's list; otherwise the sender goes on with the mutex; and either way
  // nothing else changes, neither the array nor the count, the tokens, the history or any other
  // process.
  lemma TestOutcome(c: Config, flagged: set<nat>, f: Nb, i: nat, g: Nb)
    requires NbNext(c, flagged, f, i, g) && Tests(flagged, f, i)
    ensures g.s.slots == f.s.slots && g.s.cur == f.s.cur && g.s.log == f.s.log
    ensures g.s.free == f.s.free && g.s.avail == f.s.avail && |g.s.procs| == |f.s.procs|
    ensures forall k :: 0 <= k < |f.s.procs| && k != i ==> g.s.procs[k] == f.s.procs[k]
    ensures g.s.procs[i].Sender?
    ensures if f.s.cur == |f.s.slots| then
              && g.s.mutex == f.s.mutex + 1 && g.passed == f.passed
              && [f.s.procs[i].todo[0]] + g.s.procs[i].todo == f.s.procs[i].todo && g.s.procs[i].pc == 0
            else g.s == f.s && g.passed == f.passed + {i}
  {
  }

  // Every other step is one of the blocking relation.
  lemma OtherwiseBlocking(c: Config, flagged: set<nat>, f: Nb, i: nat, g: Nb)
    requires NbNext(c, flagged, f, i, g) && !Tests(flagged, f, i)
    ensures Next(c, f.s, i, g.s) && g.passed == f.passed - {i}
  {
  }

  // The message refused by a step: the one with whose test the mutex is released.
  function RefusedBy(flagged: set<nat>, f: Nb, w: nat, g: Nb): seq<Msg> {
    if Tests(flagged, f, w) && g.s.mutex > f.s.mutex then [f.s.procs[w].todo[0]] else []
  }

  // The messages refused to sender i, in order.
  function Refused(flagged: set<nat>, r: NbRun, i: nat): seq<Msg> {
    match r
    case Start(_) => []
    case Then(before, w, last) =>
      Refused(flagged, before, i) + (if w == i then RefusedBy(flagged, before.last, w, last) else [])
  }

  // all is a and b put together, each in its own order.
  ghost predicate IsMerge(all: seq<Msg>, a: seq<Msg>, b: seq<Msg>)
    decreases |all|
  {
    if all == [] then a == [] && b == []
    else
      var front, x := all[..|all| - 1], all[|all| - 1];
      || (a != [] && a[|a| - 1] == x && IsMerge(front, a[..|a| - 1], b))
      || (b != [] && b[|b| - 1] == x && IsMerge(front, a, b[..|b| - 1]))
  }

  lemma MergeMore(all: seq<Msg>, a: seq<Msg>, b: seq<Msg>, x: Msg)
    requires IsMerge(all, a, b)
    ensures IsMerge(all + [x], a + [x], b) && IsMerge(all + [x], a, b + [x])
  {
    assert (all + [x])[..|all|] == all && (a + [x])[..|a|] == a && (b + [x])[..|b|] == b;
  }

  // What a sender was given is what it stored and what was refused to it, in order, and then what
  // it has still to store; what a receiver got is what it took.
  ghost predicate Accounted(start: Proc, p: Proc, es: seq<Event>, refused: seq<Msg>)
    requires ProcOk(p)
  {
    match start
    case Sender(todo, _) =>
      && p.Sender?
      && |Unsent(p)| <= |todo|
      && var done := |todo| - |Unsent(p)|;
      && todo[done..] == Unsent(p)
      && IsMerge(todo[..done], Msgs(es), refused)
    case Receiver(left, _, _) =>
      && p.Receiver? && p.got == Msgs(es) && refused == []
      && |p.got| + p.left - (if p.pc > 3 then 1 else 0) == left
  }

  lemma OneMoreDone(todo: seq<Msg>, unsent: seq<Msg>)
    requires unsent != [] && |unsent| <= |todo| && todo[|todo| - |unsent|..] == unsent
    ensures todo[..|todo| - |unsent| + 1] == todo[..|todo| - |unsent|] + [unsent[0]]
    ensures todo[|todo| - |unsent| + 1..] == unsent[1..]
  {
    assert todo[|todo| - |unsent|] == todo[|todo| - |unsent|..][0];
  }

  lemma AccountedStored(start: Proc, p: Proc, es: seq<Event>, refused: seq<Msg>, i: nat)
    requires ProcOk(p) && p.Sender? && p.pc == 3 && p.todo != [] && Accounted(start, p, es, refused)
    ensures Accounted(start, Sender(p.todo, 4), es + [Put(i, p.todo[0])], refused)
  {
    var q := Sender(p.todo, 4);
    MsgsAppend(es, Put(i, p.todo[0]));
    OneMoreDone(start.todo, p.todo);
    MergeMore(start.todo[..|start.todo| - |p.todo|], Msgs(es), refused, p.todo[0]);
    assert |Unsent(q)| == |p.todo| - 1;
  }

  lemma AccountedTaken(start: Proc, p: Proc, es: seq<Event>, refused: seq<Msg>, i: nat, first: Msg)
    requires ProcOk(p) && p.Receiver? && p.pc == 3 && p.left > 0 && Accounted(start, p, es, refused)
    ensures Accounted(start, Receiver(p.left, 4, p.got + [first]), es + [Got(i, first)], refused)
  {
    MsgsAppend(es, Got(i, first));
  }

  lemma AccountedNext(start: Proc, p: Proc, es: seq<Event>, refused: seq<Msg>, i: nat, first: Msg)
    requires ProcOk(p) && !Finished(p) && Accounted(start, p, es, refused)
    ensures ProcOk(NextProc(p, first))
    ensures Accounted(start, NextProc(p, first), es + Logged(p, i, first), refused)
  {
    if p.pc != 3 {
      assert es + Logged(p, i, first) == es;
    } else if p.Sender? {
      AccountedStored(start, p, es, refused, i);
    } else {
      AccountedTaken(start, p, es, refused, i, first);
    }
  }

  lemma AccountedRefused(start: Proc, p: Proc, q: Proc, es: seq<Event>, refused: seq<Msg>)
    requires ProcOk(p) && ProcOk(q) && Accounted(start, p, es, refused)
    requires p.Sender? && p.pc == 1 && p.todo != [] && q.Sender? && q.pc == 0 && [p.todo[0]] + q.todo == p.todo
    ensures Accounted(start, q, es, refused + [p.todo[0]])
  {
    OneMoreDone(start.todo, p.todo);
    MergeMore(start.todo[..|start.todo| - |p.todo|], Msgs(es), refused, p.todo[0]);
    assert q.todo == p.todo[1..];
  }

  lemma AccountedTest(c: Config, flagged: set<nat>, f: Nb, w: nat, g: Nb, start: Proc, i: nat, refused: seq<Msg>)
    requires NbNext(c, flagged, f, w, g) && Tests(flagged, f, w) && i < |f.s.procs| == |g.s.procs|
    requires ProcOk(f.s.procs[i]) && ProcOk(g.s.procs[i]) && Accounted(start, f.s.procs[i], By(f.s.log, i), refused)
    ensures Accounted(start, g.s.procs[i], By(g.s.log, i),
                      refused + (if w == i then RefusedBy(flagged, f, w, g) else []))
  {
    TestOutcome(c, flagged, f, w, g);
    assert refused + [] == refused;
    if w == i && f.s.cur == |f.s.slots| {
      AccountedRefused(start, f.s.procs[i], g.s.procs[i], By(f.s.log, i), refused);
    }
  }

  lemma StepBy(s: State, w: nat, t: State, i: nat)
    requires Moves(s, w, t)
    ensures By(t.log, i) == if w == i then By(s.log, i) + Logged(s.procs[w], w, s.slots[0]) else By(s.log, i)
  {
    var es := Logged(s.procs[w], w, s.slots[0]);
    ByAppend(s.log, es, i);
    assert es != [] ==> es[0].pid == w;
    assert By(s.log, i) + [] == By(s.log, i);
  }

  lemma AccountedOther(c: Config, flagged: set<nat>, f: Nb, w: nat, g: Nb, start: Proc, i: nat, refused: seq<Msg>)
    requires NbNext(c, flagged, f, w, g) && !Tests(flagged, f, w) && i < |f.s.procs| == |g.s.procs|
    requires ProcOk(f.s.procs[i]) && ProcOk(g.s.procs[i]) && Accounted(start, f.s.procs[i], By(f.s.log, i), refused)
    requires w < |f.s.procs| && WellFormed(f.s)
    ensures Accounted(start, g.s.procs[i], By(g.s.log, i), refused)
  {
    OtherwiseBlocking(c, flagged, f, w, g);
    StepMoves(c, f.s, w, g.s);
    StepBy(f.s, w, g.s, i);
    if w == i {
      AccountedNext(start, f.s.procs[i], By(f.s.log, i), refused, i, f.s.slots[0]);
    }
  }

  lemma WellFormedStep(c: Config, flagged: set<nat>, f: Nb, w: nat, g: Nb)
    requires WellFormed(f.s) && NbNext(c, flagged, f, w, g)
    ensures WellFormed(g.s) && |g.s.procs| == |f.s.procs| && |g.s.slots| == |f.s.slots|
  {
    if Tests(flagged, f, w) {
      TestOutcome(c, flagged, f, w, g);
      forall k | 0 <= k < |g.s.procs| ensures ProcOk(g.s.procs[k]) {
        assert ProcOk(f.s.procs[k]);
      }
    } else {
      StepProc(c, f.s, w, g.s);
    }
  }

  // Under every combination of repairs: each sender's list is, in order, what it stored and what
  // was refused to it, and then what is unsent.
  lemma {:induction false} EveryMessageAccounted(c: Config, flagged: set<nat>, r: NbRun, i: nat)
    requires IsNbRun(c, flagged, r) && Initial(First(r).s) && i < |First(r).s.procs|
    ensures WellFormed(r.last.s) && |r.last.s.procs| == |First(r).s.procs|
    ensures Accounted(First(r).s.procs[i], r.last.s.procs[i], By(r.last.s.log, i), Refused(flagged, r, i))
  {
    if r.Start? {
      assert First(r).s.procs[i].Sender? ==> First(r).s.procs[i].todo[0..] == First(r).s.procs[i].todo;
    } else {
      EveryMessageAccounted(c, flagged, r.before, i);
      var f, refused := r.before.last, Refused(flagged, r.before, i);
      WellFormedStep(c, flagged, f, r.who, r.last);
      if Tests(flagged, f, r.who) {
        AccountedTest(c, flagged, f, r.who, r.last, First(r).s.procs[i], i, refused);
      } else {
        AccountedOther(c, flagged, f, r.who, r.last, First(r).s.procs[i], i, refused);
        assert refused + [] == refused;
      }
    }
  }

  // A refusal changes nothing that the segment represents.
  lemma TestRefines(c: Config, flagged: set<nat>, f: Nb, i: nat, g: Nb)
    requires NbNext(c, flagged, f, i, g) && Tests(flagged, f, i) && Refines(c, f.s)
    ensures Refines(c, g.s)
  {
    TestOutcome(c, flagged, f, i, g);
    if g.s != f.s {
      assert g.s.procs == f.s.procs[i := g.s.procs[i]];
      TotalUpdate(TakePending(c), f.s.procs, i, g.s.procs[i]);
      TotalUpdate(StorePending(), f.s.procs, i, g.s.procs[i]);
      forall k | 0 <= k < |f.s.procs| ensures f.s.procs[k].pc == 4 <==> g.s.procs[k].pc == 4 {
      }
    }
  }

  lemma {:induction false} NbAttributed(c: Config, flagged: set<nat>, r: NbRun)
    requires IsNbRun(c, flagged, r) && Initial(First(r).s)
    ensures Attributed(r.last.s) && |r.last.s.procs| == |First(r).s.procs|
  {
    if r.Start? {
    } else {
      var f := r.before.last;
      NbAttributed(c, flagged, r.before);
      if Tests(flagged, f, r.who) {
        TestOutcome(c, flagged, f, r.who, r.last);
      } else {
        OtherwiseBlocking(c, flagged, f, r.who, r.last);
        StepMoves(c, f.s, r.who, r.last.s);
      }
    }
  }

  lemma {:induction false} MergeMember(all: seq<Msg>, a: seq<Msg>, b: seq<Msg>, x: Msg) returns (k: nat)
    requires IsMerge(all, a, b) && x in a
    ensures k < |all| && all[k] == x
  {
    var front := all[..|all| - 1];
    if all[|all| - 1] == x {
      k := |all| - 1;
    } else if a[|a| - 1] == all[|all| - 1] && IsMerge(front, a[..|a| - 1], b) {
      k := MergeMember(front, a[..|a| - 1], b, x);
    } else {
      k := MergeMember(front, a, b[..|b| - 1], x);
    }
  }

  // Nothing that is sent has a higher priority than anything that may be stored before it. The
  // bound by the capacity in Ascends does not do: refused messages take no room.
  ghost predicate NothingAscends(s: State) {
    |s.slots| == 1 || forall i: nat, a: nat, j: nat, b: nat :: !Ascent(s, i, a, j, b)
  }

  // A stored message is one that a sender was given, and that is done with by its sender.
  lemma NbWhoStored(c: Config, flagged: set<nat>, r: NbRun, m: Msg) returns (i: nat, a: nat)
    requires IsNbRun(c, flagged, r) && Initial(First(r).s) && m in Puts(r.last.s.log)
    ensures i < |First(r).s.procs| == |r.last.s.procs| && First(r).s.procs[i].Sender? && ProcOk(r.last.s.procs[i])
    ensures a < |First(r).s.procs[i].todo| - |Unsent(r.last.s.procs[i])| && First(r).s.procs[i].todo[a] == m
  {
    var log, at := r.last.s.log, 0;
    i, at := PutAt(log, m);
    NbAttributed(c, flagged, r);
    ByIn(log, i, at);
    EveryMessageAccounted(c, flagged, r, i);
    MsgsAt(By(log, i));
    assert Msgs(By(log, i))[at] == m;
    var todo := First(r).s.procs[i].todo;
    var done := |todo| - |Unsent(r.last.s.procs[i])|;
    a := MergeMember(todo[..done], Msgs(By(log, i)), Refused(flagged, r, i), m);
  }

  lemma NbGoesLast(c: Config, flagged: set<nat>, r: NbRun, j: nat, q: seq<Msg>, k: nat)
    requires IsNbRun(c, flagged, r) && Initial(First(r).s)
    requires forall i: nat, a: nat, l: nat, b: nat :: !Ascent(First(r).s, i, a, l, b)
    requires j < |r.last.s.procs| == |First(r).s.procs| && r.last.s.procs[j].Sender?
    requires r.last.s.procs[j].pc == 3 && r.last.s.procs[j].todo != []
    requires Replay(|First(r).s.slots|, r.last.s.log) == Some(q) && k < |q|
    ensures q[k].prio >= r.last.s.procs[j].todo[0].prio
  {
    var s, m := First(r).s, r.last.s.procs[j].todo[0];
    InQueueWasStored(|s.slots|, r.last.s.log, q[k]);
    var i, a := NbWhoStored(c, flagged, r, q[k]);
    EveryMessageAccounted(c, flagged, r, j);
    var todo, b := s.procs[j].todo, |s.procs[j].todo| - |r.last.s.procs[j].todo|;
    assert todo[b] == todo[b..][0] == m;
    if i == j {
      forall n | a <= n < b ensures todo[n].prio >= todo[n + 1].prio {
        assert !Ascent(s, j, n, j, n + 1);
      }
      Falls(todo, a, b);
    } else {
      assert !Ascent(s, i, a, j, b);
    }
  }

  lemma {:induction false} Falls(todo: seq<Msg>, a: nat, b: nat)
    requires a <= b < |todo| && forall n :: a <= n < b ==> todo[n].prio >= todo[n + 1].prio
    ensures todo[a].prio >= todo[b].prio
    decreases b - a
  {
    if a == b {
    } else {
      Falls(todo, a + 1, b);
    }
  }

  // In every run with the count inside and stores in place, the array and the count represent
  // the queue left by a legal history.
  lemma {:induction false} NbRunRefines(c: Config, flagged: set<nat>, r: NbRun)
    requires !c.tokenFirst && c.countInside && IsNbRun(c, flagged, r) && Initial(First(r).s)
    requires c.fullShift || NothingAscends(First(r).s)
    ensures |r.last.s.slots| == |First(r).s.slots| && Refines(c, r.last.s)
  {
    if r.Start? {
      TotalZero(TakePending(c), r.last.s.procs);
      TotalZero(StorePending(), r.last.s.procs);
    } else {
      var f := r.before.last;
      NbRunRefines(c, flagged, r.before);
      CountedRun(c, flagged, r.before);
      if Tests(flagged, f, r.who) {
        TestOutcome(c, flagged, f, r.who, r.last);
        TestRefines(c, flagged, f, r.who, r.last);
      } else {
        if !c.fullShift && f.s.procs[r.who].Sender? && f.s.procs[r.who].pc == 3 {
          NbInPlace(c, flagged, r.before, r.who);
        }
        RefinesStep(c, f.s, r.who, r.last.s, Surplus(c, f.s));
      }
    }
  }

  lemma NbInPlace(c: Config, flagged: set<nat>, r: NbRun, j: nat)
    requires !c.tokenFirst && IsNbRun(c, flagged, r) && Initial(First(r).s) && NothingAscends(First(r).s)
    requires |r.last.s.slots| == |First(r).s.slots| && Refines(c, r.last.s) && Counted(c, r.last.s)
    requires j < |r.last.s.procs| && r.last.s.procs[j].Sender? && r.last.s.procs[j].pc == 3
    ensures r.last.s.procs[j].todo != []
    ensures forall k :: 0 <= k < |QueueOf(r.last.s).value| ==>
              QueueOf(r.last.s).value[k].prio >= r.last.s.procs[j].todo[0].prio
  {
    var s, q := r.last.s, QueueOf(r.last.s).value;
    assert ProcOk(s.procs[j]);
    RoomForStore(c, s, Surplus(c, s), |q|, j);
    NbAttributed(c, flagged, r);
    if |First(r).s.slots| != 1 {
      forall k | 0 <= k < |q| ensures q[k].prio >= s.procs[j].todo[0].prio {
        NbGoesLast(c, flagged, r, j, q, k);
      }
    }
  }

  // So nothing that is accepted is lost, duplicated or out of order, whatever is refused.
  lemma AcceptedIsKept(c: Config, flagged: set<nat>, r: NbRun)
    requires !c.tokenFirst && c.countInside && IsNbRun(c, flagged, r) && Initial(First(r).s)
    requires c.fullShift || NothingAscends(First(r).s)
    requires Quiescent(r.last.s)
    ensures var s := r.last.s;
            && 0 <= s.cur <= |s.slots| && Sorted(s.slots[..s.cur])
            && multiset(Puts(s.log)) == multiset(Gets(s.log)) + multiset(s.slots[..s.cur])
            && forall p: nat :: OfPrio(Puts(s.log), p) == OfPrio(Gets(s.log), p) + OfPrio(s.slots[..s.cur], p)
  {
    var s := r.last.s;
    NbRunRefines(c, flagged, r);
    ReplaySorted(|s.slots|, s.log);
    ReplayConserves(|s.slots|, s.log);
    forall p: nat ensures OfPrio(Puts(s.log), p) == OfPrio(Gets(s.log), p) + OfPrio(s.slots[..s.cur], p) {
      ReplayFifo(|s.slots|, s.log, p);
    }
  }
}
