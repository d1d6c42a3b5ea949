// What the history of stores and takes says about the processes, in every run and under every
// combination of repairs.
module QueueHistory {
  import opened Messages
  import opened SequentialQueue
  import opened QueueProtocol
  import opened Runs
  import opened QueueTokens
  import opened Totals

  // The messages of one process in a history.
  function Msgs(es: seq<Event>): seq<Msg> {
    if es == [] then [] else Msgs(es[..|es| - 1]) + [es[|es| - 1].msg]
  }

  // The messages a sender has still to store.
  function Unsent(p: Proc): seq<Msg>
    requires ProcOk(p)
  {
    match p
    case Sender(todo, pc) => if pc > 3 then todo[1..] else todo
    case Receiver(_, _, _) => []
  }

  // A process's part of the history is what it was asked to send so far, in that order, or
  // what it returned to its caller so far.
  ghost predicate Agrees(start: Proc, p: Proc, es: seq<Event>)
    requires ProcOk(p)
  {
    match start
    case Sender(todo, _) => p.Sender? && todo == Msgs(es) + Unsent(p)
    case Receiver(left, _, _) =>
      p.Receiver? && p.got == Msgs(es) && |p.got| + p.left - (if p.pc > 3 then 1 else 0) == left
  }

  lemma MsgsAppend(es: seq<Event>, e: Event)
    ensures Msgs(es + [e]) == Msgs(es) + [e.msg]
  {
    assert (es + [e])[..|es|] == es;
  }

  lemma AgreesNext(start: Proc, p: Proc, es: seq<Event>, i: nat, first: Msg)
    requires ProcOk(p) && !Finished(p) && Agrees(start, p, es)
    ensures ProcOk(NextProc(p, first))
    ensures Agrees(start, NextProc(p, first), es + Logged(p, i, first))
  {
    var l := Logged(p, i, first);
    if l != [] {
      MsgsAppend(es, l[0]);
      assert l == [l[0]];
    } else {
      assert es + l == es;
    }
  }

  lemma ByAppend(log: seq<Event>, es: seq<Event>, i: nat)
    requires |es| <= 1
    ensures By(log + es, i) == By(log, i) + (if es != [] && es[0].pid == i then es else [])
  {
    if es != [] {
      assert es == [es[0]];
      Extend(0, log, es[0]);
    } else {
      assert log + es == log;
    }
  }

  lemma AgreesStep(s: State, k: nat, t: State, start: Proc, i: nat)
    requires WellFormed(s) && WellFormed(t) && Moves(s, k, t) && i < |s.procs|
    requires ProcOk(s.procs[i]) && ProcOk(t.procs[i])
    requires Agrees(start, s.procs[i], By(s.log, i))
    ensures Agrees(start, t.procs[i], By(t.log, i))
  {
    var es := Logged(s.procs[k], k, s.slots[0]);
    ByAppend(s.log, es, i);
    if i == k {
      AgreesNext(start, s.procs[i], By(s.log, i), i, s.slots[0]);
      assert By(t.log, i) == By(s.log, i) + es;
    } else {
      assert By(t.log, i) == By(s.log, i);
    }
  }

  // Under every combination of repairs, the history of stores and takes is what the callers saw.
  lemma {:induction false} HistoryIsReal(c: Config, r: QueueRun, i: nat)
    requires IsRun(c, r) && Initial(First(r)) && i < |First(r).procs|
    ensures WellFormed(r.last) && |r.last.procs| == |First(r).procs|
    ensures Agrees(First(r).procs[i], r.last.procs[i], By(r.last.log, i))
  {
    if r.Start? {
    } else {
      HistoryIsReal(c, r.before, i);
      StepProc(c, r.before.last, r.who, r.last);
      AgreesStep(r.before.last, r.who, r.last, First(r).procs[i], i);
    }
  }

  // Stores are made by senders and takes by receivers.
  ghost predicate Attributed(s: State) {
    forall k :: 0 <= k < |s.log| ==>
      s.log[k].pid < |s.procs| && (s.log[k].Put? <==> s.procs[s.log[k].pid].Sender?)
  }

  lemma {:induction false} AttributedRun(c: Config, r: QueueRun)
    requires IsRun(c, r) && Initial(First(r))
    ensures Attributed(r.last)
  {
    if r.Start? {
    } else {
      AttributedRun(c, r.before);
      StepMoves(c, r.before.last, r.who, r.last);
    }
  }

  lemma {:induction false} MsgsAt(es: seq<Event>)
    ensures |Msgs(es)| == |es|
    ensures forall k :: 0 <= k < |es| ==> Msgs(es)[k] == es[k].msg
  {
    if es == [] {
    } else {
      MsgsAt(es[..|es| - 1]);
    }
  }

  lemma {:induction false} PutAt(log: seq<Event>, m: Msg) returns (i: nat, a: nat)
    requires m in Puts(log)
    ensures a < |By(log, i)| && By(log, i)[a] == Put(i, m)
  {
    var before, e := log[..|log| - 1], log[|log| - 1];
    if e.Put? && e.msg == m {
      i := e.pid;
      a := |By(before, i)|;
    } else {
      i, a := PutAt(before, m);
    }
  }

  lemma {:induction false} ByIn(log: seq<Event>, i: nat, a: nat)
    requires a < |By(log, i)|
    ensures By(log, i)[a] in log
  {
    var before := log[..|log| - 1];
    if a < |By(before, i)| {
      ByIn(before, i, a);
    }
  }

  // A stored message is one that a sender was given, and that sender has stored that far.
  lemma WhoStored(c: Config, r: QueueRun, m: Msg) returns (i: nat, a: nat)
    requires IsRun(c, r) && Initial(First(r)) && m in Puts(r.last.log)
    ensures i < |First(r).procs| && First(r).procs[i].Sender?
    ensures a < |By(r.last.log, i)| && a < |First(r).procs[i].todo| && First(r).procs[i].todo[a] == m
  {
    i, a := PutAt(r.last.log, m);
    AttributedRun(c, r);
    ByIn(r.last.log, i, a);
    ProcsKept(c, r);
    HistoryIsReal(c, r, i);
    MsgsAt(By(r.last.log, i));
  }

  lemma {:induction false} ProcsKept(c: Config, r: QueueRun)
    requires IsRun(c, r)
    ensures |r.last.procs| == |First(r).procs|
  {
    if r.Start? {
    } else {
      ProcsKept(c, r.before);
    }
  }

  // What senders stored is part of all that was stored.
  lemma {:induction false} StoredBy(log: seq<Event>, i: nat, j: nat)
    requires forall k :: 0 <= k < |log| && log[k].pid in {i, j} ==> log[k].Put?
    ensures |Puts(log)| >= |By(log, i)|
    ensures i != j ==> |Puts(log)| >= |By(log, i)| + |By(log, j)|
  {
    if log == [] {
    } else {
      assert log[|log| - 1].pid in {i, j} ==> log[|log| - 1].Put?;
      StoredBy(log[..|log| - 1], i, j);
    }
  }

  // Takes a receiver has still to make.
  function ToGet(): Proc -> int {
    (p: Proc) => if p.Receiver? then p.left - (if p.pc > 3 then 1 else 0) else 0
  }

  lemma {:induction false} GetsCounted(c: Config, r: QueueRun)
    requires IsRun(c, r) && Initial(First(r))
    ensures WellFormed(r.last)
    ensures |Gets(r.last.log)| + Total(ToGet(), r.last.procs) == Total(ToGet(), First(r).procs)
  {
    if r.Start? {
    } else {
      var s, t := r.before.last, r.last;
      GetsCounted(c, r.before);
      StepProc(c, s, r.who, t);
      TotalUpdate(ToGet(), s.procs, r.who, t.procs[r.who]);
      var es := Logged(s.procs[r.who], r.who, s.slots[0]);
      if es == [] {
        assert t.log == s.log;
      } else {
        assert es == [es[0]];
        Extend(0, s.log, es[0]);
      }
    }
  }

  lemma {:induction false} GetsAreTakes(c: Config, ps: seq<Proc>)
    requires forall k :: 0 <= k < |ps| ==> ps[k].pc == 0
    ensures Total(ToGet(), ps) == Total(ToTake(c), ps)
  {
    if ps == [] {
    } else {
      GetsAreTakes(c, ps[1..]);
    }
  }

  // No more is taken than there are receives to make.
  lemma TakesBounded(c: Config, r: QueueRun)
    requires IsRun(c, r) && Initial(First(r))
    ensures |Gets(r.last.log)| <= Receives(c, First(r))
  {
    GetsCounted(c, r);
    GetsAreTakes(c, First(r).procs);
    forall k | 0 <= k < |r.last.procs| ensures ToGet()(r.last.procs[k]) >= 0 {
      assert ProcOk(r.last.procs[k]);
    }
    TotalAtLeast(ToGet(), r.last.procs);
  }
}
