// The sequential bounded priority queue: the meaning of a history of completed
// insertions and removals, without any array, semaphore or process.
module SequentialQueue {
  import opened Messages
  import opened Options

  datatype Event = Put(pid: nat, msg: Msg) | Got(pid: nat, msg: Msg)

  // One operation: inserting needs room, and removing yields the head.
  function Apply(cap: nat, q: seq<Msg>, e: Event): Option<seq<Msg>> {
    match e
    case Put(_, m) => if |q| < cap then Some(Insert(q, m)) else None
    case Got(_, m) => if q != [] && q[0] == m then Some(q[1..]) else None
  }

  // The queue after a history, or None when the history is not one of this queue.
  function Replay(cap: nat, log: seq<Event>): Option<seq<Msg>> {
    if log == [] then Some([])
    else
      match Replay(cap, log[..|log| - 1])
      case None => None
      case Some(q) => Apply(cap, q, log[|log| - 1])
  }

  function Puts(log: seq<Event>): seq<Msg> {
    if log == [] then []
    else
      var e := log[|log| - 1];
      Puts(log[..|log| - 1]) + (if e.Put? then [e.msg] else [])
  }

  function Gets(log: seq<Event>): seq<Msg> {
    if log == [] then []
    else
      var e := log[|log| - 1];
      Gets(log[..|log| - 1]) + (if e.Got? then [e.msg] else [])
  }

  // The part of a history that one process performed.
  function By(log: seq<Event>, pid: nat): seq<Event> {
    if log == [] then []
    else
      var e := log[|log| - 1];
      By(log[..|log| - 1], pid) + (if e.pid == pid then [e] else [])
  }

  lemma Extend(cap: nat, log: seq<Event>, e: Event)
    ensures Replay(cap, log + [e]) ==
            match Replay(cap, log) { case None => None case Some(q) => Apply(cap, q, e) }
    ensures Puts(log + [e]) == Puts(log) + (if e.Put? then [e.msg] else [])
    ensures Gets(log + [e]) == Gets(log) + (if e.Got? then [e.msg] else [])
    ensures forall pid :: By(log + [e], pid) == By(log, pid) + (if e.pid == pid then [e] else [])
  {
    assert (log + [e])[..|log|] == log;
  }

  // A legal history keeps the queue sorted and within its capacity.
  lemma {:induction false} ReplaySorted(cap: nat, log: seq<Event>)
    requires Replay(cap, log).Some?
    ensures Sorted(Replay(cap, log).value)
    ensures |Replay(cap, log).value| <= cap
    ensures |Replay(cap, log).value| + |Gets(log)| == |Puts(log)|
  {
    if log == [] {
    } else {
      var before, e := log[..|log| - 1], log[|log| - 1];
      ReplaySorted(cap, before);
      if e.Put? {
        InsertKeepsSorted(Replay(cap, before).value, e.msg);
      }
    }
  }

  // Nothing is lost and nothing is duplicated.
  lemma {:induction false} ReplayConserves(cap: nat, log: seq<Event>)
    requires Replay(cap, log).Some?
    ensures multiset(Puts(log)) == multiset(Gets(log)) + multiset(Replay(cap, log).value)
  {
    if log == [] {
    } else {
      var before, e := log[..|log| - 1], log[|log| - 1];
      ReplayConserves(cap, before);
      var q := Replay(cap, before).value;
      if e.Put? {
        InsertMultiset(q, e.msg);
      } else {
        HeadAndRest(q);
      }
    }
  }

  lemma PutFifo(puts: seq<Msg>, gets: seq<Msg>, q: seq<Msg>, m: Msg, p: nat)
    requires Sorted(q) && OfPrio(puts, p) == OfPrio(gets, p) + OfPrio(q, p)
    ensures OfPrio(puts + [m], p) == OfPrio(gets, p) + OfPrio(Insert(q, m), p)
  {
    InsertIsStable(q, m, p);
    OfPrioAppend(puts, m, p);
    Assoc(OfPrio(gets, p), OfPrio(q, p), ClassOf(m, p));
  }

  lemma GotFifo(puts: seq<Msg>, gets: seq<Msg>, q: seq<Msg>, p: nat)
    requires q != [] && OfPrio(puts, p) == OfPrio(gets, p) + OfPrio(q, p)
    ensures OfPrio(puts, p) == OfPrio(gets + [q[0]], p) + OfPrio(q[1..], p)
  {
    OfPrioAppend(gets, q[0], p);
    OfPrioHead(q, p);
    Assoc(OfPrio(gets, p), ClassOf(q[0], p), OfPrio(q[1..], p));
  }

  // Within a priority, messages leave in the order in which they came.
  lemma {:induction false} ReplayFifo(cap: nat, log: seq<Event>, p: nat)
    requires Replay(cap, log).Some?
    ensures OfPrio(Puts(log), p) == OfPrio(Gets(log), p) + OfPrio(Replay(cap, log).value, p)
  {
    if log == [] {
    } else {
      var before, e := log[..|log| - 1], log[|log| - 1];
      ReplayFifo(cap, before, p);
      ReplaySorted(cap, before);
      var q := Replay(cap, before).value;
      if e.Put? {
        PutFifo(Puts(before), Gets(before), q, e.msg, p);
        assert Gets(log) == Gets(before);
      } else {
        GotFifo(Puts(before), Gets(before), q, p);
        assert Puts(log) == Puts(before);
      }
    }
  }

  // The queue after inserting a list of messages into an empty one.
  function InsertAll(msgs: seq<Msg>): seq<Msg> {
    if msgs == [] then [] else Insert(InsertAll(msgs[..|msgs| - 1]), msgs[|msgs| - 1])
  }

  lemma {:induction false} InsertAllSorts(msgs: seq<Msg>)
    ensures IsStableSort(InsertAll(msgs), msgs)
    ensures |InsertAll(msgs)| == |msgs|
    ensures multiset(InsertAll(msgs)) == multiset(msgs)
  {
    if msgs == [] {
    } else {
      var before, m := msgs[..|msgs| - 1], msgs[|msgs| - 1];
      assert msgs == before + [m];
      InsertAllSorts(before);
      InsertKeepsSorted(InsertAll(before), m);
      InsertMultiset(InsertAll(before), m);
      forall p: nat ensures OfPrio(InsertAll(msgs), p) == OfPrio(msgs, p) {
        InsertIsStable(InsertAll(before), m, p);
        OfPrioAppend(before, m, p);
      }
    }
  }
}
