// When a stored message can have to go before another one: the systems on which the shift as
// written is ever used.
module QueueOrder {
  import opened Messages
  import opened Options
  import opened SequentialQueue
  import opened QueueProtocol
  import opened Runs
  import opened QueueTokens
  import opened QueueHistory

  // The a-th message of sender i has a lower priority than the b-th of sender j; within one
  // sender the two are neighbours.
  predicate Ascent(s: State, i: nat, a: nat, j: nat, b: nat) {
    && i < |s.procs| && s.procs[i].Sender? && a < |s.procs[i].todo|
    && j < |s.procs| && s.procs[j].Sender? && b < |s.procs[j].todo|
    && s.procs[i].todo[a].prio < s.procs[j].todo[b].prio
    && (i == j ==> b == a + 1)
  }

  // The messages that have to be stored before the two.
  function Earlier(i: nat, a: nat, j: nat, b: nat): nat {
    if i == j then a else a + b
  }

  // The lower-priority message can still be in the queue when the other one comes: both fit,
  // once what comes earlier has been received as far as possible.
  ghost predicate Ascends(c: Config, s: State) {
    && |s.slots| >= 2
    && exists i: nat, a: nat, j: nat, b: nat ::
         Ascent(s, i, a, j, b) && Earlier(i, a, j, b) + 2 <= |s.slots| + Receives(c, s)
  }

  // Stores put every message in its place: the shift is full, or never moves anything.
  ghost predicate StoresInPlace(c: Config, s: State) {
    c.fullShift || !Ascends(c, s)
  }

  lemma {:induction false} Neighbours(todo: seq<Msg>, a: nat, b: nat) returns (k: nat)
    requires a < b < |todo| && todo[a].prio < todo[b].prio
    ensures a <= k < b && todo[k].prio < todo[k + 1].prio
    decreases b - a
  {
    if todo[a].prio < todo[a + 1].prio {
      k := a;
    } else {
      k := Neighbours(todo, a + 1, b);
    }
  }

  lemma InQueueWasStored(cap: nat, log: seq<Event>, m: Msg)
    requires Replay(cap, log).Some? && m in Replay(cap, log).value
    ensures m in Puts(log)
  {
    ReplayConserves(cap, log);
    assert m in multiset(Puts(log));
  }

  // A lower-priority message in the queue of a sender about to store is an ascent.
  lemma OvertakenIsAscent(c: Config, r: QueueRun, j: nat, p: Msg)
    requires IsRun(c, r) && Initial(First(r))
    requires j < |r.last.procs| && r.last.procs[j].Sender? && r.last.procs[j].pc == 3 && !Finished(r.last.procs[j])
    requires p in Puts(r.last.log) && p.prio < r.last.procs[j].todo[0].prio
    requires |Puts(r.last.log)| - |Gets(r.last.log)| < |First(r).slots| && |First(r).slots| >= 2
    ensures Ascends(c, First(r))
  {
    var log, m := r.last.log, r.last.procs[j].todo[0];
    ProcsKept(c, r);
    HistoryIsReal(c, r, j);
    MsgsAt(By(log, j));
    var b := |By(log, j)|;
    assert First(r).procs[j].todo[b] == m;
    var i, a := WhoStored(c, r, p);
    AttributedRun(c, r);
    HistoryIsReal(c, r, i);
    StoredBy(log, j, i);
    TakesBounded(c, r);
    if i == j {
      var k := Neighbours(First(r).procs[j].todo, a, b);
      assert Ascent(First(r), j, k, j, k + 1);
    } else {
      assert Ascent(First(r), i, a, j, b);
    }
  }

  // Without ascents a message that is stored goes to the end, under every combination of repairs.
  lemma GoesLast(c: Config, r: QueueRun, j: nat, q: seq<Msg>)
    requires IsRun(c, r) && Initial(First(r)) && !Ascends(c, First(r))
    requires j < |r.last.procs| && r.last.procs[j].Sender? && r.last.procs[j].pc == 3 && !Finished(r.last.procs[j])
    requires Replay(|First(r).slots|, r.last.log) == Some(q) && |q| < |First(r).slots|
    ensures forall k :: 0 <= k < |q| ==> q[k].prio >= r.last.procs[j].todo[0].prio
  {
    ReplaySorted(|First(r).slots|, r.last.log);
    forall k | 0 <= k < |q| ensures q[k].prio >= r.last.procs[j].todo[0].prio {
      if q[k].prio < r.last.procs[j].todo[0].prio {
        InQueueWasStored(|First(r).slots|, r.last.log, q[k]);
        OvertakenIsAscent(c, r, j, q[k]);
      }
    }
  }
}
