// Which systems the queue serves rightly with and without two of the repairs, exactly, in
// either lock order and with the accesses to the count taken apart: whose moves stay inside the
// array, and whose contents are those that the history says whatever the array held at the start.
module QueueRepairs {
  import opened Messages
  import opened Options
  import opened SequentialQueue
  import opened QueueProtocol
  import opened Runs
  import opened QueueTokens
  import opened Totals
  import opened QueueDeadlock
  import opened QueueHistory
  import opened QueueOrder
  import opened QueueRefinement
  import opened QueueRange
  import opened QueueLate
  import opened QueueRuns
  import opened QueueExclusive
  import opened QueueSplit
  import opened QueueReduce
  import opened QueueExpand
  import opened QueueProgress
  import Slots

  // Between calls the queue is what the history says.
  ghost predicate FaithfulTo(s: State) {
    Quiescent(s) ==> 0 <= s.cur <= |s.slots| && Replay(|s.slots|, s.log) == Some(s.slots[..s.cur])
  }

  ghost predicate KeepsHistory(c: Config, s: State) {
    forall fr: SplitRun :: IsSplitRun(c, fr) && First(fr) == AtRest(s) ==> FaithfulTo(fr.last.s)
  }

  // No part of a step of any run reads, moves or writes messages outside the array.
  ghost predicate StaysInRange(c: Config, s: State) {
    forall fr: SplitRun, w: nat ::
      IsSplitRun(c, fr) && First(fr) == AtRest(s) && w < |fr.last.at| && Enabled(c, fr.last.s, w) ==>
        PartInRange(c, fr.last, w)
  }

  ghost predicate Serves(c: Config, s: State) {
    KeepsHistory(c, s) && StaysInRange(c, s)
  }

  // Both, whatever the array holds at the start.
  ghost predicate Sound(c: Config, s: State) {
    forall slots: seq<Msg> :: |slots| == |s.slots| ==> Serves(c, s.(slots := slots))
  }

  // A message that no sender is given.
  ghost predicate Stranger(ps: seq<Proc>, x: Msg) {
    forall i, k :: 0 <= i < |ps| && ps[i].Sender? && 0 <= k < |ps[i].todo| ==> ps[i].todo[k] != x
  }

  lemma {:induction false} AbovePrio(todo: seq<Msg>) returns (p: nat)
    ensures forall k :: 0 <= k < |todo| ==> todo[k].prio < p
  {
    if todo == [] {
      p := 0;
    } else {
      p := AbovePrio(todo[1..]);
      p := if todo[0].prio < p then p else todo[0].prio + 1;
    }
  }

  lemma {:induction false} AboveAll(ps: seq<Proc>) returns (p: nat)
    ensures forall i, k :: 0 <= i < |ps| && ps[i].Sender? && 0 <= k < |ps[i].todo| ==> ps[i].todo[k].prio < p
  {
    if ps == [] {
      p := 0;
    } else {
      p := AboveAll(ps[1..]);
      var q := AbovePrio(if ps[0].Sender? then ps[0].todo else []);
      p := if q < p then p else q;
      forall i, k | 0 <= i < |ps| && ps[i].Sender? && 0 <= k < |ps[i].todo| ensures ps[i].todo[k].prio < p {
        if i > 0 { assert ps[i] == ps[1..][i - 1]; }
      }
    }
  }

  lemma AStranger(ps: seq<Proc>) returns (x: Msg)
    ensures Stranger(ps, x)
  {
    var p := AboveAll(ps);
    x := Msg("", p, 0);
  }

  // A message in the queue that nobody was given shows that another one is gone.
  lemma StrangerShows(c: Config, r: QueueRun, x: Msg, k: nat)
    requires IsRun(c, r) && Initial(First(r)) && Stranger(First(r).procs, x)
    requires Quiescent(r.last) && k < r.last.cur <= |r.last.slots| && r.last.slots[k] == x
    ensures !FaithfulTo(r.last)
  {
    if FaithfulTo(r.last) {
      var q := r.last.slots[..r.last.cur];
      assert q[k] == x;
      InQueueWasStored(|r.last.slots|, r.last.log, x);
      var i, a := WhoStored(c, r, x);
    }
  }

  lemma StoredIsThere(cap: nat, log: seq<Event>, e: Event)
    requires e.Put? && Replay(cap, log + [e]).Some?
    ensures e.msg in Replay(cap, log + [e]).value
  {
    Extend(cap, log, e);
    InsertMultiset(Replay(cap, log).value, e.msg);
    assert e.msg in multiset(Replay(cap, log + [e]).value);
  }

  // A send that goes before a message in the queue: with the short shift, what lay behind the
  // queue is now in it.
  lemma GoesBefore(c: Config, r: QueueRun, j: nat, l: nat, k: nat, x: Msg) returns (r': QueueRun)
    requires !c.fullShift && IsRun(c, r) && Initial(First(r)) && Stranger(First(r).procs, x)
    requires Level(r.last, l, x) && k < l < |r.last.slots|
    requires j < |r.last.procs| && r.last.procs[j].Sender? && r.last.procs[j].todo != []
    requires r.last.slots[k].prio < r.last.procs[j].todo[0].prio
    ensures IsRun(c, r') && First(r') == First(r) && !FaithfulTo(r'.last)
  {
    Slots.StoredBehind(false, r.last.slots, l, r.last.procs[j].todo[0]);
    r' := SendMore(c, r, j, l, x);
    assert r'.last.slots[l] == x;
    StrangerShows(c, r', x, l);
  }

  // Two sends, the second with the higher priority.
  lemma LastTwo(c: Config, r: QueueRun, i: nat, j: nat, l: nat, x: Msg) returns (r': QueueRun)
    requires !c.fullShift && IsRun(c, r) && Initial(First(r)) && Stranger(First(r).procs, x)
    requires Level(r.last, l, x) && l + 2 <= |r.last.slots|
    requires i < |r.last.procs| && r.last.procs[i].Sender? && r.last.procs[i].todo != []
    requires var p := r.last.procs[i];
             var ps := r.last.procs[i := Sender(p.todo[1..], 0)];
             j < |ps| && ps[j].Sender? && ps[j].todo != [] && p.todo[0].prio < ps[j].todo[0].prio
    ensures IsRun(c, r') && First(r') == First(r) && !FaithfulTo(r'.last)
  {
    var p := r.last.procs[i].todo[0];
    r' := SendMore(c, r, i, l, x);
    var s := r'.last;
    if FaithfulTo(s) {
      StoredIsThere(|s.slots|, r.last.log, Put(i, p));
      var k :| 0 <= k < l + 1 && s.slots[..l + 1][k] == p;
      r' := GoesBefore(c, r', j, l + 1, k, x);
    }
  }

  // What comes before an ascent is sent, and received as far as possible.
  lemma BeforeAscent(c: Config, r: QueueRun, i: nat, a: nat, j: nat, b: nat, x: Msg) returns (r': QueueRun, l: nat)
    requires IsRun(c, r) && Initial(r.last) && |r.last.slots| >= 2
    requires forall k :: 0 <= k < |r.last.slots| ==> r.last.slots[k] == x
    requires Ascent(r.last, i, a, j, b) && Earlier(i, a, j, b) + 2 <= |r.last.slots| + Receives(c, r.last)
    ensures IsRun(c, r') && First(r') == First(r) && Level(r'.last, l, x) && l + 2 <= |r'.last.slots|
    ensures |r'.last.procs| == |r.last.procs|
    ensures r'.last.procs[i] == Sender(r.last.procs[i].todo[a..], 0)
    ensures i != j ==> r'.last.procs[j] == Sender(r.last.procs[j].todo[b..], 0)
  {
    TakesLeft(c, r.last);
    assert Drained(c, r.last, 0, x);
    r', l := SendPrefix(c, r, i, a, 0, x);
    if i != j {
      r', l := SendPrefix(c, r', j, b, l, x);
    }
  }

  // Without the full shift every system with an ascent has a run that loses a message.
  lemma ShortShiftLoses(c: Config, s: State, x: Msg) returns (r: QueueRun)
    requires !c.fullShift && Initial(s) && Ascends(c, s) && Stranger(s.procs, x)
    requires forall k :: 0 <= k < |s.slots| ==> s.slots[k] == x
    ensures IsRun(c, r) && First(r) == s && !FaithfulTo(r.last)
  {
    var i: nat, a: nat, j: nat, b: nat :|
      Ascent(s, i, a, j, b) && Earlier(i, a, j, b) + 2 <= |s.slots| + Receives(c, s);
    var l;
    r, l := BeforeAscent(c, Start(s), i, a, j, b, x);
    r := LastTwo(c, r, i, j, l, x);
  }

  // A second sender then makes its whole call and stores in the same slot, and the first ends.
  lemma Overtaken(c: Config, r: QueueRun, i: nat, j: nat) returns (r': QueueRun)
    requires !c.countInside && IsRun(c, r) && |r.last.slots| >= 2
    requires i < |r.last.procs| && Sending(r.last.procs[i]) && r.last.procs[i].pc == 5
    requires j < |r.last.procs| && Sending(r.last.procs[j]) && r.last.procs[j].pc == 0
    requires forall k :: 0 <= k < |r.last.procs| && k != i ==> r.last.procs[k].pc == 0
    requires r.last.cur == 0 && r.last.mutex == 1 && r.last.free > 0
    ensures IsRun(c, r') && First(r') == First(r)
    ensures Quiescent(r'.last) && r'.last.cur == 2
    ensures |r'.last.slots| == |r.last.slots| && r'.last.slots[1] == r.last.slots[1]
  {
    r' := SendAlone(c, r, j);
    Slots.StoredBehind(c.fullShift, r.last.slots, 0, r.last.procs[j].todo[0]);
    r' := SendEnds(c, r', i);
  }

  // So what lay in the second slot is now in the queue.
  lemma LateCountLoses(c: Config, s: State, i: nat, j: nat, x: Msg) returns (r: QueueRun)
    requires !c.countInside && Initial(s) && |s.slots| >= 2 && s.slots[1] == x && Stranger(s.procs, x)
    requires i < |s.procs| && j < |s.procs| && i != j && Sending(s.procs[i]) && Sending(s.procs[j])
    ensures IsRun(c, r) && First(r) == s && !FaithfulTo(r.last)
  {
    r := StoresUncounted(c, Start(s), i);
    r := Overtaken(c, r, i, j);
    StrangerShows(c, r, x, 1);
  }

  // A receiver comes between the store and the count: its shift has a negative count.
  lemma LateCountLeavesArray(c: Config, s: State) returns (r: QueueRun, i: nat)
    requires !c.countInside && Initial(s) && Sends(s) > 0 && Receives(c, s) > 0
    ensures IsRun(c, r) && First(r) == s && Enabled(c, r.last, i) && !InRange(c, r.last, i)
    ensures ActionAt(c, r.last.procs[i]) == Shift
  {
    var k := Positive(ToGive(), s.procs);
    i := ReceiverExists(c, s.procs);
    r := StoresUncounted(c, Start(s), k);
    r := TakesUncounted(c, r, i);
  }

  // A run of whole steps that ends wrongly is enough.
  lemma ShowsUnfaithful(c: Config, r: QueueRun)
    requires IsRun(c, r) && Initial(First(r)) && !FaithfulTo(r.last)
    ensures !Serves(c, First(r))
  {
    var fr, out, w := Expand(c, r);
  }

  lemma ShowsOutOfRange(c: Config, r: QueueRun, i: nat)
    requires IsRun(c, r) && Initial(First(r)) && Enabled(c, r.last, i) && !InRange(c, r.last, i)
    requires ActionAt(c, r.last.procs[i]) == Shift
    ensures !StaysInRange(c, First(r))
  {
    CountRun(c, r);
    var fr, out, w := Expand(c, r);
    if !out {
      fr := ShiftLeaves(c, fr, i);
      w := i;
    }
    assert w < |fr.last.at| && Enabled(c, fr.last.s, w) && !PartInRange(c, fr.last, w);
  }

  lemma SomeLeaves(c: Config, s: State)
    requires !c.countInside && Initial(s) && Sends(s) != 0 && Receives(c, s) != 0
    ensures !StaysInRange(c, s)
  {
    InitialTokens(c, s);
    AllNonNegative(c, s.procs);
    TotalAtLeast(ToGive(), s.procs);
    TakesLeft(c, s);
    var r, i := LateCountLeavesArray(c, s);
    ShowsOutOfRange(c, r, i);
  }

  // Where the count is safe, every part of every step is inside the array.
  lemma InRangeWhenSafe(c: Config, s: State)
    requires Initial(s) && CountSafe(c, s)
    ensures StaysInRange(c, s)
  {
    forall fr: SplitRun, w: nat |
      IsSplitRun(c, fr) && First(fr) == AtRest(s) && w < |fr.last.at| && Enabled(c, fr.last.s, w)
      ensures PartInRange(c, fr.last, w)
    {
      var r := Reduce(c, fr);
      CountRun(c, r);
      ReduceStep(c, fr.last, r, w, SplitExec(c, fr.last, w));
    }
  }

  // The systems with receivers that stay inside the array in every run.
  lemma RangeWithReceives(c: Config, s: State)
    requires Initial(s) && Receives(c, s) != 0
    ensures StaysInRange(c, s) <==> c.countInside || Sends(s) == 0
  {
    if c.countInside || Sends(s) == 0 {
      InRangeWhenSafe(c, s);
    } else {
      SomeLeaves(c, s);
    }
  }

  lemma FaithfulWhenSafe(c: Config, r: QueueRun)
    requires IsRun(c, r) && Initial(First(r)) && CountSafe(c, First(r)) && StoresInPlace(c, First(r))
    ensures FaithfulTo(r.last)
  {
    if c.countInside {
      RunRefines(c, r);
    } else if Sends(First(r)) == 0 {
      IdleRun(c, r);
    } else if Quiescent(r.last) {
      LateCountFaithful(c, r);
    }
  }

  lemma SplitFaithful(c: Config, fr: SplitRun)
    requires IsSplitRun(c, fr) && Initial(First(fr).s) && First(fr) == AtRest(First(fr).s)
    requires CountSafe(c, First(fr).s) && StoresInPlace(c, First(fr).s)
    ensures FaithfulTo(fr.last.s)
  {
    var r := Reduce(c, fr);
    FaithfulWhenSafe(c, r);
    if Quiescent(fr.last.s) {
      BetweenCalls(c, fr.last, r.last);
    }
  }

  // With one slot, all stores are in place: the contents are right wherever the count is safe.
  lemma SingleSlotFaithful(c: Config, fr: SplitRun)
    requires IsSplitRun(c, fr) && Initial(First(fr).s) && First(fr) == AtRest(First(fr).s)
    requires CountSafe(c, First(fr).s) && |First(fr).s.slots| == 1
    ensures FaithfulTo(fr.last.s)
  {
    SplitFaithful(c, fr);
  }

  lemma ServesWhenSafe(c: Config, s: State)
    requires Initial(s) && CountSafe(c, s) && StoresInPlace(c, s)
    ensures Serves(c, s)
  {
    forall fr: SplitRun | IsSplitRun(c, fr) && First(fr) == AtRest(s) ensures FaithfulTo(fr.last.s) {
      SplitFaithful(c, fr);
    }
    InRangeWhenSafe(c, s);
  }

  // From an array that holds nothing but a message which nobody sends, the condition is exact.
  lemma ServesExactly(c: Config, s: State, x: Msg)
    requires Initial(s) && Stranger(s.procs, x) && forall k :: 0 <= k < |s.slots| ==> s.slots[k] == x
    ensures Serves(c, s) <==> CountSafe(c, s) && StoresInPlace(c, s)
  {
    if !CountSafe(c, s) {
      if Receives(c, s) != 0 {
        SomeLeaves(c, s);
      } else {
        var i, j :| 0 <= i < |s.procs| && 0 <= j < |s.procs| && Sending(s.procs[i]) && Sending(s.procs[j]) && i != j;
        var r := LateCountLoses(c, s, i, j, x);
        ShowsUnfaithful(c, r);
      }
    } else if !StoresInPlace(c, s) {
      var r := ShortShiftLoses(c, s, x);
      ShowsUnfaithful(c, r);
    } else {
      ServesWhenSafe(c, s);
    }
  }

  // What a new segment holds.
  const ZERO := Msg("", 0, 0)

  // So it is from the zeros of a new segment, for processes that do not send them.
  lemma ServesFromZeros(c: Config, s: State)
    requires Initial(s) && Stranger(s.procs, ZERO) && forall k :: 0 <= k < |s.slots| ==> s.slots[k] == ZERO
    ensures Serves(c, s) <==> CountSafe(c, s) && StoresInPlace(c, s)
  {
    ServesExactly(c, s, ZERO);
  }

  // The conditions do not depend on what the array holds.
  lemma SameSystem(c: Config, s: State, t: State)
    requires Initial(s) && |t.slots| == |s.slots| && t == s.(slots := t.slots)
    ensures Initial(t) && Sends(t) == Sends(s) && Receives(c, t) == Receives(c, s)
    ensures CountSafe(c, t) == CountSafe(c, s)
    ensures Ascends(c, t) == Ascends(c, s)
  {
    forall i: nat, a: nat, j: nat, b: nat ensures Ascent(t, i, a, j, b) == Ascent(s, i, a, j, b) {
    }
  }

  // The systems of processes that the queue serves rightly, for every combination of repairs:
  // the count is under the mutex, or there is nothing to send, or nothing to receive and no two
  // senders to count; and the shift is full, or no message ever has to go before another.
  lemma SoundExactly(c: Config, s: State)
    requires Initial(s)
    ensures Sound(c, s) <==> CountSafe(c, s) && StoresInPlace(c, s)
  {
    if CountSafe(c, s) && StoresInPlace(c, s) {
      forall slots: seq<Msg> | |slots| == |s.slots| ensures Serves(c, s.(slots := slots)) {
        SameSystem(c, s, s.(slots := slots));
        ServesWhenSafe(c, s.(slots := slots));
      }
    } else {
      var x := AStranger(s.procs);
      var t := s.(slots := seq(|s.slots|, _ => x));
      SameSystem(c, s, t);
      ServesExactly(c, t, x);
      assert !Serves(c, t);
    }
  }

  // The code as it stands: the systems that cannot get stuck and are served rightly. Nobody may
  // receive, all messages must fit, no two senders may meet unless there is only one slot, and
  // no message may have to go before another.
  lemma AsWrittenExactly(s: State)
    requires Initial(s)
    ensures var c := Config(false, false, false);
            Sound(c, s) && !SplitCanDeadlock(c, s) <==>
            OneCounts(c, s) && Sends(s) <= |s.slots| && !Ascends(c, s)
  {
    var c := Config(false, false, false);
    SoundExactly(c, s);
    SplitDeadlockPossible(c, s);
    NoneLeft(c, s.procs, true);
    TakesLeft(c, s);
  }

  const LOW := Msg("low", 1, 4)
  const HIGH := Msg("high", 2, 5)

  function Opened(cap: nat, procs: seq<Proc>): State {
    State(seq(cap, _ => LOW), 0, 1, cap, 0, procs, [])
  }

  lemma OneOfEach(c: Config, cap: nat) returns (s: State)
    requires cap > 0
    ensures Initial(s) && |s.slots| == cap && Sends(s) == 1 && Receives(c, s) == 1
  {
    s := Opened(cap, [Sender([LOW], 0), Receiver(1, 0, [])]);
    TotalSingle(ToGive(), s.procs, 0);
    TotalSingle(ToTake(c), s.procs, 1);
  }

  // For all systems at once: no move of any of them leaves the array exactly when the count is
  // raised under the mutex.
  lemma RangeKeptExactly(c: Config, cap: nat)
    requires cap > 0
    ensures (forall s: State :: Initial(s) && |s.slots| == cap ==> StaysInRange(c, s)) <==> c.countInside
  {
    if c.countInside {
      forall s: State | Initial(s) ensures StaysInRange(c, s) {
        InRangeWhenSafe(c, s);
      }
    } else {
      var s := OneOfEach(c, cap);
      RangeWithReceives(c, s);
      assert !StaysInRange(c, s);
    }
  }

  // All of them are served rightly exactly when the count is raised under the mutex, and the
  // shift is full or there is a single slot. The lock order does not matter for this.
  lemma HistoryKeptExactly(c: Config, cap: nat)
    requires cap > 0
    ensures (forall s: State :: Initial(s) && |s.slots| == cap ==> Sound(c, s)) <==>
            c.countInside && (c.fullShift || cap == 1)
  {
    if !c.countInside {
      var s := OneOfEach(c, cap);
      SoundExactly(c, s);
      assert !Sound(c, s);
    } else if !c.fullShift && cap > 1 {
      var s := Opened(cap, [Sender([LOW, HIGH], 0)]);
      assert Ascent(s, 0, 0, 0, 1);
      TakesLeft(c, s);
      SoundExactly(c, s);
      assert !Sound(c, s);
    } else {
      forall s: State | Initial(s) && |s.slots| == cap ensures Sound(c, s) {
        SoundExactly(c, s);
      }
    }
  }
}
