// Which systems can finish: a run that makes every call exists for the same systems in either
// lock order.
module QueueFinish {
  import opened QueueProtocol
  import opened Runs
  import opened QueueTokens
  import opened Totals
  import opened QueueDeadlock
  import opened QueueRuns

  // Between calls, with l messages in the queue.
  ghost predicate Calm(s: State, l: nat) {
    Quiescent(s) && s.slots != [] && s.mutex == 1 && s.avail == l <= |s.slots| && s.free == |s.slots| - l
  }

  lemma SendCalm(c: Config, r: QueueRun, l: nat) returns (r': QueueRun)
    requires IsRun(c, r) && Calm(r.last, l) && l < |r.last.slots| && Sends(r.last) > 0
    ensures IsRun(c, r') && First(r') == First(r) && Calm(r'.last, l + 1)
    ensures |r'.last.slots| == |r.last.slots|
    ensures Sends(r'.last) == Sends(r.last) - 1 && Receives(c, r'.last) == Receives(c, r.last)
  {
    var i := Positive(ToGive(), r.last.procs);
    r' := SendAlone(c, r, i);
    TotalUpdate(ToGive(), r.last.procs, i, r'.last.procs[i]);
    TotalUpdate(ToTake(c), r.last.procs, i, r'.last.procs[i]);
  }

  lemma ReceiveCalm(c: Config, r: QueueRun, l: nat) returns (r': QueueRun)
    requires IsRun(c, r) && Calm(r.last, l) && l > 0 && Receives(c, r.last) > 0
    ensures IsRun(c, r') && First(r') == First(r) && Calm(r'.last, l - 1)
    ensures |r'.last.slots| == |r.last.slots|
    ensures Sends(r'.last) == Sends(r.last) && Receives(c, r'.last) == Receives(c, r.last) - 1
  {
    var i := ReceiverExists(c, r.last.procs);
    r' := ReceiveBegins(c, r, i);
    r' := ReceiveEnds(c, r', i);
    assert r'.last.procs == r.last.procs[i := r'.last.procs[i]];
    TotalUpdate(ToGive(), r.last.procs, i, r'.last.procs[i]);
    TotalUpdate(ToTake(c), r.last.procs, i, r'.last.procs[i]);
  }

  // Receiving whenever there is a message and sending otherwise.
  lemma {:induction false} FinishFrom(c: Config, r: QueueRun, l: nat) returns (r': QueueRun)
    requires IsRun(c, r) && Calm(r.last, l)
    requires Sends(r.last) >= 0 && Receives(c, r.last) >= 0
    requires 0 <= l + Sends(r.last) - Receives(c, r.last) <= |r.last.slots|
    ensures IsRun(c, r') && First(r') == First(r) && AllFinished(r'.last)
    decreases Sends(r.last) + Receives(c, r.last)
  {
    if Sends(r.last) == 0 && Receives(c, r.last) == 0 {
      r' := r;
      NoneLeft(c, r.last.procs, true);
      NoneLeft(c, r.last.procs, false);
    } else if l > 0 && Receives(c, r.last) > 0 {
      r' := ReceiveCalm(c, r, l);
      r' := FinishFrom(c, r', l - 1);
    } else {
      r' := SendCalm(c, r, l);
      r' := FinishFrom(c, r', l + 1);
    }
  }

  // Some run from s makes every call.
  ghost predicate CanFinish(c: Config, s: State) {
    exists r: QueueRun :: IsRun(c, r) && First(r) == s && AllFinished(r.last)
  }

  // The exact condition. With a token taken before the mutex it is also the one under which every
  // run finishes; with the written order every system that receives can get stuck all the same.
  lemma FinishPossible(c: Config, s: State)
    requires Initial(s)
    ensures CanFinish(c, s) <==> Receives(c, s) <= Sends(s) <= Receives(c, s) + |s.slots|
    ensures c.tokenFirst ==> (CanFinish(c, s) <==> !CanDeadlock(c, s))
  {
    InitialTokens(c, s);
    DeadlockPossible(c, s);
    NoneLeft(c, s.procs, true);
    NoneLeft(c, s.procs, false);
    if Receives(c, s) <= Sends(s) <= Receives(c, s) + |s.slots| {
      var r := FinishFrom(c, Start(s), 0);
    }
    if r :| IsRun(c, r) && First(r) == s && AllFinished(r.last) {
      TokensRun(c, r, Sends(s) - Receives(c, s));
      SlotsKept(c, r);
      FinishedSurplus(c, r.last, Sends(s) - Receives(c, s));
    }
  }
}
