// What the unlocked count does when it is read and written by more than one process: updates
// are lost, exactly where the count is not safe, and a store can find the count lowered under it.
module QueueRace {
  import opened SequentialQueue
  import opened QueueProtocol
  import opened Runs
  import opened QueueTokens
  import opened Totals
  import opened QueueDeadlock
  import opened QueueRefinement
  import opened QueueRange
  import opened QueueLate
  import opened QueueExclusive
  import opened QueueSplit
  import opened QueueReduce
  import opened QueueExpand
  import Slots

  // A process that can begin a call, with nobody inside.
  ghost predicate Begins(f: Split, j: nat) {
    && |f.at| == |f.s.procs|
    && j < |f.at| && f.at[j].Rest? && f.s.procs[j].pc == 0 && !Finished(f.s.procs[j])
    && f.s.slots != [] && f.s.mutex == 1
    && (if f.s.procs[j].Sender? then f.s.free > 0 else f.s.avail > 0)
  }

  // The mutex and a token are taken, in either order.
  lemma SendEnters(c: Config, fr: SplitRun, j: nat) returns (fr': SplitRun)
    requires IsSplitRun(c, fr) && Begins(fr.last, j) && fr.last.s.procs[j].Sender?
    ensures IsSplitRun(c, fr') && First(fr') == First(fr)
    ensures var s := fr.last.s;
            fr'.last == Split(s.(mutex := 0, free := s.free - 1, procs := s.procs[j := Sender(s.procs[j].todo, 2)]),
                              fr.last.at)
  {
    fr' := StepAlone(c, fr, j);
    fr' := StepAlone(c, fr', j);
  }

  lemma SendBegins(c: Config, fr: SplitRun, j: nat) returns (fr': SplitRun)
    requires IsSplitRun(c, fr) && Begins(fr.last, j) && fr.last.s.procs[j].Sender?
    ensures IsSplitRun(c, fr') && First(fr') == First(fr)
    ensures var s := fr.last.s;
            fr'.last == Split(s.(mutex := 0, free := s.free - 1, avail := s.avail + 1,
                                 procs := s.procs[j := Sender(s.procs[j].todo, 3)]), fr.last.at)
  {
    fr' := SendEnters(c, fr, j);
    fr' := StepAlone(c, fr', j);
  }

  lemma ReceiveEnters(c: Config, fr: SplitRun, j: nat) returns (fr': SplitRun)
    requires IsSplitRun(c, fr) && Begins(fr.last, j) && fr.last.s.procs[j].Receiver?
    ensures IsSplitRun(c, fr') && First(fr') == First(fr)
    ensures var s := fr.last.s;
            var p := Receiver(s.procs[j].left, 2, s.procs[j].got);
            fr'.last == Split(s.(mutex := 0, avail := s.avail - 1, procs := s.procs[j := p]), fr.last.at)
  {
    var p := fr.last.s.procs[j];
    fr' := StepAlone(c, fr, j);
    assert fr'.last.s.procs[j] == Receiver(p.left, 1, p.got);
    fr' := StepAlone(c, fr', j);
  }

  // A receiver up to its taking of the message.
  lemma Takes(c: Config, fr: SplitRun, j: nat) returns (fr': SplitRun)
    requires IsSplitRun(c, fr) && Begins(fr.last, j) && fr.last.s.procs[j].Receiver?
    ensures IsSplitRun(c, fr') && First(fr') == First(fr) && fr'.last.at == fr.last.at
    ensures fr'.last.s.avail == fr.last.s.avail - 1 && fr'.last.s.cur == fr.last.s.cur - 1
    ensures fr'.last.s.slots == fr.last.s.slots && |fr'.last.s.procs| == |fr.last.s.procs|
    ensures forall k :: 0 <= k < |fr.last.s.procs| && k != j ==> fr'.last.s.procs[k] == fr.last.s.procs[k]
    ensures fr'.last.s.procs[j].Receiver? && fr'.last.s.procs[j].pc == 4
  {
    fr' := ReceiveEnters(c, fr, j);
    fr' := StepAlone(c, fr', j);
    fr' := StepAlone(c, fr', j);
  }

  // A store and the release of the mutex.
  lemma CallStores(c: Config, fr: SplitRun, j: nat) returns (fr': SplitRun)
    requires !c.countInside && IsSplitRun(c, fr) && fr.last.s.mutex == 0
    requires AboutToStore(c, fr.last, j) && fr.last.at[j].Rest?
    ensures IsSplitRun(c, fr') && First(fr') == First(fr)
    ensures var s := fr.last.s;
            var m := s.procs[j].todo[0];
            fr'.last == Split(s.(slots := Slots.Store(c.fullShift, s.slots, s.cur, m), log := s.log + [Put(j, m)],
                                 mutex := 1, procs := s.procs[j := Sender(s.procs[j].todo, 5)]), fr.last.at)
  {
    fr' := StepAlone(c, fr, j);
    fr' := StepAlone(c, fr', j);
  }

  // A sender up to the point where it has stored and released the mutex.
  lemma UpToCount(c: Config, fr: SplitRun, j: nat) returns (fr': SplitRun)
    requires !c.countInside && IsSplitRun(c, fr) && Begins(fr.last, j) && fr.last.s.procs[j].Sender?
    requires fr.last.s.cur < |fr.last.s.slots|
    ensures IsSplitRun(c, fr') && First(fr') == First(fr)
    ensures var s := fr.last.s;
            var m := s.procs[j].todo[0];
            fr'.last == Split(s.(slots := Slots.Store(c.fullShift, s.slots, s.cur, m), log := s.log + [Put(j, m)],
                                 free := s.free - 1, avail := s.avail + 1,
                                 procs := s.procs[j := Sender(s.procs[j].todo, 5)]), fr.last.at)
  {
    fr' := SendBegins(c, fr, j);
    fr' := CallStores(c, fr', j);
  }

  // The count is raised by a process that nobody comes between.
  lemma CountsAlone(c: Config, fr: SplitRun, j: nat) returns (fr': SplitRun)
    requires !c.countInside && IsSplitRun(c, fr) && |fr.last.at| == |fr.last.s.procs| && fr.last.s.slots != []
    requires j < |fr.last.at| && fr.last.at[j].Rest? && Sending(fr.last.s.procs[j]) && fr.last.s.procs[j].pc == 5
    ensures IsSplitRun(c, fr') && First(fr') == First(fr)
    ensures var s := fr.last.s;
            fr'.last == Split(s.(cur := s.cur + 1, procs := s.procs[j := Sender(s.procs[j].todo[1..], 0)]), fr.last.at)
  {
    fr' := StepAlone(c, fr, j);
  }

  // A whole send.
  lemma SendAlone(c: Config, fr: SplitRun, j: nat) returns (fr': SplitRun)
    requires !c.countInside && IsSplitRun(c, fr) && Begins(fr.last, j) && fr.last.s.procs[j].Sender?
    requires fr.last.s.cur < |fr.last.s.slots|
    ensures IsSplitRun(c, fr') && First(fr') == First(fr)
    ensures var s := fr.last.s;
            var m := s.procs[j].todo[0];
            fr'.last == Split(s.(slots := Slots.Store(c.fullShift, s.slots, s.cur, m), log := s.log + [Put(j, m)],
                                 free := s.free - 1, avail := s.avail + 1, cur := s.cur + 1,
                                 procs := s.procs[j := Sender(s.procs[j].todo[1..], 0)]), fr.last.at)
  {
    fr' := UpToCount(c, fr, j);
    fr' := CountsAlone(c, fr', j);
  }

  // The count is read, and written back later.
  lemma Loads(c: Config, fr: SplitRun, j: nat) returns (fr': SplitRun)
    requires !c.countInside && IsSplitRun(c, fr) && |fr.last.at| == |fr.last.s.procs| && fr.last.s.slots != []
    requires j < |fr.last.at| && fr.last.at[j].Rest? && Sending(fr.last.s.procs[j]) && fr.last.s.procs[j].pc == 5
    ensures IsSplitRun(c, fr') && First(fr') == First(fr)
    ensures fr'.last == Split(fr.last.s, fr.last.at[j := Loaded(fr.last.s.cur)])
  {
    fr' := SplitExtended(c, fr, j);
  }

  lemma Writes(c: Config, fr: SplitRun, j: nat, n: int) returns (fr': SplitRun)
    requires !c.countInside && IsSplitRun(c, fr) && |fr.last.at| == |fr.last.s.procs| && fr.last.s.slots != []
    requires j < |fr.last.at| && fr.last.at[j] == Loaded(n) && Sending(fr.last.s.procs[j]) && fr.last.s.procs[j].pc == 5
    ensures IsSplitRun(c, fr') && First(fr') == First(fr)
    ensures var s := fr.last.s;
            fr'.last == Split(s.(cur := n + 1, procs := s.procs[j := Sender(s.procs[j].todo[1..], 0)]),
                              fr.last.at[j := Rest])
  {
    fr' := SplitExtended(c, fr, j);
  }

  // Sender i stores first, and has read the count but not written it back.
  lemma LoadsFirst(c: Config, s: State, i: nat) returns (fr: SplitRun)
    requires !c.countInside && Initial(s) && i < |s.procs| && Sending(s.procs[i])
    ensures IsSplitRun(c, fr) && First(fr) == AtRest(s)
    ensures fr.last.at == AtRest(s).at[i := Loaded(0)]
    ensures var t := fr.last.s;
            && |t.slots| == |s.slots| && t.cur == 0 && t.mutex == 1 && t.free == |s.slots| - 1 && t.avail == 1
            && t.procs == s.procs[i := Sender(s.procs[i].todo, 5)]
  {
    fr := UpToCount(c, Start(AtRest(s)), i);
    fr := Loads(c, fr, i);
  }

  // The equation between the count, the uncounted stores and the message tokens.
  ghost predicate CountAdds(c: Config, s: State) {
    Accounts(c, s, s.cur + Total(Uncounted(c), s.procs))
  }

  // With no message token or store under way it is an equation between the count and the tokens.
  lemma CountAddsAtRest(c: Config, s: State)
    requires forall k :: 0 <= k < |s.procs| ==> s.procs[k].pc == 0 || (s.procs[k].Receiver? && s.procs[k].pc == 4)
    ensures CountAdds(c, s) <==> s.cur == s.avail
  {
    TotalZero(Uncounted(c), s.procs);
    TotalZero(TakePending(c), s.procs);
    TotalZero(StorePending(), s.procs);
  }

  // Another sender makes its whole call between the reading and the writing.
  lemma SendLost(c: Config, s: State, i: nat, j: nat) returns (fr: SplitRun)
    requires !c.countInside && Initial(s) && |s.slots| >= 2
    requires i < |s.procs| && Sending(s.procs[i]) && j < |s.procs| && Sending(s.procs[j]) && i != j
    ensures IsSplitRun(c, fr) && First(fr) == AtRest(s) && !CountAdds(c, fr.last.s)
  {
    fr := LoadsFirst(c, s, i);
    fr := SendAlone(c, fr, j);
    fr := Writes(c, fr, i, 0);
    CountAddsAtRest(c, fr.last.s);
  }

  // A receiver lowers the count between the reading and the writing.
  lemma ReceiveLost(c: Config, s: State, i: nat, j: nat) returns (fr: SplitRun)
    requires !c.countInside && Initial(s) && i < |s.procs| && Sending(s.procs[i])
    requires j < |s.procs| && s.procs[j].Receiver? && !Finished(s.procs[j])
    ensures IsSplitRun(c, fr) && First(fr) == AtRest(s) && !CountAdds(c, fr.last.s)
  {
    fr := LoadsFirst(c, s, i);
    fr := Takes(c, fr, j);
    fr := Writes(c, fr, i, 0);
    CountAddsAtRest(c, fr.last.s);
  }

  // The count with the stores not yet counted is what the message tokens say, in every run,
  // exactly when it is safe.
  lemma CountExactly(c: Config, s: State)
    requires Initial(s)
    ensures (forall fr: SplitRun :: IsSplitRun(c, fr) && First(fr) == AtRest(s) ==> CountAdds(c, fr.last.s)) <==>
            CountSafe(c, s)
  {
    if CountSafe(c, s) {
      forall fr: SplitRun | IsSplitRun(c, fr) && First(fr) == AtRest(s) ensures CountAdds(c, fr.last.s) {
        var r := Reduce(c, fr);
        CountRun(c, r);
      }
    } else if Receives(c, s) != 0 {
      TakesLeft(c, s);
      var i := SenderExists(c, s);
      var j := ReceiverExists(c, s.procs);
      var fr := ReceiveLost(c, s, i, j);
    } else {
      var i, j :| 0 <= i < |s.procs| && 0 <= j < |s.procs| && Sending(s.procs[i]) && Sending(s.procs[j]) && i != j;
      var fr := SendLost(c, s, i, j);
    }
  }

  // Where it is safe and nobody holds the mutex, the semaphores count messages and empty slots,
  // but for the tokens of waiting calls and the stores not yet counted.
  lemma SemaphoresCount(c: Config, fr: SplitRun)
    requires IsSplitRun(c, fr) && Initial(First(fr).s) && First(fr) == AtRest(First(fr).s)
    requires CountSafe(c, First(fr).s) && fr.last.s.mutex > 0
    ensures var s := fr.last.s;
            && s.avail + Total(TokenHeld(c), s.procs) == s.cur + Total(Uncounted(c), s.procs)
            && s.free + Total(SlotHeld(c), s.procs) == |s.slots| - s.cur - Total(Uncounted(c), s.procs)
            && (c.countInside ==> Total(Uncounted(c), s.procs) == 0)
            && (!c.tokenFirst ==> Total(TokenHeld(c), s.procs) == Total(SlotHeld(c), s.procs) == 0)
  {
    var r := Reduce(c, fr);
    SemaphoresCountTheQueue(c, r);
  }
}
