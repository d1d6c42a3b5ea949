// The other way round: whole steps are what the parts of a step come to when nothing comes in
// between, so that every run of whole steps is one of the split ones.
module QueueExpand {
  import opened Messages
  import opened QueueProtocol
  import opened Runs
  import opened QueueRange
  import opened QueueSplit
  import Slots

  lemma SplitExtended(c: Config, fr: SplitRun, w: nat) returns (fr': SplitRun)
    requires IsSplitRun(c, fr) && fr.last.s.slots != [] && |fr.last.at| == |fr.last.s.procs|
    requires Enabled(c, fr.last.s, w)
    ensures fr' == Then(fr, w, SplitExec(c, fr.last, w)) && IsSplitRun(c, fr') && First(fr') == First(fr)
  {
    fr' := Then(fr, w, SplitExec(c, fr.last, w));
  }

  // w is about to store in an array that has room behind the count.
  ghost predicate AboutToStore(c: Config, f: Split, w: nat) {
    && |f.at| == |f.s.procs|
    && w < |f.at|
    && f.s.procs[w].Sender?
    && f.s.procs[w].pc == 3
    && f.s.procs[w].todo != []
    && f.s.slots != [] && f.s.cur < |f.s.slots|
  }

  // The search comes to the insertion point.
  lemma {:induction false} SearchAlone(c: Config, fr: SplitRun, w: nat, k: nat) returns (fr': SplitRun)
    requires IsSplitRun(c, fr) && AboutToStore(c, fr.last, w) && fr.last.at[w] == Searching(k)
    requires k <= fr.last.s.cur && forall j :: 0 <= j < k ==> fr.last.s.slots[j].prio >= fr.last.s.procs[w].todo[0].prio
    ensures IsSplitRun(c, fr') && First(fr') == First(fr)
    ensures var f := fr.last;
            fr'.last == Split(f.s, f.at[w := Testing(InsertionPoint(f.s.slots[..f.s.cur], f.s.procs[w].todo[0].prio))])
    decreases fr.last.s.cur - k
  {
    var f := fr.last;
    var prio, q := f.s.procs[w].todo[0].prio, f.s.slots[..f.s.cur];
    fr' := SplitExtended(c, fr, w);
    if k >= f.s.cur || f.s.slots[k].prio < prio {
      assert fr'.last == Split(f.s, f.at[w := Testing(k)]);
      forall j | 0 <= j < k ensures q[j].prio >= prio {
      }
      InsertionPointUnique(q, prio, k);
    } else {
      assert fr'.last == Split(f.s, f.at[w := Searching(k + 1)]);
      fr' := SearchAlone(c, fr', w, k + 1);
      assert fr'.last.at == f.at[w := fr'.last.at[w]];
    }
  }

  // A store, but for what it leaves in the array.
  function Stored(c: Config, s: State, w: nat, slots: seq<Msg>): State
    requires Enabled(c, s, w) && s.slots != []
  {
    Exec(c, s, w).(slots := slots)
  }

  lemma StoredAnyway(c: Config, s: State, w: nat, now: seq<Msg>, slots: seq<Msg>)
    requires s.slots != [] && |now| == |s.slots| && Enabled(c, s, w)
    requires s.procs[w].Sender? && s.procs[w].pc == 3
    ensures Stored(c, s.(slots := now), w, slots) == Stored(c, s, w, slots)
    ensures Exec(c, s, w).slots == Slots.Store(c.fullShift, s.slots, s.cur, s.procs[w].todo[0])
  {
  }

  lemma WriteAlone(c: Config, fr: SplitRun, w: nat) returns (fr': SplitRun)
    requires IsSplitRun(c, fr) && AboutToStore(c, fr.last, w) && fr.last.at[w].Placing?
    requires fr.last.at[w].i < |fr.last.s.slots|
    ensures IsSplitRun(c, fr') && First(fr') == First(fr)
    ensures var f := fr.last;
            var slots := f.s.slots[f.at[w].i := f.s.procs[w].todo[0]];
            fr'.last == Split(Stored(c, f.s, w, slots), f.at[w := Rest])
  {
    fr' := SplitExtended(c, fr, w);
  }

  lemma MoveAlone(c: Config, fr: SplitRun, w: nat, i: nat) returns (fr': SplitRun)
    requires IsSplitRun(c, fr) && AboutToStore(c, fr.last, w)
    requires 0 <= fr.last.s.cur && fr.last.at[w] == Testing(i) && i <= fr.last.s.cur
    ensures IsSplitRun(c, fr') && First(fr') == First(fr)
    ensures var f := fr.last;
            var n := Size(c, f.s.cur, i);
            fr'.last == Split(f.s.(slots := if i < f.s.cur then MovedUp(f.s.slots, i, n) else f.s.slots),
                              f.at[w := Placing(i)])
  {
    var f := fr.last;
    fr' := SplitExtended(c, fr, w);
    if i < f.s.cur {
      assert fr'.last == Split(f.s, f.at[w := Moving(i)]);
      fr' := SplitExtended(c, fr', w);
    }
    assert fr'.last.at == f.at[w := Placing(i)];
  }

  // Test, move and write.
  lemma PlaceAlone(c: Config, fr: SplitRun, w: nat) returns (fr': SplitRun)
    requires IsSplitRun(c, fr) && AboutToStore(c, fr.last, w) && 0 <= fr.last.s.cur
    requires var f := fr.last;
             f.at[w] == Testing(InsertionPoint(f.s.slots[..f.s.cur], f.s.procs[w].todo[0].prio))
    ensures IsSplitRun(c, fr') && First(fr') == First(fr)
    ensures fr'.last == Split(Exec(c, fr.last.s, w), fr.last.at[w := Rest])
  {
    var f := fr.last;
    var m := f.s.procs[w].todo[0];
    var i := InsertionPoint(f.s.slots[..f.s.cur], m.prio);
    var now := if i < f.s.cur then MovedUp(f.s.slots, i, Size(c, f.s.cur, i)) else f.s.slots;
    MoveThenWrite(c, f.s.slots, f.s.cur, m);
    StoredAnyway(c, f.s, w, now, now[i := m]);
    fr' := MoveAlone(c, fr, w, i);
    assert fr'.last == Split(f.s.(slots := now), f.at[w := Placing(i)]);
    fr' := WriteAlone(c, fr', w);
    assert fr'.last.at == f.at[w := Rest];
  }

  lemma StoreAlone(c: Config, fr: SplitRun, w: nat) returns (fr': SplitRun)
    requires IsSplitRun(c, fr) && AboutToStore(c, fr.last, w) && fr.last.at[w].Rest?
    ensures IsSplitRun(c, fr') && First(fr') == First(fr)
    ensures fr'.last == Split(Exec(c, fr.last.s, w), fr.last.at)
  {
    var f := fr.last;
    fr' := SplitExtended(c, fr, w);
    if f.s.cur <= 0 {
      if f.s.cur < 0 {
        assert fr'.last == Split(f.s, f.at[w := Searching(0)]);
        fr' := SplitExtended(c, fr', w);
        assert fr'.last == Split(f.s, f.at[w := Testing(0)]);
        fr' := SplitExtended(c, fr', w);
      }
      assert fr'.last == Split(f.s, f.at[w := Placing(0)]);
      fr' := SplitExtended(c, fr', w);
    } else {
      assert fr'.last == Split(f.s, f.at[w := Searching(0)]);
      fr' := SearchAlone(c, fr', w, 0);
      fr' := PlaceAlone(c, fr', w);
    }
    assert fr'.last.at == f.at;
  }

  // Every other step: one part or two.
  lemma OtherAlone(c: Config, fr: SplitRun, w: nat) returns (fr': SplitRun)
    requires IsSplitRun(c, fr) && fr.last.s.slots != [] && |fr.last.at| == |fr.last.s.procs|
    requires Enabled(c, fr.last.s, w) && InRange(c, fr.last.s, w)
    requires ActionAt(c, fr.last.s.procs[w]) != Store && fr.last.at[w].Rest?
    ensures IsSplitRun(c, fr') && First(fr') == First(fr)
    ensures fr'.last == Split(Exec(c, fr.last.s, w), fr.last.at)
  {
    var f := fr.last;
    fr' := SplitExtended(c, fr, w);
    if !Completes(c, f, w) {
      assert fr'.last == Split(f.s, f.at[w := NextPlace(c, f, w)]);
      fr' := SplitExtended(c, fr', w);
    }
    assert fr'.last.at == f.at;
  }

  // A whole step, whatever the other processes are in the middle of.
  lemma StepAlone(c: Config, fr: SplitRun, w: nat) returns (fr': SplitRun)
    requires IsSplitRun(c, fr) && fr.last.s.slots != [] && |fr.last.at| == |fr.last.s.procs|
    requires Enabled(c, fr.last.s, w) && InRange(c, fr.last.s, w) && fr.last.at[w].Rest?
    ensures IsSplitRun(c, fr') && First(fr') == First(fr)
    ensures fr'.last == Split(Exec(c, fr.last.s, w), fr.last.at)
  {
    if ActionAt(c, fr.last.s.procs[w]) == Store {
      fr' := StoreAlone(c, fr, w);
    } else {
      fr' := OtherAlone(c, fr, w);
    }
  }

  // A shift of whole steps that leaves the array does so in parts, too.
  lemma ShiftLeaves(c: Config, fr: SplitRun, w: nat) returns (fr': SplitRun)
    requires IsSplitRun(c, fr) && fr.last.s.slots != [] && |fr.last.at| == |fr.last.s.procs|
    requires Enabled(c, fr.last.s, w) && !InRange(c, fr.last.s, w) && fr.last.at[w].Rest?
    requires ActionAt(c, fr.last.s.procs[w]) == Shift
    ensures IsSplitRun(c, fr') && First(fr') == First(fr)
    ensures w < |fr'.last.at| && Enabled(c, fr'.last.s, w) && !PartInRange(c, fr'.last, w)
  {
    fr' := SplitExtended(c, fr, w);
  }

  // A run of whole steps is one of split steps, unless the latter leaves the array on the way.
  lemma {:induction false} Expand(c: Config, r: QueueRun) returns (fr: SplitRun, out: bool, w: nat)
    requires IsRun(c, r) && Initial(First(r))
    ensures IsSplitRun(c, fr) && First(fr) == AtRest(First(r))
    ensures if out then w < |fr.last.at| && Enabled(c, fr.last.s, w) && !PartInRange(c, fr.last, w)
            else fr.last == AtRest(r.last)
  {
    if r.Start? {
      fr, out, w := Start(AtRest(r.last)), false, 0;
    } else {
      fr, out, w := Expand(c, r.before);
      if !out {
        w := r.who;
        if InRange(c, r.before.last, w) {
          fr := StepAlone(c, fr, w);
        } else {
          if ActionAt(c, r.before.last.procs[w]) == Store {
            CountRun(c, r.before);
            assert ProcOk(r.before.last.procs[w]);
            StoreInRange(c, r.before, w);
          }
          out := true;
          fr := ShiftLeaves(c, fr, w);
        }
      }
    }
  }
}
