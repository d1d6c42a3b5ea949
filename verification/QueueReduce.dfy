// Where the count is safe, steps may be taken as one: every run of the split steps is a run of
// whole ones, and never leaves the array.
module QueueReduce {
  import opened Messages
  import opened QueueProtocol
  import opened Runs
  import opened QueueRange
  import opened QueueExclusive
  import opened QueueSplit
  import Slots

  predicate Storing(p: Proc) {
    p.Sender? && p.pc == 3 && p.todo != []
  }

  // What a process that is inside its step knows, in terms of the state s before that step and
  // of what the array holds now.
  ghost predicate Knows(c: Config, now: seq<Msg>, s: State, p: Proc, place: Place) {
    var m := if p.Sender? && p.todo != [] then p.todo[0] else Msg("", 0, 0);
    match place
    case Rest => true
    case Searching(i) =>
      Storing(p) && i <= s.cur <= |s.slots| && forall j :: 0 <= j < i ==> s.slots[j].prio >= m.prio
    case Testing(i) => Storing(p) && 0 <= s.cur <= |s.slots| && i == InsertionPoint(s.slots[..s.cur], m.prio)
    case Moving(i) =>
      Storing(p) && 0 <= s.cur <= |s.slots| && i == InsertionPoint(s.slots[..s.cur], m.prio) && i < s.cur
    case Placing(i) => Storing(p) && i < |now| && now[i := m] == Slots.Store(c.fullShift, s.slots, s.cur, m)
    case Loaded(n) => Touching(c, p) && ActionAt(c, p) in {Count, Take} && n == s.cur
    case Sizing(one) => Touching(c, p) && ActionAt(c, p) == Shift && one == (s.cur == 1)
  }

  // f is s with some steps partly done: only a store about to write its message has changed
  // anything, and that in the array alone.
  ghost predicate Related(c: Config, f: Split, s: State) {
    && |f.at| == |s.procs|
    && |f.s.slots| == |s.slots|
    && f.s == s.(slots := f.s.slots)
    && (forall k :: 0 <= k < |f.at| ==> Knows(c, f.s.slots, s, s.procs[k], f.at[k]))
    && ((forall k :: 0 <= k < |f.at| ==> !f.at[k].Placing?) ==> f.s.slots == s.slots)
  }

  // The count is within the array where a process stores or shifts.
  predicate CountFits(c: Config, s: State, p: Proc) {
    ActionAt(c, p) in {Store, Shift} ==> 0 <= s.cur < |s.slots|
  }

  lemma OthersRest(c: Config, f: Split, s: State, w: nat)
    requires Related(c, f, s) && Exclusive(c, s) && w < |s.procs| && Touching(c, s.procs[w])
    ensures forall k :: 0 <= k < |f.at| && k != w ==> f.at[k].Rest?
    ensures !f.at[w].Placing? ==> f.s.slots == s.slots
  {
    forall k | 0 <= k < |f.at| && k != w ensures f.at[k].Rest? {
      assert Knows(c, f.s.slots, s, s.procs[k], f.at[k]);
      assert Touching(c, s.procs[w]);
      if !f.at[k].Rest? { assert Touching(c, s.procs[k]); }
    }
  }

  // Outside the steps that touch it, the array does not matter.
  lemma PlainExec(c: Config, s: State, w: nat, now: seq<Msg>)
    requires s.slots != [] && |now| == |s.slots| && Enabled(c, s, w) && !Touching(c, s.procs[w])
    ensures var t := Exec(c, s, w);
            && Enabled(c, s.(slots := now), w) && Exec(c, s.(slots := now), w) == t.(slots := now)
            && t.slots == s.slots && t.cur == s.cur && |t.procs| == |s.procs|
            && (forall k :: 0 <= k < |s.procs| && k != w ==> t.procs[k] == s.procs[k])
  {
  }

  // A step that reads and writes neither the count nor the array.
  lemma PlainStep(c: Config, f: Split, s: State, w: nat, g: Split)
    requires Related(c, f, s) && WellFormed(s) && SplitNext(c, f, w, g) && !Touching(c, s.procs[w])
    ensures PartInRange(c, f, w) && Completes(c, f, w)
    ensures Next(c, s, w, Exec(c, s, w)) && Related(c, g, Exec(c, s, w))
  {
    assert Knows(c, f.s.slots, s, s.procs[w], f.at[w]) && f.at[w].Rest?;
    PlainExec(c, s, w, f.s.slots);
    var t := Exec(c, s, w);
    assert g == Split(t.(slots := f.s.slots), f.at);
    forall k | 0 <= k < |g.at| ensures Knows(c, g.s.slots, t, t.procs[k], g.at[k]) {
      assert Knows(c, f.s.slots, s, s.procs[k], f.at[k]);
    }
  }

  // A part of a store before the messages are moved.
  lemma StorePartKnows(c: Config, s: State, p: Proc, place: Place)
    requires Storing(p) && 0 <= s.cur < |s.slots| && Knows(c, s.slots, s, p, place)
    requires place.Rest? || place.Searching? || place.Testing?
    ensures Knows(c, s.slots, s, p, StorePart(c, s, place, p.todo[0].prio))
  {
    var m, q := p.todo[0], s.slots[..s.cur];
    match place
    case Searching(i) =>
      if i >= s.cur || s.slots[i].prio < m.prio {
        forall k | 0 <= k < i ensures q[k].prio >= m.prio {
        }
        InsertionPointUnique(q, m.prio, i);
      }
    case Testing(i) =>
    case _ =>
  }

  // The move, after which writing the message completes the store.
  lemma MoveKnows(c: Config, s: State, p: Proc, i: nat)
    requires Storing(p) && 0 <= s.cur < |s.slots| && Knows(c, s.slots, s, p, Moving(i))
    ensures 0 <= Size(c, s.cur, i) && i + 1 + Size(c, s.cur, i) <= |s.slots|
    ensures Knows(c, MovedUp(s.slots, i, Size(c, s.cur, i)), s, p, Placing(i))
  {
    MoveThenWrite(c, s.slots, s.cur, p.todo[0]);
  }

  // With the others at rest, only w's place matters.
  lemma AloneRelated(c: Config, f: Split, s: State, w: nat, g: Split)
    requires Related(c, f, s) && w < |f.at| && forall k :: 0 <= k < |f.at| && k != w ==> f.at[k].Rest?
    requires |g.at| == |f.at| && forall k :: 0 <= k < |f.at| && k != w ==> g.at[k] == f.at[k]
    requires |g.s.slots| == |s.slots| && g.s == s.(slots := g.s.slots)
    requires Knows(c, g.s.slots, s, s.procs[w], g.at[w]) && (!g.at[w].Placing? ==> g.s.slots == s.slots)
    ensures Related(c, g, s)
  {
  }

  // A part that does not complete its step.
  lemma PartStep(c: Config, f: Split, s: State, w: nat, g: Split)
    requires Related(c, f, s) && Exclusive(c, s) && SplitNext(c, f, w, g)
    requires Touching(c, s.procs[w]) && CountFits(c, s, s.procs[w]) && !Completes(c, f, w)
    ensures PartInRange(c, f, w) && Related(c, g, s)
  {
    var p, place := s.procs[w], f.at[w];
    OthersRest(c, f, s, w);
    assert Knows(c, f.s.slots, s, p, place);
    if place.Moving? {
      MoveKnows(c, s, p, place.i);
    } else if ActionAt(c, p) == Store {
      StorePartKnows(c, s, p, place);
    }
    assert PartInRange(c, f, w);
    assert g == PartExec(c, f, w);
    AloneRelated(c, f, s, w, g);
  }

  // The part that completes it.
  lemma LastStep(c: Config, f: Split, s: State, w: nat, g: Split)
    requires Related(c, f, s) && Exclusive(c, s) && SplitNext(c, f, w, g)
    requires Touching(c, s.procs[w]) && CountFits(c, s, s.procs[w]) && Completes(c, f, w)
    ensures PartInRange(c, f, w)
    ensures Next(c, s, w, Exec(c, s, w)) && Related(c, g, Exec(c, s, w))
  {
    var p, place := s.procs[w], f.at[w];
    OthersRest(c, f, s, w);
    assert Knows(c, f.s.slots, s, p, place);
    assert PartInRange(c, f, w);
    assert g == LastExec(c, f, w);
    assert g.s == Exec(c, s, w);
  }

  // One part of a step is none or all of that step.
  lemma ReduceStep(c: Config, f: Split, r: QueueRun, w: nat, g: Split)
    requires IsRun(c, r) && Initial(First(r)) && CountSafe(c, First(r))
    requires Related(c, f, r.last) && SplitNext(c, f, w, g)
    ensures PartInRange(c, f, w)
    ensures if Completes(c, f, w) then Next(c, r.last, w, Exec(c, r.last, w)) && Related(c, g, Exec(c, r.last, w))
            else Related(c, g, r.last)
  {
    var s := r.last;
    ExclusiveRun(c, r);
    CountRun(c, r);
    NeverOutOfRange(c, r, w);
    if !Touching(c, s.procs[w]) {
      PlainStep(c, f, s, w, g);
    } else if Completes(c, f, w) {
      LastStep(c, f, s, w, g);
    } else {
      PartStep(c, f, s, w, g);
    }
  }

  // Every run of the split steps is one of whole steps, in which the steps under way have not
  // been made yet.
  lemma {:induction false} Reduce(c: Config, fr: SplitRun) returns (r: QueueRun)
    requires IsSplitRun(c, fr) && Initial(First(fr).s) && First(fr) == AtRest(First(fr).s)
    requires CountSafe(c, First(fr).s)
    ensures IsRun(c, r) && First(r) == First(fr).s && Related(c, fr.last, r.last)
  {
    if fr.Start? {
      r := Start(fr.last.s);
    } else {
      r := Reduce(c, fr.before);
      ReduceStep(c, fr.before.last, r, fr.who, fr.last);
      if Completes(c, fr.before.last, fr.who) {
        r := Then(r, fr.who, Exec(c, r.last, fr.who));
      }
    }
  }

  // Between calls nothing is under way.
  lemma BetweenCalls(c: Config, f: Split, s: State)
    requires Related(c, f, s) && Quiescent(f.s)
    ensures f.s == s
  {
    forall k | 0 <= k < |f.at| ensures !f.at[k].Placing? {
      assert Knows(c, f.s.slots, s, s.procs[k], f.at[k]);
    }
  }
}
