// The same processes with their accesses to the shared count taken apart: a store reads it
// again and again, to search, to decide whether to move and how much, and raising or lowering
// it is a load and a write. Calls that do not hold the mutex can come in between.
module QueueSplit {
  import opened Messages
  import opened QueueProtocol
  import opened Runs
  import Slots

  // How far a process has come inside the step it is at.
  datatype Place =
    | Rest                // not begun
    | Searching(i: nat)   // about to compare with message i
    | Testing(i: nat)     // the search has ended at i
    | Moving(i: nat)      // messages are to be moved up from i
    | Placing(i: nat)     // the message is to be written at i
    | Loaded(count: int)  // the count has been read and is to be written back changed
    | Sizing(one: bool)   // the test for a single message has been made

  datatype Split = Split(s: State, at: seq<Place>)

  // The number of messages that a store at i moves up.
  function Size(c: Config, cur: int, i: nat): int {
    cur - i - (if c.fullShift then 0 else 1)
  }

  // n messages moved up from position i.
  function MovedUp(slots: seq<Msg>, i: nat, n: int): (r: seq<Msg>)
    ensures |r| == |slots|
  {
    if 0 <= n && i + 1 + n <= |slots| then slots[..i + 1] + slots[i..i + n] + slots[i + 1 + n..] else slots
  }

  // Moving and then writing the message at the insertion point is the store as a whole.
  lemma MoveThenWrite(c: Config, slots: seq<Msg>, cur: nat, m: Msg)
    requires cur < |slots|
    ensures var i := InsertionPoint(slots[..cur], m.prio);
            var n := Size(c, cur, i);
            && i < |slots|
            && (i < cur ==> 0 <= n && i + 1 + n <= |slots|)
            && (if i < cur then MovedUp(slots, i, n) else slots)[i := m] == Slots.Store(c.fullShift, slots, cur, m)
  {
    var i := InsertionPoint(slots[..cur], m.prio);
    if i < cur {
      var n := Size(c, cur, i);
      Slots.MovedThenStored(slots, i, n, m);
      if c.fullShift {
        assert i + n == cur && i + n + 1 == cur + 1;
      } else {
        assert i + n == cur - 1 && i + n + 1 == cur;
      }
    }
  }

  // The next part is the last one of its step.
  predicate Completes(c: Config, f: Split, w: nat)
    requires w < |f.at| == |f.s.procs|
  {
    match ActionAt(c, f.s.procs[w])
    case Store => f.at[w].Placing?
    case Count => f.at[w].Loaded?
    case Take => f.at[w].Loaded?
    case Shift => f.at[w].Sizing?
    case _ => true
  }

  // The parts of a store up to the writing of the message.
  function StorePart(c: Config, s: State, place: Place, prio: nat): Place {
    match place
    case Searching(i) =>
      if i >= s.cur || (i < |s.slots| && s.slots[i].prio < prio) then Testing(i) else Searching(i + 1)
    case Testing(i) => if i < s.cur then Moving(i) else Placing(i)
    case Moving(i) => Placing(i)
    case _ => if s.cur == 0 then Placing(0) else Searching(0)
  }

  function NextPlace(c: Config, f: Split, w: nat): Place
    requires w < |f.at| == |f.s.procs| && !Finished(f.s.procs[w])
  {
    match ActionAt(c, f.s.procs[w])
    case Store => if f.s.procs[w].Sender? then StorePart(c, f.s, f.at[w], f.s.procs[w].todo[0].prio) else Rest
    case Shift => Sizing(f.s.cur == 1)
    case _ => Loaded(f.s.cur)
  }

  // A part that leaves the process at its step: of the shared state it changes the array only.
  function PartExec(c: Config, f: Split, w: nat): Split
    requires w < |f.at| == |f.s.procs| && !Finished(f.s.procs[w])
  {
    var slots := if f.at[w].Moving? then MovedUp(f.s.slots, f.at[w].i, Size(c, f.s.cur, f.at[w].i)) else f.s.slots;
    Split(f.s.(slots := slots), f.at[w := NextPlace(c, f, w)])
  }

  // The part that completes the step.
  function LastExec(c: Config, f: Split, w: nat): Split
    requires w < |f.at| == |f.s.procs| && Enabled(c, f.s, w) && f.s.slots != []
  {
    var s, t := f.s, Exec(c, f.s, w);
    var u := match f.at[w]
      case Placing(i) =>
        if i < |s.slots| && s.procs[w].Sender? then t.(slots := s.slots[i := s.procs[w].todo[0]]) else t
      case Loaded(n) => t.(cur := if s.procs[w].Sender? then n + 1 else n - 1)
      case Sizing(one) => t.(slots := Slots.Shift(s.slots, if one then 1 else s.cur))
      case _ => t;
    Split(u, f.at[w := Rest])
  }

  function SplitExec(c: Config, f: Split, w: nat): Split
    requires w < |f.at| == |f.s.procs| && Enabled(c, f.s, w) && f.s.slots != []
  {
    if Completes(c, f, w) then LastExec(c, f, w) else PartExec(c, f, w)
  }

  // Whether the part reads, moves and writes messages within the queue array only.
  predicate PartInRange(c: Config, f: Split, w: nat)
    requires w < |f.at|
  {
    match f.at[w]
    case Searching(i) => i < f.s.cur ==> i < |f.s.slots|
    case Moving(i) => 0 <= Size(c, f.s.cur, i) && i + 1 + Size(c, f.s.cur, i) <= |f.s.slots|
    case Placing(i) => i < |f.s.slots|
    case Sizing(one) => if one then 1 < |f.s.slots| else 0 <= f.s.cur < |f.s.slots|
    case _ => true
  }

  // As before, a move out of range leaves the array with any contents.
  ghost predicate SplitNext(c: Config, f: Split, w: nat, g: Split) {
    && f.s.slots != []
    && |f.at| == |f.s.procs|
    && Enabled(c, f.s, w)
    && |g.s.slots| == |f.s.slots|
    && g == Split(SplitExec(c, f, w).s.(slots := g.s.slots), SplitExec(c, f, w).at)
    && (PartInRange(c, f, w) ==> g == SplitExec(c, f, w))
  }

  // What each part does, whatever the count has become since the part before.

  // The search compares one message, with the count as it is by then.
  lemma SearchPart(c: Config, f: Split, w: nat, g: Split, i: nat)
    requires SplitNext(c, f, w, g) && f.at[w] == Searching(i) && ActionAt(c, f.s.procs[w]) == Store
    requires PartInRange(c, f, w)
    ensures f.s.procs[w].Sender? && g.s == f.s
    ensures g.at[w] == if i < f.s.cur && f.s.slots[i].prio >= f.s.procs[w].todo[0].prio then Searching(i + 1)
                       else Testing(i)
  {
  }

  // The move takes as many messages one place up as the count says, less those before the place
  // and, as written, one.
  lemma MovePart(c: Config, f: Split, w: nat, g: Split, i: nat)
    requires SplitNext(c, f, w, g) && f.at[w] == Moving(i) && ActionAt(c, f.s.procs[w]) == Store
    requires PartInRange(c, f, w)
    ensures g.at[w] == Placing(i) && g.s == f.s.(slots := g.s.slots)
    ensures var n := if c.fullShift then f.s.cur - i else f.s.cur - (i + 1);
            forall k :: 0 <= k < |f.s.slots| ==>
              g.s.slots[k] == if i < k <= i + n then f.s.slots[k - 1] else f.s.slots[k]
  {
  }

  // The message is written at its place.
  lemma PlacePart(c: Config, f: Split, w: nat, g: Split, i: nat)
    requires SplitNext(c, f, w, g) && f.at[w] == Placing(i) && ActionAt(c, f.s.procs[w]) == Store
    requires PartInRange(c, f, w)
    ensures f.s.procs[w].Sender? && g.at[w] == Rest && g.s.cur == f.s.cur
    ensures forall k :: 0 <= k < |f.s.slots| ==>
              g.s.slots[k] == if k == i then f.s.procs[w].todo[0] else f.s.slots[k]
  {
  }

  // A count that was read is written back one higher by a sender and one lower by a receiver.
  lemma CountPart(c: Config, f: Split, w: nat, g: Split, n: int)
    requires SplitNext(c, f, w, g) && f.at[w] == Loaded(n) && ActionAt(c, f.s.procs[w]) in {Count, Take}
    ensures g.at[w] == Rest && g.s.slots == f.s.slots
    ensures g.s.cur == if f.s.procs[w].Sender? then n + 1 else n - 1
  {
  }

  // A shift moves down one message if the count was 1 when it was tested, and as many as the
  // count says now if not.
  lemma ShiftPart(c: Config, f: Split, w: nat, g: Split, one: bool)
    requires SplitNext(c, f, w, g) && f.at[w] == Sizing(one) && ActionAt(c, f.s.procs[w]) == Shift
    requires PartInRange(c, f, w)
    ensures g.at[w] == Rest && g.s.cur == f.s.cur
    ensures var n := if one then 1 else f.s.cur;
            forall k :: 0 <= k < |f.s.slots| ==>
              g.s.slots[k] == if k < n then f.s.slots[k + 1] else f.s.slots[k]
  {
  }

  type SplitRun = Run<Split, nat>

  ghost predicate IsSplitRun(c: Config, r: SplitRun) {
    match r
    case Start(_) => true
    case Then(before, who, last) => IsSplitRun(c, before) && SplitNext(c, before.last, who, last)
  }

  // No process is inside a step.
  function AtRest(s: State): Split {
    Split(s, seq(|s.procs|, _ => Rest))
  }
}
