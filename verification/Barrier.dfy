// The signal barrier: a parent and n children compute once, meet, and compute again. Signal i
// goes between the parent and child i. Every signal is blocked except during the sigsuspend
// that waits for it, and a signal that is already pending is not queued a second time.
module Barrier {
  import opened Runs
  import opened Totals

  datatype Parent =
    | Forking(k: nat)    // the next child to fork
    | First1             // in the first computation
    | Waiting(k: nat)    // in sigsuspend for signal k
    | Notifying(k: nat)  // about to send signal k to child k
    | Second             // in the second computation
    | Ended

  datatype Child = Unborn | Computing1 | Signalling | Suspended | Computing2 | Over

  datatype State = State(parent: Parent, children: seq<Child>, toParent: set<nat>, toChild: seq<set<nat>>)

  // Process i is child i, and process n the parent.
  type BarrierRun = Run<State, nat>

  predicate Enabled(n: nat, s: State, i: nat) {
    if i < n then
      i < |s.children| && i < |s.toChild| &&
      s.children[i] !in {Unborn, Over} && (s.children[i] == Suspended ==> i in s.toChild[i])
    else
      i == n && !s.parent.Ended? && (s.parent.Waiting? && s.parent.k < n ==> s.parent.k in s.toParent)
  }

  function ChildExec(s: State, i: nat): State
    requires i < |s.children| && i < |s.toChild|
  {
    match s.children[i]
    case Computing1 => s.(children := s.children[i := Signalling])
    case Signalling => s.(children := s.children[i := Suspended], toParent := s.toParent + {i})
    case Suspended => s.(children := s.children[i := Computing2], toChild := s.toChild[i := s.toChild[i] - {i}])
    case Computing2 => s.(children := s.children[i := Over])
    case _ => s
  }

  function ParentExec(n: nat, s: State): State
    requires |s.children| == |s.toChild| == n
  {
    match s.parent
    case Forking(k) =>
      if k < n then s.(parent := Forking(k + 1), children := s.children[k := Computing1])
      else s.(parent := First1)
    case First1 => s.(parent := Waiting(0))
    case Waiting(k) =>
      if k < n then s.(parent := Waiting(k + 1), toParent := s.toParent - {k})
      else s.(parent := Notifying(0))
    case Notifying(k) =>
      if k < n then s.(parent := Notifying(k + 1), toChild := s.toChild[k := s.toChild[k] + {k}])
      else s.(parent := Second)
    case Second => s.(parent := Ended)
    case Ended => s
  }

  ghost predicate Next(n: nat, s: State, i: nat, t: State) {
    && |s.children| == |s.toChild| == n
    && Enabled(n, s, i)
    && t == if i < n then ChildExec(s, i) else ParentExec(n, s)
  }

  ghost predicate IsRun(n: nat, r: BarrierRun) {
    match r
    case Start(_) => true
    case Then(before, i, last) => IsRun(n, before) && Next(n, before.last, i, last)
  }

  ghost predicate Initial(n: nat, s: State) {
    && s.parent == Forking(0) && |s.children| == |s.toChild| == n && s.toParent == {}
    && forall i :: 0 <= i < n ==> s.children[i] == Unborn && s.toChild[i] == {}
  }

  // How far a child and the parent have come.
  function Stage(c: Child): nat {
    match c
    case Unborn => 0
    case Computing1 => 1
    case Signalling => 2
    case Suspended => 3
    case Computing2 => 4
    case Over => 5
  }

  function Forked(n: nat, p: Parent): nat {
    match p case Forking(k) => k case _ => n
  }

  function Heard(n: nat, p: Parent): nat {
    match p
    case Forking(_) => 0
    case First1 => 0
    case Waiting(k) => k
    case _ => n
  }

  function Told(n: nat, p: Parent): nat {
    match p
    case Notifying(k) => k
    case Second => n
    case Ended => n
    case _ => 0
  }

  // Child i and the two signals between it and the parent.
  ghost predicate Link(n: nat, s: State, i: nat)
    requires |s.children| == |s.toChild| == n && i < n
  {
    var c := Stage(s.children[i]);
    && (c >= 1 <==> i < Forked(n, s.parent))
    && (i in s.toParent <==> c >= 3 && Heard(n, s.parent) <= i)
    && (i < Heard(n, s.parent) ==> c >= 3)
    && s.toChild[i] == (if c == 3 && i < Told(n, s.parent) then {i} else {})
    && (c >= 4 ==> i < Told(n, s.parent))
    && (i < Told(n, s.parent) ==> c >= 3)
  }

  ghost predicate Inv(n: nat, s: State) {
    && |s.children| == |s.toChild| == n
    && Forked(n, s.parent) <= n && Heard(n, s.parent) <= n && Told(n, s.parent) <= n
    && (forall i :: i in s.toParent ==> i < n)
    && forall i :: 0 <= i < n ==> Link(n, s, i)
  }

  lemma LinkStep(n: nat, s: State, w: nat, t: State, i: nat)
    requires Inv(n, s) && Next(n, s, w, t) && i < n
    ensures |t.children| == |t.toChild| == n && Link(n, t, i)
  {
    assert Link(n, s, i);
  }

  lemma {:induction false} InvRun(n: nat, r: BarrierRun)
    requires IsRun(n, r) && Initial(n, First(r))
    ensures Inv(n, r.last)
  {
    if r.Start? {
    } else {
      InvRun(n, r.before);
      forall i | 0 <= i < n ensures Link(n, r.last, i) {
        LinkStep(n, r.before.last, r.who, r.last, i);
      }
    }
  }

  // Nobody starts the second computation before all n + 1 have finished the first.
  lemma NobodyStartsEarly(n: nat, r: BarrierRun)
    requires IsRun(n, r) && Initial(n, First(r))
    requires
      || r.last.parent in {Second, Ended}
      || exists i :: 0 <= i < |r.last.children| && r.last.children[i] in {Computing2, Over}
    ensures r.last.parent !in {First1} && !r.last.parent.Forking?
    ensures |r.last.children| == n && forall i :: 0 <= i < n ==> r.last.children[i] !in {Unborn, Computing1}
  {
    InvRun(n, r);
    if i :| 0 <= i < n && r.last.children[i] in {Computing2, Over} {
      assert Link(n, r.last, i);
    }
    forall i | 0 <= i < n ensures r.last.children[i] !in {Unborn, Computing1} {
      assert Link(n, r.last, i);
    }
  }

  // No signal is sent while it is already pending where it goes, so none is merged away.
  lemma NoSignalLost(n: nat, r: BarrierRun, w: nat)
    requires IsRun(n, r) && Initial(n, First(r)) && Enabled(n, r.last, w)
    ensures |r.last.children| == |r.last.toChild| == n
    ensures w < n && r.last.children[w] == Signalling ==> w !in r.last.toParent
    ensures w == n && r.last.parent.Notifying? && r.last.parent.k < n ==>
              r.last.parent.k !in r.last.toChild[r.last.parent.k]
  {
    InvRun(n, r);
    if w < n {
      assert Link(n, r.last, w);
    } else if r.last.parent.Notifying? && r.last.parent.k < n {
      assert Link(n, r.last, r.last.parent.k);
    }
  }

  function ParentLeft(n: nat, p: Parent): int {
    match p
    case Forking(k) => 3 * n + 5 - k
    case First1 => 2 * n + 4
    case Waiting(k) => 2 * n + 3 - k
    case Notifying(k) => n + 2 - k
    case Second => 1
    case Ended => 0
  }

  function ChildLeft(): Child -> int {
    (c: Child) => if c == Unborn then 4 else 5 - Stage(c)
  }

  lemma {:induction false} AllUnborn(cs: seq<Child>)
    requires forall i :: 0 <= i < |cs| ==> cs[i] == Unborn
    ensures Total(ChildLeft(), cs) == 4 * |cs|
  {
    if cs == [] {
    } else {
      AllUnborn(cs[1..]);
    }
  }

  lemma StepLeft(n: nat, s: State, w: nat, t: State)
    requires Inv(n, s) && Next(n, s, w, t)
    ensures ParentLeft(n, t.parent) + Total(ChildLeft(), t.children) ==
            ParentLeft(n, s.parent) + Total(ChildLeft(), s.children) - 1
  {
    if w < n {
      assert Link(n, s, w);
      TotalUpdate(ChildLeft(), s.children, w, t.children[w]);
    } else if s.parent.Forking? && s.parent.k < n {
      assert Link(n, s, s.parent.k);
      TotalUpdate(ChildLeft(), s.children, s.parent.k, Computing1);
    }
  }

  // Every step is one of the 7 n + 5 that there are to make.
  lemma {:induction false} StepsMade(n: nat, r: BarrierRun)
    requires IsRun(n, r) && Initial(n, First(r))
    ensures |r.last.children| == n
    ensures Steps(r) + ParentLeft(n, r.last.parent) + Total(ChildLeft(), r.last.children) == 7 * n + 5
  {
    InvRun(n, r);
    if r.Start? {
      AllUnborn(r.last.children);
    } else {
      StepsMade(n, r.before);
      InvRun(n, r.before);
      StepLeft(n, r.before.last, r.who, r.last);
    }
  }

  // While the parent waits, it can go on or the child it waits for can.
  lemma WaitEnds(n: nat, s: State) returns (w: nat)
    requires Inv(n, s) && s.parent.Waiting? && s.parent.k < n
    ensures Enabled(n, s, w)
  {
    assert Link(n, s, s.parent.k);
    w := if s.parent.k in s.toParent then n else s.parent.k;
  }

  // A run that can go no further has brought the parent and every child to their end.
  lemma EveryoneEnds(n: nat, r: BarrierRun)
    requires IsRun(n, r) && Initial(n, First(r))
    requires forall i: nat :: !Enabled(n, r.last, i)
    ensures r.last.parent == Ended && |r.last.children| == n
    ensures forall i :: 0 <= i < n ==> r.last.children[i] == Over
    ensures Steps(r) == 7 * n + 5
  {
    var s := r.last;
    InvRun(n, r);
    StepsMade(n, r);
    assert !Enabled(n, s, n);
    if s.parent.Waiting? && s.parent.k < n {
      var w := WaitEnds(n, s);
    }
    forall i | 0 <= i < n ensures s.children[i] == Over {
      assert !Enabled(n, s, i) && Link(n, s, i);
    }
    TotalZero(ChildLeft(), s.children);
  }

  // There is such a run: any state reached can be run on until no step is left.
  lemma {:induction false} RunOn(n: nat, r: BarrierRun) returns (e: BarrierRun)
    requires IsRun(n, r) && Initial(n, First(r))
    ensures IsRun(n, e) && First(e) == First(r) && forall i: nat :: !Enabled(n, e.last, i)
    decreases 7 * n + 5 - Steps(r)
  {
    InvRun(n, r);
    if forall i: nat :: !Enabled(n, r.last, i) {
      e := r;
    } else {
      var w: nat :| Enabled(n, r.last, w);
      var t := if w < n then ChildExec(r.last, w) else ParentExec(n, r.last);
      var next := Then(r, w, t);
      LeftNotNegative(n, next);
      e := RunOn(n, next);
    }
  }

  lemma LeftNotNegative(n: nat, r: BarrierRun)
    requires IsRun(n, r) && Initial(n, First(r))
    ensures Steps(r) <= 7 * n + 5
  {
    StepsMade(n, r);
    InvRun(n, r);
    TotalAtLeast(ChildLeft(), r.last.children);
  }

  lemma BarrierEnds(n: nat, s: State) returns (r: BarrierRun)
    requires Initial(n, s)
    ensures IsRun(n, r) && First(r) == s && Steps(r) == 7 * n + 5
    ensures r.last.parent == Ended && r.last.children == seq(n, _ => Over)
  {
    r := RunOn(n, Start(s));
    EveryoneEnds(n, r);
  }
}
