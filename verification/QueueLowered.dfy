// Where the accesses to the count leave the array, exactly, whatever the messages: runs in which
// a count that is written back late turns a store back, and the systems that have none.
module QueueLowered {
  import opened Messages
  import opened QueueProtocol
  import opened Runs
  import opened QueueTokens
  import opened Totals
  import opened QueueDeadlock
  import opened QueueLate
  import opened QueueExclusive
  import opened QueueSplit
  import opened QueueExpand
  import opened QueueRace
  import opened QueueOnlySends
  import opened QueueRepairs
  import Slots

  // Sender i has read the count 0 and not written it back; since then others have sent the first
  // k messages of all, which are in the array.
  ghost predicate Behind(f: Split, i: nat, all: seq<Msg>, k: nat) {
    && |f.at| == |f.s.procs| && i < |f.at| && k <= |all|
    && f.at[i] == Loaded(0) && Sending(f.s.procs[i]) && f.s.procs[i].pc == 5
    && f.s.mutex == 1 && f.s.cur == k && k + 1 <= |f.s.slots| && f.s.free == |f.s.slots| - 1 - k
    && f.s.slots[..k] == all[..k]
  }

  // Sender j, between calls, has sent d of its messages, and those up to the e-th are those of
  // all, o places further on.
  ghost predicate Follows(f: Split, j: nat, todo: seq<Msg>, d: nat, e: nat, all: seq<Msg>, o: int) {
    && j < |f.at| == |f.s.procs| && d <= e <= |todo| && 0 <= d + o && e + o <= |all|
    && f.at[j].Rest? && f.s.procs[j] == Sender(todo[d..], 0)
    && forall a :: d <= a < e ==> todo[a] == all[a + o]
  }

  // From f to g only j has moved, and is left with todo.
  ghost predicate Later(f: Split, g: Split, j: nat, todo: seq<Msg>) {
    && g.at == f.at && |g.s.slots| == |f.s.slots| && |g.s.procs| == |f.s.procs|
    && j < |f.s.procs| && g.s.procs[j] == Sender(todo, 0)
    && forall k :: 0 <= k < |f.s.procs| && k != j ==> g.s.procs[k] == f.s.procs[k]
  }

  lemma LaterStill(f: Split, g: Split, h: Split, j: nat, todo: seq<Msg>, rest: seq<Msg>)
    requires Later(f, g, j, todo) && Later(g, h, j, rest)
    ensures Later(f, h, j, rest)
  {
  }

  ghost predicate Descending(q: seq<Msg>, n: nat) {
    n <= |q| && forall a, b :: 0 <= a < b < n ==> q[a].prio >= q[b].prio
  }

  lemma StoreLast(full: bool, slots: seq<Msg>, todo: seq<Msg>, k: nat)
    requires k < |todo| && k < |slots| && slots[..k] == todo[..k] && Descending(todo, k + 1)
    ensures Slots.Store(full, slots, k, todo[k])[..k + 1] == todo[..k + 1]
  {
    var q, m := todo[..k], todo[k];
    forall a | 0 <= a < k ensures q[a].prio >= m.prio {
    }
    InsertionPointUnique(q, m.prio, k);
    Slots.StoreInPlace(full, slots, q, m);
    assert Insert(q, m) == todo[..k + 1];
  }

  lemma SendsNext(c: Config, fr: SplitRun, i: nat, j: nat, todo: seq<Msg>, d: nat, e: nat,
                  all: seq<Msg>, o: int, k: nat)
    returns (fr': SplitRun)
    requires !c.countInside && IsSplitRun(c, fr) && Behind(fr.last, i, all, k) && i != j && d < e && k == d + o
    requires Follows(fr.last, j, todo, d, e, all, o) && k + 1 < |fr.last.s.slots| && Descending(all, k + 1)
    ensures IsSplitRun(c, fr') && First(fr') == First(fr) && Behind(fr'.last, i, all, k + 1)
    ensures Follows(fr'.last, j, todo, d + 1, e, all, o) && Later(fr.last, fr'.last, j, todo[d + 1..])
  {
    StoreLast(c.fullShift, fr.last.s.slots, all, k);
    assert todo[d..][0] == todo[d] == all[k] && todo[d..][1..] == todo[d + 1..];
    fr' := SendAlone(c, fr, j);
  }

  // j sends its messages up to the e-th.
  lemma {:induction false} SendsInOrder(c: Config, fr: SplitRun, i: nat, j: nat, todo: seq<Msg>, d: nat, e: nat,
                                        all: seq<Msg>, o: int, k: nat, l: nat)
    returns (fr': SplitRun)
    requires !c.countInside && IsSplitRun(c, fr) && Behind(fr.last, i, all, k) && i != j && k == d + o && l == e + o
    requires Follows(fr.last, j, todo, d, e, all, o) && l < |fr.last.s.slots| && Descending(all, l)
    ensures IsSplitRun(c, fr') && First(fr') == First(fr) && Behind(fr'.last, i, all, l)
    ensures Later(fr.last, fr'.last, j, todo[e..])
    decreases e - d
  {
    if d == e {
      fr' := fr;
    } else {
      var first := SendsNext(c, fr, i, j, todo, d, e, all, o, k);
      fr' := SendsInOrder(c, first, i, j, todo, d + 1, e, all, o, k + 1, l);
      LaterStill(fr.last, first.last, fr'.last, j, todo[d + 1..], todo[e..]);
    }
  }

  // A store up to its move.
  lemma UpToMove(c: Config, fr: SplitRun, j: nat) returns (fr': SplitRun)
    requires IsSplitRun(c, fr) && AboutToStore(c, fr.last, j) && fr.last.at[j].Rest? && fr.last.s.cur > 0
    requires var s := fr.last.s;
             InsertionPoint(s.slots[..s.cur], s.procs[j].todo[0].prio) < s.cur
    ensures IsSplitRun(c, fr') && First(fr') == First(fr)
    ensures var s := fr.last.s;
            var i := InsertionPoint(s.slots[..s.cur], s.procs[j].todo[0].prio);
            fr'.last == Split(s, fr.last.at[j := Moving(i)])
  {
    var f := fr.last;
    fr' := SplitExtended(c, fr, j);
    assert fr'.last == Split(f.s, f.at[j := Searching(0)]);
    fr' := SearchAlone(c, fr', j, 0);
    fr' := SplitExtended(c, fr', j);
    assert fr'.last.at == f.at[j := fr'.last.at[j]];
  }

  // The next message of j is to go before the last one in the array.
  lemma TestsFirst(c: Config, fr: SplitRun, i: nat, j: nat, todo: seq<Msg>, d: nat, all: seq<Msg>, o: int, n: nat)
    returns (fr': SplitRun)
    requires !c.countInside && IsSplitRun(c, fr) && Behind(fr.last, i, all, n)
    requires Follows(fr.last, j, todo, d, d + 1, all, o) && n == d + o && i != j && n + 2 <= |fr.last.s.slots|
    requires InsertionPoint(all[..n], all[n].prio) < n
    ensures IsSplitRun(c, fr') && First(fr') == First(fr)
    ensures var s := fr.last.s;
            fr'.last == Split(s.(mutex := 0, free := s.free - 1, avail := s.avail + 1,
                                 procs := s.procs[j := Sender(todo[d..], 3)]),
                              fr.last.at[j := Moving(InsertionPoint(all[..n], all[n].prio))])
  {
    assert todo[d..][0] == todo[d] == all[n];
    assert fr.last.s.slots[..fr.last.s.cur] == all[..n];
    var f := SendBegins(c, fr, j);
    assert f.last.s.slots == fr.last.s.slots && f.last.s.procs[j] == Sender(todo[d..], 3);
    fr' := UpToMove(c, f, j);
  }

  // i writes the count back before j reads it to see how much to move.
  lemma TurnedBack(c: Config, fr: SplitRun, i: nat, j: nat, todo: seq<Msg>, d: nat, all: seq<Msg>, o: int, n: nat)
    returns (fr': SplitRun)
    requires !c.countInside && IsSplitRun(c, fr) && Behind(fr.last, i, all, n)
    requires Follows(fr.last, j, todo, d, d + 1, all, o) && n == d + o && i != j && n + 2 <= |fr.last.s.slots|
    requires Far(c) <= InsertionPoint(all[..n], all[n].prio) < n
    ensures IsSplitRun(c, fr') && First(fr') == First(fr)
    ensures j < |fr'.last.at| && Enabled(c, fr'.last.s, j) && !PartInRange(c, fr'.last, j)
  {
    var at := InsertionPoint(all[..n], all[n].prio);
    fr' := TestsFirst(c, fr, i, j, todo, d, all, o, n);
    var f := fr'.last;
    fr' := Writes(c, fr', i, 0);
    assert fr'.last.at[j] == Moving(at) && fr'.last.s.procs[j] == f.s.procs[j] == Sender(todo[d..], 3);
    assert Size(c, fr'.last.s.cur, at) < 0;
  }

  // j sends its messages up to the e-th, and is turned back with the next.
  lemma SendsThenTurned(c: Config, fr: SplitRun, i: nat, j: nat, todo: seq<Msg>, e: nat,
                        all: seq<Msg>, o: nat, l: nat)
    returns (fr': SplitRun)
    requires !c.countInside && IsSplitRun(c, fr) && Behind(fr.last, i, all, o) && i != j && l == e + o
    requires Follows(fr.last, j, todo, 0, e + 1, all, o) && l + 2 <= |fr.last.s.slots| && Descending(all, l)
    requires Far(c) <= InsertionPoint(all[..l], all[l].prio) < l
    ensures IsSplitRun(c, fr') && First(fr') == First(fr)
    ensures j < |fr'.last.at| && Enabled(c, fr'.last.s, j) && !PartInRange(c, fr'.last, j)
  {
    var next := SendsInOrder(c, fr, i, j, todo, 0, e, all, o, o, l);
    fr' := TurnedBack(c, next, i, j, todo, e, all, o, l);
  }

  lemma AllBehind(c: Config, s: State, i: nat, all: seq<Msg>) returns (fr: SplitRun)
    requires !c.countInside && Initial(s) && i < |s.procs| && Sending(s.procs[i])
    ensures IsSplitRun(c, fr) && First(fr) == AtRest(s) && Behind(fr.last, i, all, 0)
    ensures |fr.last.s.slots| == |s.slots|
    ensures fr.last.at == AtRest(s).at[i := Loaded(0)]
    ensures fr.last.s.procs == s.procs[i := Sender(s.procs[i].todo, 5)]
  {
    fr := LoadsFirst(c, s, i);
  }

  // One sender i with a message, and one, j, that has n messages in descending order and then one
  // that goes before the last of them, but not too far to the front: some run leaves the array,
  // if there is room for them all.
  lemma LateCountTurnsBack(c: Config, s: State, i: nat, j: nat, n: nat) returns (fr: SplitRun)
    requires !c.countInside && Initial(s) && i < |s.procs| && j < |s.procs| && i != j
    requires Sending(s.procs[i]) && s.procs[j].Sender? && n < |s.procs[j].todo| && n + 2 <= |s.slots|
    requires Descending(s.procs[j].todo, n)
    requires Far(c) <= InsertionPoint(s.procs[j].todo[..n], s.procs[j].todo[n].prio) < n
    ensures IsSplitRun(c, fr) && First(fr) == AtRest(s)
    ensures j < |fr.last.at| && Enabled(c, fr.last.s, j) && !PartInRange(c, fr.last, j)
  {
    var todo := s.procs[j].todo;
    fr := AllBehind(c, s, i, todo);
    assert todo[0..] == todo;
    fr := SendsThenTurned(c, fr, i, j, todo, n, todo, 0, n);
  }

  // The same processes with other messages and another array.
  ghost predicate SameShape(s: State, t: State) {
    && t == s.(slots := t.slots, procs := t.procs)
    && |t.slots| == |s.slots| && |t.procs| == |s.procs|
    && forall k :: 0 <= k < |s.procs| ==>
         if s.procs[k].Sender? then
           t.procs[k].Sender? && |t.procs[k].todo| == |s.procs[k].todo| && t.procs[k].pc == s.procs[k].pc
         else t.procs[k] == s.procs[k]
  }

  // Messages in the order in which they are sent: high ones, a low one, and then one that goes
  // between.
  function Ranked(c: Config, r: int): Msg {
    Msg("", if r < Far(c) then 2 else if r == Far(c) then 0 else 1, 0)
  }

  function FirstRanked(c: Config): seq<Msg> {
    seq(Far(c) + 2, r => Ranked(c, r))
  }

  lemma RankedTurnsBack(c: Config)
    ensures var all, n := FirstRanked(c), Far(c) + 1;
            Descending(all, n) && InsertionPoint(all[..n], all[n].prio) == Far(c)
  {
    var all, n := FirstRanked(c), Far(c) + 1;
    InsertionPointUnique(all[..n], all[n].prio, Far(c));
  }

  // The messages of the senders before process k, but for those of i.
  function Before(ps: seq<Proc>, i: nat, k: nat): nat
    requires k <= |ps|
  {
    if k == 0 then 0
    else Before(ps, i, k - 1) + (if k - 1 != i && ps[k - 1].Sender? then |ps[k - 1].todo| else 0)
  }

  // Process k with messages ranked in the order of the processes.
  function RerankedProc(c: Config, ps: seq<Proc>, i: nat, k: nat): Proc
    requires k < |ps|
  {
    if k == i || ps[k].Receiver? then ps[k]
    else Sender(seq(|ps[k].todo|, a => Ranked(c, Before(ps, i, k) + a)), ps[k].pc)
  }

  function Reranked(c: Config, s: State, i: nat): (t: State)
    ensures SameShape(s, t)
  {
    s.(procs := seq(|s.procs|, k requires 0 <= k < |s.procs| => RerankedProc(c, s.procs, i, k)))
  }

  // What the senders from j on have still to send.
  ghost predicate Pending(c: Config, f: Split, ps: seq<Proc>, i: nat, j: nat) {
    && |f.at| == |f.s.procs| == |ps|
    && forall k :: j <= k < |ps| && k != i ==> f.at[k].Rest? && f.s.procs[k] == RerankedProc(c, ps, i, k)
  }

  // Sender j sends all it has.
  lemma SendsRanked(c: Config, fr: SplitRun, ps: seq<Proc>, i: nat, j: nat) returns (fr': SplitRun)
    requires !c.countInside && IsSplitRun(c, fr) && Pending(c, fr.last, ps, i, j)
    requires j < |ps| && j != i && ps[j].Sender? && ps[j].pc == 0 && Before(ps, i, j + 1) <= Far(c) + 1
    requires Behind(fr.last, i, FirstRanked(c), Before(ps, i, j)) && |fr.last.s.slots| >= Far(c) + 3
    ensures IsSplitRun(c, fr') && First(fr') == First(fr) && Pending(c, fr'.last, ps, i, j + 1)
    ensures Behind(fr'.last, i, FirstRanked(c), Before(ps, i, j + 1))
    ensures |fr'.last.s.slots| == |fr.last.s.slots|
  {
    var todo, n, o := RerankedProc(c, ps, i, j).todo, |ps[j].todo|, Before(ps, i, j);
    assert todo[0..] == todo;
    RankedTurnsBack(c);
    assert Follows(fr.last, j, todo, 0, n, FirstRanked(c), o);
    fr' := SendsInOrder(c, fr, i, j, todo, 0, n, FirstRanked(c), o, o, o + n);
  }

  // The next one is also j's, which is turned back.
  lemma ThisTurnedBack(c: Config, fr: SplitRun, ps: seq<Proc>, i: nat, j: nat) returns (fr': SplitRun)
    requires !c.countInside && IsSplitRun(c, fr) && Pending(c, fr.last, ps, i, j)
    requires j < |ps| && j != i && ps[j].Sender? && ps[j].pc == 0
    requires Before(ps, i, j) <= Far(c) + 1 < Before(ps, i, j) + |ps[j].todo|
    requires Behind(fr.last, i, FirstRanked(c), Before(ps, i, j)) && |fr.last.s.slots| >= Far(c) + 3
    ensures IsSplitRun(c, fr') && First(fr') == First(fr)
    ensures j < |fr'.last.at| && Enabled(c, fr'.last.s, j) && !PartInRange(c, fr'.last, j)
  {
    var n, todo := Far(c) + 1 - Before(ps, i, j), RerankedProc(c, ps, i, j).todo;
    RankedTurnsBack(c);
    assert todo[0..] == todo;
    assert Follows(fr.last, j, todo, 0, n + 1, FirstRanked(c), Before(ps, i, j));
    fr' := SendsThenTurned(c, fr, i, j, todo, n, FirstRanked(c), Before(ps, i, j), Far(c) + 1);
  }

  // The processes up to j have sent theirs.
  ghost predicate SentBefore(c: Config, f: Split, ps: seq<Proc>, i: nat, j: nat) {
    && j <= |ps| && Pending(c, f, ps, i, j) && Behind(f, i, FirstRanked(c), Before(ps, i, j))
    && |f.s.slots| >= Far(c) + 3
  }

  lemma NextIdle(c: Config, f: Split, ps: seq<Proc>, i: nat, j: nat)
    requires SentBefore(c, f, ps, i, j) && j < |ps| && (j == i || ps[j].Receiver?)
    ensures SentBefore(c, f, ps, i, j + 1)
  {
  }

  lemma NextSends(c: Config, fr: SplitRun, ps: seq<Proc>, i: nat, j: nat) returns (fr': SplitRun)
    requires !c.countInside && IsSplitRun(c, fr) && j < |ps| && ps[j].pc == 0 && j != i && ps[j].Sender?
    requires SentBefore(c, fr.last, ps, i, j) && Before(ps, i, j + 1) <= Far(c) + 1
    ensures IsSplitRun(c, fr') && First(fr') == First(fr) && SentBefore(c, fr'.last, ps, i, j + 1)
  {
    fr' := SendsRanked(c, fr, ps, i, j);
  }

  // All the first messages are sent, and the sender of the next one is turned back.
  lemma {:induction false} SomeTurnedBack(c: Config, fr: SplitRun, ps: seq<Proc>, i: nat, j: nat)
    returns (fr': SplitRun, w: nat)
    requires !c.countInside && IsSplitRun(c, fr) && SentBefore(c, fr.last, ps, i, j)
    requires forall k :: 0 <= k < |ps| ==> ps[k].pc == 0
    requires Before(ps, i, j) <= Far(c) + 1 < Before(ps, i, |ps|)
    ensures IsSplitRun(c, fr') && First(fr') == First(fr)
    ensures w < |fr'.last.at| && Enabled(c, fr'.last.s, w) && !PartInRange(c, fr'.last, w)
    decreases |ps| - j
  {
    if j == i || ps[j].Receiver? {
      NextIdle(c, fr.last, ps, i, j);
      fr', w := SomeTurnedBack(c, fr, ps, i, j + 1);
    } else if Before(ps, i, j + 1) <= Far(c) + 1 {
      var next := NextSends(c, fr, ps, i, j);
      fr', w := SomeTurnedBack(c, next, ps, i, j + 1);
    } else {
      fr' := ThisTurnedBack(c, fr, ps, i, j);
      w := j;
    }
  }

  lemma {:induction false} BeforeIsTotal(ps: seq<Proc>, i: nat, k: nat)
    requires k <= |ps| && i < |ps| && ps[i].Sender? && forall j :: 0 <= j < |ps| ==> ps[j].pc == 0
    ensures Before(ps, i, k) == Total(ToGive(), ps[..k]) - (if i < k then |ps[i].todo| else 0)
  {
    if k == 0 {
    } else {
      BeforeIsTotal(ps, i, k - 1);
      assert ps[..k] == ps[..k - 1] + [ps[k - 1]];
      TotalSnoc(ToGive(), ps[..k - 1], ps[k - 1]);
    }
  }

  lemma ShapeKept(c: Config, s: State, t: State)
    requires Initial(s) && SameShape(s, t)
    ensures Initial(t) && Sends(t) == Sends(s) && Receives(c, t) == Receives(c, s)
    ensures forall k :: 0 <= k < |s.procs| ==> Sending(t.procs[k]) == Sending(s.procs[k])
  {
    forall k | 0 <= k < |s.procs| ensures ToGive()(s.procs[k]) == ToGive()(t.procs[k]) {
    }
    TotalSame(ToGive(), s.procs, t.procs);
    TotalSame(ToTake(c), s.procs, t.procs);
  }

  // One sender that the others' messages outnumber: with some messages, some run leaves the array.
  lemma ManyTurnBack(c: Config, s: State, i: nat) returns (t: State)
    requires !c.countInside && Initial(s) && |s.slots| >= Far(c) + 3
    requires i < |s.procs| && Sending(s.procs[i]) && Sends(s) - |s.procs[i].todo| >= Far(c) + 2
    ensures SameShape(s, t) && !StaysInRange(c, t)
  {
    t := Reranked(c, s, i);
    ShapeKept(c, s, t);
    BeforeIsTotal(s.procs, i, |s.procs|);
    assert s.procs[..|s.procs|] == s.procs;
    var fr := AllBehind(c, t, i, FirstRanked(c));
    assert Pending(c, fr.last, s.procs, i, 0);
    var w;
    fr, w := SomeTurnedBack(c, fr, s.procs, i, 0);
  }

  // The other senders of each are few.
  ghost predicate OthersFew(c: Config, s: State) {
    forall i :: 0 <= i < |s.procs| && Sending(s.procs[i]) ==> Sends(s) - |s.procs[i].todo| <= Far(c) + 1
  }

  // Then there are few messages in all, or two senders at most.
  lemma NoThird(c: Config, s: State, i: nat, j: nat, k: nat)
    requires Initial(s) && OthersFew(c, s) && Sends(s) > Far(c) + 2 && i < j < k < |s.procs|
    ensures !(Sending(s.procs[i]) && Sending(s.procs[j]) && Sending(s.procs[k]))
  {
    if Sending(s.procs[i]) && Sending(s.procs[j]) && Sending(s.procs[k]) {
      InitialTokens(c, s);
      AllNonNegative(c, s.procs);
      TotalThree(ToGive(), s.procs, i, j, k);
    }
  }

  lemma AnyThird(c: Config, s: State, i: nat, j: nat, k: nat)
    requires Initial(s) && OthersFew(c, s) && Sends(s) > Far(c) + 2 && i != j && i != k && j != k
    requires i < |s.procs| && j < |s.procs| && k < |s.procs| && Sending(s.procs[i]) && Sending(s.procs[j])
    ensures !Sending(s.procs[k])
  {
    var a, b := if i < j then i else j, if i < j then j else i;
    if k < a {
      NoThird(c, s, k, a, b);
    } else if k < b {
      NoThird(c, s, a, k, b);
    } else {
      NoThird(c, s, a, b, k);
    }
  }

  lemma OnlyTwo(c: Config, s: State, i: nat, j: nat)
    requires Initial(s) && Receives(c, s) == 0 && OthersFew(c, s) && Sends(s) > Far(c) + 2 && i != j
    requires i < |s.procs| && j < |s.procs| && Sending(s.procs[i]) && Sending(s.procs[j])
    ensures TwoSenders(s, i, j)
    ensures |s.procs[i].todo| <= Far(c) + 1 && |s.procs[j].todo| <= Far(c) + 1
  {
    InitialTokens(c, s);
    AllNonNegative(c, s.procs);
    NoneLeft(c, s.procs, false);
    if i < j {
      TotalTwo(ToGive(), s.procs, i, j);
    } else {
      TotalTwo(ToGive(), s.procs, j, i);
    }
    forall k | 0 <= k < |s.procs| && k != i && k != j ensures Finished(s.procs[k]) {
      AnyThird(c, s, i, j, k);
    }
  }

  lemma FewInRange(c: Config, s: State)
    requires !c.countInside && Initial(s) && Receives(c, s) == 0
    requires |s.slots| <= Far(c) + 2 || Sends(s) <= Far(c) + 2
    ensures StaysInRange(c, s)
  {
    forall fr: SplitRun, w: nat |
      IsSplitRun(c, fr) && First(fr) == AtRest(s) && w < |fr.last.at| && Enabled(c, fr.last.s, w)
      ensures PartInRange(c, fr.last, w)
    {
      LowRun(c, fr);
      FewRun(c, fr);
      LowInRange(c, fr.last, Sends(s), w);
    }
  }

  lemma TwoInRange(c: Config, s: State, i: nat, j: nat)
    requires !c.countInside && Initial(s) && Receives(c, s) == 0 && TwoSenders(s, i, j)
    requires |s.procs[i].todo| <= Far(c) + 1 && |s.procs[j].todo| <= Far(c) + 1
    ensures StaysInRange(c, s)
  {
    forall fr: SplitRun, w: nat |
      IsSplitRun(c, fr) && First(fr) == AtRest(s) && w < |fr.last.at| && Enabled(c, fr.last.s, w)
      ensures PartInRange(c, fr.last, w)
    {
      LowRun(c, fr);
      CloseRun(c, fr, i, j);
      LowInRange(c, fr.last, Sends(s), w);
    }
  }

  lemma SendersInRange(c: Config, s: State)
    requires Initial(s) && Receives(c, s) == 0 && (|s.slots| <= Far(c) + 2 || OthersFew(c, s))
    ensures StaysInRange(c, s)
  {
    if CountSafe(c, s) {
      InRangeWhenSafe(c, s);
    } else if |s.slots| <= Far(c) + 2 || Sends(s) <= Far(c) + 2 {
      FewInRange(c, s);
    } else {
      var i, j :| 0 <= i < |s.procs| && 0 <= j < |s.procs| && Sending(s.procs[i]) && Sending(s.procs[j]) && i != j;
      OnlyTwo(c, s, i, j);
      TwoInRange(c, s, i, j);
    }
  }

  // Where every run stays inside the array whatever the messages and whatever the array holds:
  // the count is raised under the mutex; or nothing is sent; or nothing is received, and the
  // slots are few or every sender is one beside whom few messages are sent.
  ghost predicate RangeSafe(c: Config, s: State) {
    || c.countInside
    || Sends(s) == 0
    || (Receives(c, s) == 0 && (|s.slots| <= Far(c) + 2 || OthersFew(c, s)))
  }

  lemma RangeSafeKept(c: Config, s: State, t: State)
    requires Initial(s) && SameShape(s, t) && RangeSafe(c, s)
    ensures StaysInRange(c, t)
  {
    ShapeKept(c, s, t);
    if c.countInside || Sends(s) == 0 {
      InRangeWhenSafe(c, t);
    } else {
      assert OthersFew(c, s) ==> OthersFew(c, t);
      SendersInRange(c, t);
    }
  }

  lemma RangeExactly(c: Config, s: State)
    requires Initial(s)
    ensures (forall t: State :: SameShape(s, t) ==> StaysInRange(c, t)) <==> RangeSafe(c, s)
  {
    if RangeSafe(c, s) {
      forall t: State | SameShape(s, t) ensures StaysInRange(c, t) {
        RangeSafeKept(c, s, t);
      }
    } else if Receives(c, s) != 0 {
      RangeWithReceives(c, s);
      assert SameShape(s, s);
    } else {
      var i :| 0 <= i < |s.procs| && Sending(s.procs[i]) && Sends(s) - |s.procs[i].todo| > Far(c) + 1;
      var t := ManyTurnBack(c, s, i);
    }
  }
}
