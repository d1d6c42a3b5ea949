// What a client of the conversion service may rely on, and when the service comes to a stop.
module ConversionTheorems {
  import opened Options
  import opened Converters
  import opened ConversionService
  import opened ConversionTokens
  import opened ConversionAnswers
  import opened Runs
  import opened Totals

  lemma StepKeepsArgs(n: nat, s: State, w: Who, t: State)
    requires Next(n, s, w, t)
    ensures |t.clients| == |s.clients|
    ensures forall k :: 0 <= k < |s.clients| ==> t.clients[k].args == s.clients[k].args
  {
  }

  lemma {:induction false} ArgsKept(n: nat, r: ServiceRun)
    requires IsRun(n, r)
    ensures |r.last.clients| == |First(r).clients|
    ensures forall k :: 0 <= k < |r.last.clients| ==> r.last.clients[k].args == First(r).clients[k].args
  {
    if r.Start? {
    } else {
      ArgsKept(n, r.before);
      StepKeepsArgs(n, r.before.last, r.who, r.last);
    }
  }

  // Whatever a client shows is a request that some client made, with the table that the plain
  // loop computes for it; and it shows nothing before a round has been served.
  lemma DisplayIsAnAnswer(n: nat, r: ServiceRun, k: nat)
    requires IsRun(n, r) && Initial(n, First(r))
    requires k < |r.last.clients| && r.last.clients[k].pc == 7
    ensures var c := r.last.clients[k];
            && r.last.rounds > 0
            && c.from < |First(r).clients| && c.shown == First(r).clients[c.from].args
            && Table(c.shown, n) == Some(c.rows)
  {
    InvRun(n, r);
    ArgsKept(n, r);
    assert ClientOk(n, r.last, k);
    TableExactly(r.last.clients[k].shown, n, r.last.clients[k].rows);
  }

  // The children's round refines the plain loop: before round i the first i rows are the
  // loop's, and the request stays what its writer was given until the round ends.
  lemma RoundRefinesLoop(n: nat, r: ServiceRun)
    requires IsRun(n, r) && Initial(n, First(r)) && r.last.pc == 1
    ensures r.last.i <= n == |r.last.rp|
    ensures Table(r.last.rq, r.last.i) == Some(r.last.rp[..r.last.i])
    ensures r.last.writer < |r.last.clients| && r.last.rq == r.last.clients[r.last.writer].args
    ensures r.last.child == 1 && r.last.father == 0 && r.last.kid == Absent
  {
    InvRun(n, r);
    TableExactly(r.last.rq, r.last.i, r.last.rp[..r.last.i]);
  }

  // Client j is about to enter its first section while client k waits for its answer.
  predicate Enters(s: State, j: nat, k: nat) {
    j != k && j < |s.clients| && s.clients[j].pc == 0 && k < |s.clients| && s.clients[k].pc == 4
  }

  // No other client enters its first section while client k waits for its answer.
  ghost predicate NoEntryMeanwhile(r: ServiceRun, k: nat) {
    match r
    case Start(_) => true
    case Then(before, w, _) =>
      && NoEntryMeanwhile(before, k)
      && !(w.ClientStep? && Enters(before.last, w.k, k))
  }

  ghost predicate OwnSoFar(s: State, k: nat, quiet: bool)
    requires k < |s.clients|
  {
    && s.clients[k].pc >= 3
    && (s.clients[k].pc < 6 ==> (s.writer == k <==> quiet))
    && (s.clients[k].pc >= 6 ==> (s.clients[k].from == k <==> quiet))
  }

  lemma OwnStepSelf(n: nat, s: State, t: State, k: nat, quiet: bool)
    requires Next(n, s, ClientStep(k), t) && OwnSoFar(s, k, quiet)
    ensures |t.clients| == |s.clients| && OwnSoFar(t, k, quiet)
  {
  }

  lemma OwnStepOther(n: nat, s: State, w: Who, t: State, k: nat, quiet: bool)
    requires Inv(n, s) && Next(n, s, w, t) && k < |s.clients| && w != ClientStep(k) && OwnSoFar(s, k, quiet)
    ensures |t.clients| == |s.clients| && t.clients[k] == s.clients[k]
    ensures t.writer == if w.ClientStep? && s.clients[w.k].pc == 0 then w.k else s.writer
    ensures w.ClientStep? && s.clients[w.k].pc == 0 ==> s.clients[k].pc == 4 || s.clients[k].pc >= 7
  {
    assert ClientOk(n, s, k);
    if InSection(s.clients[k]) {
      OneHolder(s, k);
    }
  }

  lemma OwnStep(n: nat, s: State, w: Who, t: State, k: nat, quiet: bool)
    requires Inv(n, s) && Next(n, s, w, t) && k < |s.clients| && OwnSoFar(s, k, quiet)
    ensures |t.clients| == |s.clients|
    ensures OwnSoFar(t, k, quiet && !(w.ClientStep? && Enters(s, w.k, k)))
  {
    if w == ClientStep(k) {
      OwnStepSelf(n, s, t, k, quiet);
    } else {
      OwnStepOther(n, s, w, t, k, quiet);
    }
  }

  // From its post on, client k is shown its own request exactly when no other client entered
  // its first section before client k took the semaphore back.
  lemma {:induction false} OwnAnswerRun(n: nat, r: ServiceRun, k: nat)
    requires IsRun(n, r) && Inv(n, First(r))
    requires k < |First(r).clients| && First(r).clients[k].pc == 3
    ensures Inv(n, r.last) && |r.last.clients| == |First(r).clients|
    ensures OwnSoFar(r.last, k, NoEntryMeanwhile(r, k))
  {
    if r.Start? {
      assert ClientOk(n, r.last, k);
    } else {
      OwnAnswerRun(n, r.before, k);
      StepKeepsInv(n, r.before.last, r.who, r.last);
      OwnStep(n, r.before.last, r.who, r.last, k, NoEntryMeanwhile(r.before, k));
    }
  }

  lemma StepKeepsInv(n: nat, s: State, w: Who, t: State)
    requires Inv(n, s) && Next(n, s, w, t)
    ensures Inv(n, t)
  {
    OuterStep(n, s, w, t);
    InnerStep(n, s, w, t);
    InvStep(n, s, w, t);
  }

  lemma OwnAnswerExactly(n: nat, past: ServiceRun, r: ServiceRun, k: nat)
    requires IsRun(n, past) && Initial(n, First(past)) && IsRun(n, r) && First(r) == past.last
    requires k < |past.last.clients| && past.last.clients[k].pc == 3
    ensures |r.last.clients| == |past.last.clients|
    ensures r.last.clients[k].pc == 7 ==> (r.last.clients[k].from == k <==> NoEntryMeanwhile(r, k))
  {
    InvRun(n, past);
    OwnAnswerRun(n, r, k);
  }

  // How much work is left.
  function RoundWork(n: nat): int { 2 + 7 * n }

  function ClientWork(n: nat): Client -> int {
    (c: Client) =>
      if c.pc <= 3 then 7 - c.pc + n + RoundWork(n)
      else if c.pc <= 5 then 7 - c.pc + n
      else if c.pc == 6 then n + 1 - |c.rows|
      else 0
  }

  function KidWork(kid: Child): int {
    match kid
    case Waiting => 3
    case Computing => 2
    case Posting => 1
    case _ => 0
  }

  function ServerWork(n: nat, s: State): int {
    (if s.server > 0 then RoundWork(n) else 0)
    + match s.pc
      case 0 => 0
      case 1 => 7 * (n - s.i) + 1
      case 2 => 7 * (n - s.i) - 3 + KidWork(s.kid)
      case 3 => 7 * (n - s.i) - 4
      case _ => 7 * (n - s.i) - 5
  }

  function Work(n: nat, s: State): int {
    Total(ClientWork(n), s.clients) + ServerWork(n, s)
  }

  lemma ClientWorkFalls(n: nat, s: State, k: nat, t: State)
    requires Inv(n, s) && Next(n, s, ClientStep(k), t)
    ensures Work(n, t) == Work(n, s) - 1
  {
    assert ClientOk(n, s, k);
    Exclusive(s);
    if InSection(s.clients[k]) {
      OneHolder(s, k);
    }
    TotalUpdate(ClientWork(n), s.clients, k, t.clients[k]);
  }

  lemma ServerWorkFalls(n: nat, s: State, w: Who, t: State)
    requires Inv(n, s) && Next(n, s, w, t) && !w.ClientStep?
    ensures Work(n, t) == Work(n, s) - (if t.kid == Exited then 2 else 1)
  {
    Exclusive(s);
  }

  lemma WorkLeft(n: nat, s: State)
    requires Inv(n, s)
    ensures Work(n, s) >= 0
  {
    forall k | 0 <= k < |s.clients| ensures ClientWork(n)(s.clients[k]) >= 0 {
      assert ClientOk(n, s, k);
    }
    TotalAtLeast(ClientWork(n), s.clients);
  }

  // Every run ends: it has no more steps than there is work at its start.
  lemma {:induction false} RunsEnd(n: nat, r: ServiceRun)
    requires IsRun(n, r) && Initial(n, First(r))
    ensures Inv(n, r.last)
    ensures Steps(r) + Work(n, r.last) <= Work(n, First(r))
    ensures Steps(r) <= Work(n, First(r))
  {
    InvRun(n, r);
    WorkLeft(n, r.last);
    if r.Start? {
    } else {
      RunsEnd(n, r.before);
      if r.who.ClientStep? {
        ClientWorkFalls(n, r.before.last, r.who.k, r.last);
      } else {
        ServerWorkFalls(n, r.before.last, r.who, r.last);
      }
    }
  }

  lemma {:induction false} WorkAtStart(n: nat, cs: seq<Client>)
    requires forall k :: 0 <= k < |cs| ==> cs[k].pc == 0
    ensures Total(ClientWork(n), cs) == |cs| * (8 * n + 9)
  {
    if cs == [] {
    } else {
      WorkAtStart(n, cs[1..]);
      assert |cs| * (8 * n + 9) == (|cs| - 1) * (8 * n + 9) + (8 * n + 9);
    }
  }

  // In numbers: 8 n + 9 steps for each client and its round.
  lemma StepsBounded(n: nat, r: ServiceRun)
    requires IsRun(n, r) && Initial(n, First(r))
    ensures Steps(r) <= |First(r).clients| * (8 * n + 9)
  {
    RunsEnd(n, r);
    WorkAtStart(n, First(r).clients);
  }

  // While the child has not exited, somebody who is not done can step.
  lemma StuckIsDone(n: nat, s: State)
    requires Inv(n, s) && Stuck(s) && s.kid != Exited
    ensures AllDone(s)
  {
    assert !Enabled(s, FatherStep) && !Enabled(s, ChildStep);
    forall k | 0 <= k < |s.clients| ensures s.clients[k].pc == 7 {
      assert ClientOk(n, s, k) && !Enabled(s, ClientStep(k));
      if s.client == 0 {
        var j := Positive(Sections(), s.clients);
        assert ClientOk(n, s, j) && InSection(s.clients[j]);
        InsideCanStep(s, j);
      }
    }
  }

  lemma InsideCanStep(s: State, j: nat)
    requires j < |s.clients| && InSection(s.clients[j])
    ensures Enabled(s, ClientStep(j))
  {
  }

  // A run that can go no further has answered every client exactly when every client asked
  // for something the converters can answer. Otherwise a child has exited holding the inner
  // token, and the server waits for it for ever.
  lemma EndsDoneExactly(n: nat, r: ServiceRun)
    requires IsRun(n, r) && Initial(n, First(r)) && Stuck(r.last)
    ensures AllDone(r.last) <==>
            forall k :: 0 <= k < |First(r).clients| ==> Servable(First(r).clients[k].args, n)
    ensures AllDone(r.last) <==> r.last.kid != Exited
  {
    InvRun(n, r);
    ArgsKept(n, r);
    var s := r.last;
    if s.kid == Exited {
      assert !Servable(s.clients[s.writer].args, n);
    } else {
      StuckIsDone(n, s);
      forall k | 0 <= k < |s.clients| ensures Servable(s.clients[k].args, n) {
        assert ClientOk(n, s, k);
      }
    }
  }

  // There is such a run from the start of every system.
  lemma {:induction false} RunOn(n: nat, r: ServiceRun) returns (e: ServiceRun)
    requires IsRun(n, r) && Initial(n, First(r))
    ensures IsRun(n, e) && First(e) == First(r) && Stuck(e.last)
    decreases Work(n, First(r)) - Steps(r)
  {
    InvRun(n, r);
    if Stuck(r.last) {
      e := r;
    } else {
      var w :| Enabled(r.last, w);
      var next := Then(r, w, match w
        case ClientStep(k) => ClientExec(n, r.last, k)
        case FatherStep => FatherExec(n, r.last)
        case ChildStep => ChildExec(n, r.last));
      RunsEnd(n, next);
      e := RunOn(n, next);
    }
  }

  lemma ServiceComesToAnEnd(n: nat, s: State) returns (r: ServiceRun)
    requires Initial(n, s)
    ensures IsRun(n, r) && First(r) == s && Stuck(r.last)
    ensures AllDone(r.last) <==> forall k :: 0 <= k < |s.clients| ==> Servable(s.clients[k].args, n)
  {
    r := RunOn(n, Start(s));
    EndsDoneExactly(n, r);
  }
}
