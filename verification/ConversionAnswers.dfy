// What the clients are shown, in every run of any number of clients and converters.
module ConversionAnswers {
  import opened Options
  import opened Converters
  import opened ConversionService
  import opened ConversionTokens
  import opened Runs

  // The first k rows answer the request: what the plain loop over the converters computes.
  ghost predicate Answers(rq: Request, rows: seq<Request>, k: nat) {
    k <= |rows| && forall j :: 0 <= j < k ==> HandleRequest(rq, j) == Some(rows[j])
  }

  // The request in the segment is the one its last writer was given.
  ghost predicate Written(s: State) {
    s.writer < |s.clients| && s.rq == s.clients[s.writer].args
  }

  // The server's round, from the post that starts it to the one that ends it.
  ghost predicate RoundOk(n: nat, s: State) {
    s.server > 0 || s.pc > 0 ==>
      && Written(s) && s.clients[s.writer].pc == 4
      && (s.pc > 0 ==> Answers(s.rq, s.rp, if s.pc == 4 then s.i + 1 else s.i))
      && (s.pc == 3 || s.kid == Posting || s.father > 0 ==> s.i < |s.lp| && HandleRequest(s.rq, s.i) == Some(s.lp[s.i]))
      && (s.kid == Exited ==> HandleRequest(s.rq, s.i) == None)
  }

  // Once a round has been served, a free segment holds a request and its answer.
  ghost predicate FreeOk(n: nat, s: State) {
    s.client > 0 && s.rounds > 0 ==> Written(s) && Answers(s.rq, s.rp, n)
  }

  ghost predicate ClientOk(n: nat, s: State, k: nat)
    requires k < |s.clients|
  {
    var c := s.clients[k];
    && c.pc <= 7
    && (1 <= c.pc <= 3 ==> s.writer == k)
    && (c.pc == 2 ==> s.rq.currency == c.args.currency)
    && (c.pc == 3 ==> s.rq == c.args)
    && (s.rounds == 0 ==> c.pc < 5)
    && (s.rounds == 0 && c.pc == 4 ==> s.writer == k && (s.server > 0 || s.pc > 0))
    && (5 <= c.pc <= 6 ==> Written(s) && Answers(s.rq, s.rp, n))
    && (c.pc == 6 ==> c.shown == s.rq && c.from == s.writer && |c.rows| <= n && c.rows == s.rp[..|c.rows|])
    && (c.pc == 7 ==> c.from < |s.clients| && c.shown == s.clients[c.from].args)
    && (c.pc == 7 ==> |c.rows| == n && Answers(c.shown, c.rows, n))
    && (c.pc >= 4 && !Servable(c.args, n) ==> c.pc == 4 && k == s.writer && (s.server > 0 || s.pc > 0))
  }

  ghost predicate Inv(n: nat, s: State) {
    && OuterToken(s) && InnerToken(n, s)
    && RoundOk(n, s) && FreeOk(n, s)
    && forall k :: 0 <= k < |s.clients| ==> ClientOk(n, s, k)
  }

  lemma ClientStepOthers(n: nat, s: State, k: nat, t: State, j: nat)
    requires Inv(n, s) && Next(n, s, ClientStep(k), t)
    requires j < |s.clients| && j != k
    ensures ClientOk(n, t, j)
  {
    assert ClientOk(n, s, j) && ClientOk(n, s, k);
    Exclusive(s);
    if InSection(s.clients[k]) {
      OneHolder(s, k);
    } else {
      NobodyInside(s, j);
    }
  }

  lemma ClientStepSelf(n: nat, s: State, k: nat, t: State)
    requires Inv(n, s) && Next(n, s, ClientStep(k), t)
    ensures ClientOk(n, t, k)
  {
    assert ClientOk(n, s, k);
    Exclusive(s);
    if InSection(s.clients[k]) {
      OneHolder(s, k);
    }
  }

  lemma ClientStepSegment(n: nat, s: State, k: nat, t: State)
    requires Inv(n, s) && Next(n, s, ClientStep(k), t)
    ensures RoundOk(n, t) && FreeOk(n, t)
  {
    assert ClientOk(n, s, k);
    Exclusive(s);
    if InSection(s.clients[k]) {
      OneHolder(s, k);
    }
  }

  lemma FatherStepSegment(n: nat, s: State, t: State)
    requires Inv(n, s) && Next(n, s, FatherStep, t)
    ensures RoundOk(n, t) && FreeOk(n, t)
  {
    Exclusive(s);
  }

  lemma FatherStepClient(n: nat, s: State, t: State, j: nat)
    requires Inv(n, s) && Next(n, s, FatherStep, t) && j < |s.clients|
    ensures ClientOk(n, t, j)
  {
    assert ClientOk(n, s, j);
    Exclusive(s);
    NobodyInside(s, j);
  }

  lemma ChildStepOk(n: nat, s: State, t: State)
    requires Inv(n, s) && Next(n, s, ChildStep, t)
    ensures RoundOk(n, t) && FreeOk(n, t)
    ensures forall j :: 0 <= j < |t.clients| ==> ClientOk(n, t, j)
  {
    forall j | 0 <= j < |t.clients| ensures ClientOk(n, t, j) {
      assert ClientOk(n, s, j);
    }
  }

  lemma ClientStepClients(n: nat, s: State, k: nat, t: State, j: nat)
    requires Inv(n, s) && Next(n, s, ClientStep(k), t) && j < |s.clients|
    ensures ClientOk(n, t, j)
  {
    if j == k { ClientStepSelf(n, s, k, t); } else { ClientStepOthers(n, s, k, t, j); }
  }

  lemma InvStep(n: nat, s: State, w: Who, t: State)
    requires Inv(n, s) && Next(n, s, w, t)
    ensures RoundOk(n, t) && FreeOk(n, t)
    ensures |t.clients| == |s.clients|
    ensures forall k :: 0 <= k < |s.clients| ==> ClientOk(n, t, k)
  {
    match w
    case ClientStep(k) =>
      ClientStepSegment(n, s, k, t);
      forall j | 0 <= j < |s.clients| ensures ClientOk(n, t, j) { ClientStepClients(n, s, k, t, j); }
    case FatherStep =>
      FatherStepSegment(n, s, t);
      forall j | 0 <= j < |s.clients| ensures ClientOk(n, t, j) { FatherStepClient(n, s, t, j); }
    case ChildStep =>
      ChildStepOk(n, s, t);
  }

  lemma {:induction false} InvRun(n: nat, r: ServiceRun)
    requires IsRun(n, r) && Initial(n, First(r))
    ensures Inv(n, r.last)
  {
    TokensRun(n, r);
    if r.Start? {
    } else {
      InvRun(n, r.before);
      InvStep(n, r.before.last, r.who, r.last);
    }
  }
}
