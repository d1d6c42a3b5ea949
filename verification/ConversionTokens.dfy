// The two levels of semaphores: one token over the exchange segment, one between father and child.
module ConversionTokens {
  import opened ConversionService
  import opened Runs
  import opened Totals

  // A client between a wait and the post that follows it.
  predicate InSection(c: Client) {
    1 <= c.pc <= 3 || 5 <= c.pc <= 6
  }

  function Sections(): Client -> int {
    (c: Client) => if InSection(c) then 1 else 0
  }

  // The outer token is in exactly one place.
  ghost predicate OuterToken(s: State) {
    s.client + s.server + Total(Sections(), s.clients) + (if s.pc > 0 then 1 else 0) == 1
  }

  function Between(s: State): nat {
    (if s.kid in {Computing, Posting} then 1 else 0) + (if s.pc in {3, 4} then 1 else 0)
  }

  // So is the inner one, unless a child has exited with it; and the child runs only while the
  // father waits for it.
  ghost predicate InnerToken(n: nat, s: State) {
    && |s.rp| == |s.lp| == n
    && s.pc <= 4 && s.i <= n && (s.pc >= 2 ==> s.i < n)
    && s.child + s.father + Between(s) + (if s.kid == Exited then 1 else 0) == 1
    && (s.kid != Absent ==> s.pc == 2)
    && (s.father == 1 ==> s.pc == 2 && s.kid == Absent)
    && (s.pc == 2 && s.child == 1 ==> s.kid == Waiting)
  }

  lemma ClientOuterStep(n: nat, s: State, k: nat, t: State)
    requires OuterToken(s) && Next(n, s, ClientStep(k), t)
    ensures OuterToken(t)
  {
    TotalUpdate(Sections(), s.clients, k, t.clients[k]);
  }

  lemma FatherOuterStep(n: nat, s: State, t: State)
    requires OuterToken(s) && Next(n, s, FatherStep, t)
    ensures OuterToken(t)
  {
    assert t.clients == s.clients;
  }

  lemma OuterStep(n: nat, s: State, w: Who, t: State)
    requires OuterToken(s) && Next(n, s, w, t)
    ensures OuterToken(t)
  {
    match w
    case ClientStep(k) => ClientOuterStep(n, s, k, t);
    case FatherStep => FatherOuterStep(n, s, t);
    case ChildStep =>
      assert t.clients == s.clients && t.client == s.client && t.server == s.server && t.pc == s.pc;
  }

  lemma FatherInnerStep(n: nat, s: State, t: State)
    requires InnerToken(n, s) && Next(n, s, FatherStep, t)
    ensures InnerToken(n, t)
  {
  }

  lemma ChildInnerStep(n: nat, s: State, t: State)
    requires InnerToken(n, s) && Next(n, s, ChildStep, t)
    ensures InnerToken(n, t)
  {
  }

  lemma InnerStep(n: nat, s: State, w: Who, t: State)
    requires InnerToken(n, s) && Next(n, s, w, t)
    ensures InnerToken(n, t)
  {
    match w
    case ClientStep(k) =>
      assert t.pc == s.pc && t.i == s.i && t.kid == s.kid && t.child == s.child && t.father == s.father;
    case FatherStep => FatherInnerStep(n, s, t);
    case ChildStep => ChildInnerStep(n, s, t);
  }

  lemma {:induction false} TokensRun(n: nat, r: ServiceRun)
    requires IsRun(n, r) && Initial(n, First(r))
    ensures OuterToken(r.last) && InnerToken(n, r.last)
  {
    if r.Start? {
      TotalZero(Sections(), r.last.clients);
    } else {
      TokensRun(n, r.before);
      OuterStep(n, r.before.last, r.who, r.last);
      InnerStep(n, r.before.last, r.who, r.last);
    }
  }

  // At most one party holds the exchange segment.
  lemma OneHolder(s: State, k: nat)
    requires OuterToken(s) && k < |s.clients| && InSection(s.clients[k])
    ensures s.client == 0 && s.server == 0 && s.pc == 0
    ensures forall j :: 0 <= j < |s.clients| && j != k ==> !InSection(s.clients[j])
  {
    TotalAtLeast(Sections(), s.clients);
    forall j | 0 <= j < |s.clients| && j != k ensures !InSection(s.clients[j]) {
      if InSection(s.clients[j]) {
        if j < k { TotalTwo(Sections(), s.clients, j, k); } else { TotalTwo(Sections(), s.clients, k, j); }
      }
    }
  }

  lemma Exclusive(s: State)
    requires OuterToken(s)
    ensures s.client + s.server + (if s.pc > 0 then 1 else 0) <= 1
  {
    TotalAtLeast(Sections(), s.clients);
  }

  // While a semaphore has the token or the server is in its round, no client is inside.
  lemma NobodyInside(s: State, k: nat)
    requires OuterToken(s) && k < |s.clients| && (s.client > 0 || s.server > 0 || s.pc > 0)
    ensures !InSection(s.clients[k])
  {
    if InSection(s.clients[k]) {
      OneHolder(s, k);
    }
  }

  // Father and child are never both between their wait and their post.
  lemma FatherAndChild(n: nat, r: ServiceRun)
    requires IsRun(n, r) && Initial(n, First(r))
    ensures Between(r.last) <= 1
  {
    TokensRun(n, r);
  }
}
