// The conversion server, its forked children and any number of clients, sharing one exchange
// segment: a request, and a table with one result for each of n converters.
module ConversionService {
  import opened Converters
  import opened Runs

  // A client's steps, by pc: 0 first wait, 1 write the currency, 2 write the amount, 3 post to
  // the server, 4 second wait, 5 read the request shown, 6 read the rows shown one by one and
  // then post, 7 done. `from` is who had written the request shown.
  datatype Client = Client(args: Request, pc: nat, shown: Request, rows: seq<Request>, from: nat)

  datatype Child = Absent | Waiting | Computing | Posting | Exited

  // The father's steps, by pc: 0 wait for a request, 1 fork a child or end the round, 2 wait for
  // the child, 3 copy its result, 4 let the next child go. `i` is the loop counter, `lp` the
  // segment shared with the children, `writer` the last client that entered its first section.
  datatype State = State(
    client: nat, server: nat, child: nat, father: nat,
    rq: Request, rp: seq<Request>, lp: seq<Request>,
    clients: seq<Client>, pc: nat, i: nat, kid: Child,
    writer: nat, rounds: nat)

  datatype Who = ClientStep(k: nat) | FatherStep | ChildStep

  type ServiceRun = Run<State, Who>

  predicate Enabled(s: State, w: Who) {
    match w
    case ClientStep(k) =>
      k < |s.clients| && s.clients[k].pc < 7 && (s.clients[k].pc in {0, 4} ==> s.client > 0)
    case FatherStep => (s.pc == 0 ==> s.server > 0) && (s.pc == 2 ==> s.father > 0)
    case ChildStep =>
      (match s.kid
       case Absent => false
       case Waiting => s.child > 0
       case Computing => true
       case Posting => true
       case Exited => false)
  }

  function ClientExec(n: nat, s: State, k: nat): State
    requires Enabled(s, ClientStep(k)) && |s.rp| == n
  {
    var c := s.clients[k];
    var t := s.(clients := s.clients[k := c.(pc := c.pc + 1)]);
    match c.pc
    case 0 => t.(client := s.client - 1, writer := k)
    case 1 => t.(rq := Request(c.args.currency, s.rq.amount))
    case 2 => t.(rq := Request(s.rq.currency, c.args.amount))
    case 3 => t.(server := s.server + 1)
    case 4 => t.(client := s.client - 1)
    case 5 => t.(clients := s.clients[k := c.(pc := 6, shown := s.rq, rows := [], from := s.writer)])
    case _ =>
      if |c.rows| < n then t.(clients := s.clients[k := c.(rows := c.rows + [s.rp[|c.rows|]])])
      else t.(client := s.client + 1)
  }

  function FatherExec(n: nat, s: State): State
    requires Enabled(s, FatherStep) && |s.rp| == |s.lp| == n
  {
    match s.pc
    case 0 => s.(server := s.server - 1, pc := 1, i := 0)
    case 1 =>
      if s.i < n then s.(kid := Waiting, pc := 2)
      else s.(client := s.client + 1, pc := 0, rounds := s.rounds + 1)
    case 2 => s.(father := s.father - 1, pc := 3)
    case 3 => s.(rp := if s.i < n then s.rp[s.i := s.lp[s.i]] else s.rp, pc := 4)
    case _ => s.(child := s.child + 1, pc := 1, i := s.i + 1)
  }

  function ChildExec(n: nat, s: State): State
    requires Enabled(s, ChildStep) && |s.lp| == n
  {
    match s.kid
    case Waiting => s.(child := s.child - 1, kid := Computing)
    case Computing =>
      (match HandleRequest(s.rq, s.i)
       case None => s.(kid := Exited)
       case Some(row) => s.(lp := if s.i < n then s.lp[s.i := row] else s.lp, kid := Posting))
    case _ => s.(father := s.father + 1, kid := Absent)
  }

  ghost predicate Next(n: nat, s: State, w: Who, t: State) {
    && |s.rp| == |s.lp| == n
    && Enabled(s, w)
    && match w
       case ClientStep(k) => t == ClientExec(n, s, k)
       case FatherStep => t == FatherExec(n, s)
       case ChildStep => t == ChildExec(n, s)
  }

  ghost predicate IsRun(n: nat, r: ServiceRun) {
    match r
    case Start(_) => true
    case Then(before, w, last) => IsRun(n, before) && Next(n, before.last, w, last)
  }

  ghost predicate Initial(n: nat, s: State) {
    && |s.rp| == |s.lp| == n
    && s.client == 1 && s.server == 0 && s.child == 1 && s.father == 0
    && s.pc == 0 && s.i == 0 && s.kid == Absent && s.rounds == 0
    && forall k :: 0 <= k < |s.clients| ==> s.clients[k].pc == 0
  }

  ghost predicate Stuck(s: State) {
    forall w :: !Enabled(s, w)
  }

  ghost predicate AllDone(s: State) {
    forall k :: 0 <= k < |s.clients| ==> s.clients[k].pc == 7
  }
}
