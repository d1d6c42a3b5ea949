// Conversion requests and their answers. A request that names no known currency, or a
// converter number without a currency, ends the process that handles it: None here.
module Converters {
  import opened Options

  datatype Request = Request(currency: string, amount: real)

  // How much of a currency one euro buys.
  function Rate(currency: string): (r: Option<real>)
    ensures r.Some? ==> r.value > 0.0
  {
    if currency == "EUR" then Some(1.0)
    else if currency == "GBP" then Some(0.68175)
    else if currency == "USD" then Some(1.2061)
    else if currency == "JPY" then Some(137.3)
    else if currency == "CNY" then Some(9.7598)
    else None
  }

  function ConvertFrom(currency: string, amount: real): Option<real> {
    match Rate(currency)
    case None => None
    case Some(r) => Some(amount / r)
  }

  function ConvertTo(currency: string, amount: real): Option<real> {
    match Rate(currency)
    case None => None
    case Some(r) => Some(amount * r)
  }

  function Convert(from: string, to: string, amount: real): Option<real> {
    match ConvertFrom(from, amount)
    case None => None
    case Some(euros) => ConvertTo(to, euros)
  }

  function DetermineCurrency(converter: nat): Option<string> {
    match converter
    case 0 => Some("EUR")
    case 1 => Some("GBP")
    case 2 => Some("USD")
    case 3 => Some("JPY")
    case 4 => Some("CNY")
    case _ => None
  }

  function HandleRequest(rq: Request, converter: nat): Option<Request> {
    match DetermineCurrency(converter)
    case None => None
    case Some(target) =>
      match Convert(rq.currency, target, rq.amount)
      case None => None
      case Some(amount) => Some(Request(target, amount))
  }

  // Converter i answers in the i-th currency, at the ratio of the two rates, for which the tables
  // of the header file stand here.
  lemma AnswerExactly(rq: Request, f: nat, i: nat)
    requires f < 5 && i < 5 && rq.currency == ["EUR", "GBP", "USD", "JPY", "CNY"][f]
    ensures var rates := [1.0, 0.68175, 1.2061, 137.3, 9.7598];
            && HandleRequest(rq, i).Some?
            && HandleRequest(rq, i).value.currency == ["EUR", "GBP", "USD", "JPY", "CNY"][i]
            && HandleRequest(rq, i).value.amount * rates[f] == rq.amount * rates[i]
  {
    var names, rates := ["EUR", "GBP", "USD", "JPY", "CNY"], [1.0, 0.68175, 1.2061, 137.3, 9.7598];
    RateOf(f);
    RateOf(i);
    CrossRate(rq.amount, rates[f], rates[i]);
  }

  lemma RateOf(i: nat)
    requires i < 5
    ensures var name := ["EUR", "GBP", "USD", "JPY", "CNY"][i];
            DetermineCurrency(i) == Some(name) && Rate(name) == Some([1.0, 0.68175, 1.2061, 137.3, 9.7598][i])
  {
    assert i == 0 || i == 1 || i == 2 || i == 3 || i == 4;
  }

  lemma CrossRate(x: real, r: real, t: real)
    requires r > 0.0
    ensures x / r * t * r == x * t
  {
    assert x / r * r == x;
    assert x / r * t * r == x / r * r * t;
  }

  lemma CancelRate(x: real, y: real, r: real)
    requires r > 0.0 && x * r == y * r
    ensures x == y
  {
  }

  // So an answer in the request's own currency is the request, and the answer to an answer in
  // that currency is, too.
  lemma ThereAndBack(rq: Request, f: nat, i: nat)
    requires f < 5 && i < 5 && rq.currency == ["EUR", "GBP", "USD", "JPY", "CNY"][f]
    ensures HandleRequest(rq, f) == Some(rq)
    ensures HandleRequest(rq, i).Some? && HandleRequest(HandleRequest(rq, i).value, f) == Some(rq)
  {
    var rates := [1.0, 0.68175, 1.2061, 137.3, 9.7598];
    AnswerExactly(rq, f, f);
    AnswerExactly(rq, f, i);
    var there := HandleRequest(rq, i).value;
    AnswerExactly(there, i, f);
    CancelRate(HandleRequest(rq, f).value.amount, rq.amount, rates[f]);
    CancelRate(HandleRequest(there, f).value.amount, rq.amount, rates[i]);
  }

  // Nobody else is answered, and nobody answers else.
  lemma NoOtherAnswer(rq: Request, i: nat)
    ensures HandleRequest(rq, i).Some? <==> i < 5 && rq.currency in {"EUR", "GBP", "USD", "JPY", "CNY"}
  {
  }

  // Every one of n converters has an answer.
  ghost predicate Servable(rq: Request, n: nat) {
    forall i :: 0 <= i < n ==> HandleRequest(rq, i).Some?
  }

  // With the five converters there are, those are the requests in a known currency.
  lemma ServableExactly(rq: Request)
    ensures Servable(rq, 5) <==> rq.currency in {"EUR", "GBP", "USD", "JPY", "CNY"}
  {
    assert HandleRequest(rq, 0).Some? <==> Rate(rq.currency).Some?;
    if Rate(rq.currency).Some? {
      forall i | 0 <= i < 5 ensures HandleRequest(rq, i).Some? {
        assert i == 0 || i == 1 || i == 2 || i == 3 || i == 4;
      }
    }
  }

  // The first n answers, or None when a converter has none.
  function Table(rq: Request, n: nat): Option<seq<Request>> {
    if n == 0 then Some([])
    else
      match Table(rq, n - 1)
      case None => None
      case Some(rows) =>
        match HandleRequest(rq, n - 1)
        case None => None
        case Some(row) => Some(rows + [row])
  }

  lemma LastOf<T>(a: seq<T>, x: T, b: seq<T>)
    requires b != []
    ensures a + [x] == b <==> a == b[..|b| - 1] && x == b[|b| - 1]
  {
    if a + [x] == b {
      assert b[..|b| - 1] == a && b[|b| - 1] == x;
    }
  }

  // The table holds exactly the converters' answers, in their order.
  lemma {:induction false} TableExactly(rq: Request, n: nat, rows: seq<Request>)
    ensures Table(rq, n) == Some(rows) <==>
            |rows| == n && forall i :: 0 <= i < n ==> HandleRequest(rq, i) == Some(rows[i])
  {
    if n == 0 || rows == [] {
    } else {
      var front, last := rows[..|rows| - 1], rows[|rows| - 1];
      TableExactly(rq, n - 1, front);
      if Table(rq, n - 1).Some? && HandleRequest(rq, n - 1).Some? {
        LastOf(Table(rq, n - 1).value, HandleRequest(rq, n - 1).value, rows);
      }
      assert Table(rq, n) == Some(rows) <==> Table(rq, n - 1) == Some(front) && HandleRequest(rq, n - 1) == Some(last);
    }
  }

  // The plain server: one loop over the converters, in one process.
  method Serve(rq: Request, n: nat) returns (rep: Option<seq<Request>>)
    ensures rep == Table(rq, n)
    ensures rep.Some? <==> Servable(rq, n)
  {
    var rows: seq<Request> := [];
    for i := 0 to n
      invariant Table(rq, i) == Some(rows) && Servable(rq, i)
    {
      match HandleRequest(rq, i)
      case None => NoTable(rq, i, n); return None;
      case Some(row) => rows := rows + [row];
    }
    return Some(rows);
  }

  lemma {:induction false} NoTable(rq: Request, i: nat, n: nat)
    requires i < n && HandleRequest(rq, i) == None
    ensures Table(rq, n) == None
  {
    if i == n - 1 {
    } else {
      NoTable(rq, i, n - 1);
    }
  }
}
