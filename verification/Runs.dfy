// Runs of a state machine: a first state, then steps, each labelled with who makes it.
module Runs {

  datatype Run<S, W> = Start(last: S) | Then(before: Run<S, W>, who: W, last: S)

  function First<S, W>(r: Run<S, W>): S {
    match r
    case Start(s) => s
    case Then(before, _, _) => First(before)
  }

  function Steps<S, W>(r: Run<S, W>): nat {
    match r
    case Start(_) => 0
    case Then(before, _, _) => Steps(before) + 1
  }

  // The run a followed by the steps of b.
  function Append<S, W>(a: Run<S, W>, b: Run<S, W>): Run<S, W> {
    match b
    case Start(_) => a
    case Then(before, who, last) => Then(Append(a, before), who, last)
  }
}
