// Sums of a weight over a sequence, and how they change with one element.
module Totals {

  function Total<T>(w: T -> int, xs: seq<T>): int {
    if xs == [] then 0 else w(xs[0]) + Total(w, xs[1..])
  }

  ghost predicate NonNegative<T>(w: T -> int, xs: seq<T>) {
    forall k :: 0 <= k < |xs| ==> w(xs[k]) >= 0
  }

  lemma {:induction false} TotalUpdate<T>(w: T -> int, xs: seq<T>, i: nat, x: T)
    requires i < |xs|
    ensures Total(w, xs[i := x]) == Total(w, xs) - w(xs[i]) + w(x)
  {
    if i == 0 {
      assert xs[i := x][1..] == xs[1..];
    } else {
      assert xs[i := x][1..] == xs[1..][i - 1 := x];
      TotalUpdate(w, xs[1..], i - 1, x);
    }
  }

  lemma {:induction false} TotalAtLeast<T>(w: T -> int, xs: seq<T>)
    requires NonNegative(w, xs)
    ensures Total(w, xs) >= 0
    ensures forall k :: 0 <= k < |xs| ==> w(xs[k]) <= Total(w, xs)
  {
    if xs == [] {
    } else {
      assert w(xs[0]) >= 0;
      TotalAtLeast(w, xs[1..]);
      forall k | 0 <= k < |xs| ensures w(xs[k]) <= Total(w, xs) {
        if k > 0 { assert xs[k] == xs[1..][k - 1]; }
      }
    }
  }

  lemma {:induction false} TotalTwo<T>(w: T -> int, xs: seq<T>, i: nat, j: nat)
    requires NonNegative(w, xs) && i < j < |xs|
    ensures w(xs[i]) + w(xs[j]) <= Total(w, xs)
  {
    assert NonNegative(w, xs[1..]);
    assert w(xs[0]) >= 0;
    if i == 0 {
      TotalAtLeast(w, xs[1..]);
      assert xs[j] == xs[1..][j - 1];
    } else {
      TotalTwo(w, xs[1..], i - 1, j - 1);
    }
  }

  lemma {:induction false} TotalZero<T>(w: T -> int, xs: seq<T>)
    requires forall k :: 0 <= k < |xs| ==> w(xs[k]) == 0
    ensures Total(w, xs) == 0
  {
    if xs == [] {
    } else {
      TotalZero(w, xs[1..]);
    }
  }

  lemma {:induction false} TotalSnoc<T>(w: T -> int, xs: seq<T>, x: T)
    ensures Total(w, xs + [x]) == Total(w, xs) + w(x)
  {
    if xs == [] {
      assert xs + [x] == [x] && Total(w, [x][1..]) == 0;
    } else {
      assert (xs + [x])[0] == xs[0] && (xs + [x])[1..] == xs[1..] + [x];
      TotalSnoc(w, xs[1..], x);
    }
  }

  lemma {:induction false} TotalSame<T>(w: T -> int, xs: seq<T>, ys: seq<T>)
    requires |xs| == |ys| && forall k :: 0 <= k < |xs| ==> w(xs[k]) == w(ys[k])
    ensures Total(w, xs) == Total(w, ys)
  {
    if xs == [] {
    } else {
      assert w(xs[0]) == w(ys[0]);
      forall k | 0 <= k < |xs[1..]| ensures w(xs[1..][k]) == w(ys[1..][k]) {
        assert w(xs[k + 1]) == w(ys[k + 1]);
      }
      TotalSame(w, xs[1..], ys[1..]);
    }
  }

  lemma {:induction false} TotalThree<T>(w: T -> int, xs: seq<T>, i: nat, j: nat, k: nat)
    requires NonNegative(w, xs) && i < j < k < |xs|
    ensures w(xs[i]) + w(xs[j]) + w(xs[k]) <= Total(w, xs)
  {
    assert NonNegative(w, xs[1..]) && w(xs[0]) >= 0;
    if i == 0 {
      assert xs[j] == xs[1..][j - 1] && xs[k] == xs[1..][k - 1];
      TotalTwo(w, xs[1..], j - 1, k - 1);
    } else {
      TotalThree(w, xs[1..], i - 1, j - 1, k - 1);
    }
  }

  lemma {:induction false} TotalSingle<T>(w: T -> int, xs: seq<T>, i: nat)
    requires i < |xs| && forall k :: 0 <= k < |xs| && k != i ==> w(xs[k]) == 0
    ensures Total(w, xs) == w(xs[i])
  {
    if i == 0 {
      TotalZero(w, xs[1..]);
    } else {
      TotalSingle(w, xs[1..], i - 1);
    }
  }

  lemma {:induction false} Positive<T>(w: T -> int, xs: seq<T>) returns (i: nat)
    requires Total(w, xs) > 0
    ensures i < |xs| && w(xs[i]) > 0
  {
    if w(xs[0]) > 0 {
      i := 0;
    } else {
      i := Positive(w, xs[1..]);
      i := i + 1;
    }
  }
}
