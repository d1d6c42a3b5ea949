// Messages and the order in which a POSIX message queue keeps them: descending
// priority, and arrival order among messages of equal priority.
module Messages {

  datatype Msg = Msg(data: string, prio: nat, length: nat)

  // Descending priority.
  ghost predicate Sorted(q: seq<Msg>) {
    forall i, j :: 0 <= i < j < |q| ==> q[i].prio >= q[j].prio
  }

  // The messages of one priority, in the order in which they occur.
  function OfPrio(q: seq<Msg>, p: nat): seq<Msg> {
    if q == [] then []
    else if q[0].prio == p then [q[0]] + OfPrio(q[1..], p)
    else OfPrio(q[1..], p)
  }

  // The first position whose message has a lower priority, or the end.
  function InsertionPoint(q: seq<Msg>, p: nat): (i: nat)
    ensures i <= |q|
    ensures forall k :: 0 <= k < i ==> q[k].prio >= p
    ensures i < |q| ==> q[i].prio < p
  {
    if q == [] || q[0].prio < p then 0 else 1 + InsertionPoint(q[1..], p)
  }

  function Insert(q: seq<Msg>, m: Msg): seq<Msg> {
    var i := InsertionPoint(q, m.prio);
    q[..i] + [m] + q[i..]
  }

  // s is the stable descending sort of input: sorted, and every priority class
  // holds the same messages in the same order.
  ghost predicate IsStableSort(s: seq<Msg>, input: seq<Msg>) {
    Sorted(s) && forall p: nat :: OfPrio(s, p) == OfPrio(input, p)
  }

  lemma {:induction false} OfPrioConcat(a: seq<Msg>, b: seq<Msg>, p: nat)
    ensures OfPrio(a + b, p) == OfPrio(a, p) + OfPrio(b, p)
  {
    if a == [] {
      assert a + b == b;
    } else {
      assert (a + b)[1..] == a[1..] + b;
      OfPrioConcat(a[1..], b, p);
    }
  }

  function ClassOf(m: Msg, p: nat): seq<Msg> {
    if m.prio == p then [m] else []
  }

  lemma OfPrioAppend(q: seq<Msg>, m: Msg, p: nat)
    ensures OfPrio(q + [m], p) == OfPrio(q, p) + ClassOf(m, p)
  {
    OfPrioConcat(q, [m], p);
    assert [m][1..] == [];
  }

  lemma OfPrioHead(q: seq<Msg>, p: nat)
    requires q != []
    ensures OfPrio(q, p) == ClassOf(q[0], p) + OfPrio(q[1..], p)
  {
  }

  lemma Assoc<T>(a: seq<T>, b: seq<T>, c: seq<T>)
    ensures a + (b + c) == (a + b) + c
  {
  }

  lemma {:induction false} OfPrioNone(q: seq<Msg>, p: nat)
    requires forall k :: 0 <= k < |q| ==> q[k].prio != p
    ensures OfPrio(q, p) == []
  {
    if q == [] {
    } else {
      OfPrioNone(q[1..], p);
    }
  }

  // What is left behind an insertion point has a lower priority still.
  lemma BehindInsertionPoint(q: seq<Msg>, p: nat)
    requires Sorted(q)
    ensures var i := InsertionPoint(q, p); forall k :: i <= k < |q| ==> q[k].prio < p
  {
    var i := InsertionPoint(q, p);
    forall k | i <= k < |q| ensures q[k].prio < p {
      assert q[i].prio >= q[k].prio;
    }
  }

  // The position found by a search loop is the insertion point.
  lemma {:induction false} InsertionPointUnique(q: seq<Msg>, p: nat, i: nat)
    requires i <= |q|
    requires forall k :: 0 <= k < i ==> q[k].prio >= p
    requires i < |q| ==> q[i].prio < p
    ensures i == InsertionPoint(q, p)
  {
    if i == 0 {
    } else {
      assert q[0].prio >= p;
      InsertionPointUnique(q[1..], p, i - 1);
    }
  }

  lemma InsertKeepsSorted(q: seq<Msg>, m: Msg)
    requires Sorted(q)
    ensures Sorted(Insert(q, m))
  {
    BehindInsertionPoint(q, m.prio);
  }

  lemma OfPrioAround(a: seq<Msg>, m: Msg, b: seq<Msg>, p: nat)
    ensures OfPrio(a + [m] + b, p) == OfPrio(a, p) + ClassOf(m, p) + OfPrio(b, p)
  {
    OfPrioConcat(a + [m], b, p);
    OfPrioAppend(a, m, p);
  }

  lemma NoneBehind(q: seq<Msg>, p: nat)
    requires Sorted(q)
    ensures OfPrio(q[InsertionPoint(q, p)..], p) == []
  {
    BehindInsertionPoint(q, p);
    OfPrioNone(q[InsertionPoint(q, p)..], p);
  }

  // Insertion appends to the message's own priority class and leaves the others alone.
  lemma InsertIsStable(q: seq<Msg>, m: Msg, p: nat)
    requires Sorted(q)
    ensures OfPrio(Insert(q, m), p) == OfPrio(q, p) + ClassOf(m, p)
  {
    var i := InsertionPoint(q, m.prio);
    var a, b := q[..i], q[i..];
    assert q == a + b;
    assert OfPrio(b, m.prio) == [] by { NoneBehind(q, m.prio); }
    OfPrioAround(a, m, b, p);
    OfPrioConcat(a, b, p);
  }

  lemma InsertMultiset(q: seq<Msg>, m: Msg)
    ensures multiset(Insert(q, m)) == multiset(q) + multiset{m}
  {
    var i := InsertionPoint(q, m.prio);
    assert q == q[..i] + q[i..];
  }

  lemma HeadAndRest(q: seq<Msg>)
    requires q != []
    ensures multiset(q) == multiset(q[1..]) + multiset{q[0]}
  {
    assert q == [q[0]] + q[1..];
  }

  // The head of a sorted queue has the highest priority present and comes first in its class.
  lemma HeadIsOldestOfHighest(q: seq<Msg>)
    requires Sorted(q) && q != []
    ensures forall k :: 0 <= k < |q| ==> q[k].prio <= q[0].prio
    ensures OfPrio(q, q[0].prio) == [q[0]] + OfPrio(q[1..], q[0].prio)
  {
    forall k | 0 <= k < |q| ensures q[k].prio <= q[0].prio {
      if k > 0 { assert q[0].prio >= q[k].prio; }
    }
  }

  lemma {:induction false} OfPrioMembers(q: seq<Msg>, p: nat, m: Msg)
    ensures m in OfPrio(q, p) <==> m in q && m.prio == p
  {
    if q == [] {
    } else {
      OfPrioMembers(q[1..], p, m);
      assert q == [q[0]] + q[1..];
    }
  }

  // A sorted sequence is determined by its priority classes, so the stable sort is unique.
  lemma {:induction false} StableSortUnique(a: seq<Msg>, b: seq<Msg>)
    requires Sorted(a) && Sorted(b)
    requires forall p: nat :: OfPrio(a, p) == OfPrio(b, p)
    ensures a == b
  {
    if a == [] {
      if b != [] {
        OfPrioMembers(a, b[0].prio, b[0]);
        OfPrioMembers(b, b[0].prio, b[0]);
      }
    } else {
      var p := a[0].prio;
      assert OfPrio(a, p)[0] == a[0];
      assert OfPrio(b, p) == OfPrio(a, p);
      OfPrioMembers(b, p, a[0]);
      assert b != [];
      var r := b[0].prio;
      assert OfPrio(b, r)[0] == b[0];
      assert OfPrio(a, r) == OfPrio(b, r);
      OfPrioMembers(a, r, b[0]);
      HeadIsOldestOfHighest(a);
      HeadIsOldestOfHighest(b);
      assert p == r && a[0] == b[0];
      forall s: nat ensures OfPrio(a[1..], s) == OfPrio(b[1..], s) {
        assert OfPrio(a, s) == OfPrio(b, s);
        if s == p {
          assert OfPrio(a[1..], s) == OfPrio(a, s)[1..];
          assert OfPrio(b[1..], s) == OfPrio(b, s)[1..];
        }
      }
      StableSortUnique(a[1..], b[1..]);
      assert a == [a[0]] + a[1..] && b == [b[0]] + b[1..];
    }
  }
}
