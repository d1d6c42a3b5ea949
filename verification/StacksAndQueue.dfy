// The stack and the queue over the list, the stack over an array, and what a program that
// uses them sees.
module StacksAndQueue {
  import opened LinkedList
  import opened Options

  datatype Op<T> = Push(element: T) | Pop

  // What a caller sees of one operation: the element popped, and the size afterwards.
  datatype Seen<T> = Seen(popped: Option<T>, size: int)

  // No pop of an empty stack, which the list stack cannot survive.
  predicate PopsOk<T>(depth: nat, ops: seq<Op<T>>)
    decreases ops
  {
    ops == [] ||
    match ops[0]
    case Push(_) => PopsOk(depth + 1, ops[1..])
    case Pop => depth > 0 && PopsOk(depth - 1, ops[1..])
  }

  // No push onto a full stack.
  predicate Fits<T>(capacity: nat, depth: nat, ops: seq<Op<T>>)
    decreases ops
  {
    ops == [] ||
    match ops[0]
    case Push(_) => depth < capacity && Fits(capacity, depth + 1, ops[1..])
    case Pop => depth > 0 && Fits(capacity, depth - 1, ops[1..])
  }

  // How many more elements there are after the operations.
  function Balance<T>(ops: seq<Op<T>>): int {
    if ops == [] then 0 else (if ops[0].Push? then 1 else -1) + Balance(ops[1..])
  }

  // In terms of all the sizes on the way: none is negative, and none exceeds the capacity.
  lemma {:induction false} PopsOkExactly<T>(depth: nat, ops: seq<Op<T>>)
    ensures PopsOk(depth, ops) <==> forall k :: 0 <= k <= |ops| ==> depth + Balance(ops[..k]) >= 0
    decreases ops
  {
    if ops == [] {
    } else {
      var d := depth + (if ops[0].Push? then 1 else -1);
      FirstThen(ops);
      if d >= 0 {
        PopsOkExactly(d, ops[1..]);
        if PopsOk(depth, ops) {
          forall k | 0 <= k <= |ops| ensures depth + Balance(ops[..k]) >= 0 {
            if k > 0 { assert d + Balance(ops[1..][..k - 1]) >= 0; }
          }
        } else {
          var k :| 0 <= k <= |ops[1..]| && d + Balance(ops[1..][..k]) < 0;
          assert depth + Balance(ops[..k + 1]) < 0;
        }
      } else {
        assert depth + Balance(ops[..1]) == d + Balance(ops[1..][..0]);
      }
    }
  }

  lemma FirstThen<T>(ops: seq<Op<T>>)
    requires ops != []
    ensures forall k :: 0 < k <= |ops| ==>
              Balance(ops[..k]) == (if ops[0].Push? then 1 else -1) + Balance(ops[1..][..k - 1])
  {
    forall k | 0 < k <= |ops|
      ensures Balance(ops[..k]) == (if ops[0].Push? then 1 else -1) + Balance(ops[1..][..k - 1])
    {
      assert ops[..k][1..] == ops[1..][..k - 1];
    }
  }

  // One operation of a stack without bound, its top at the front of s.
  function ListStep<T>(s: seq<T>, op: Op<T>): (Seen<T>, seq<T>)
    requires op.Pop? ==> s != []
  {
    match op
    case Push(x) => (Seen(None, |s| + 1), [x] + s)
    case Pop => (Seen(Some(s[0]), |s| - 1), s[1..])
  }

  // One operation of the array stack, its top at the end of s: a push on a full one is refused,
  // and a pop of an empty one yields nothing.
  function ArrayStep<T>(capacity: nat, s: seq<T>, op: Op<T>): (Seen<T>, seq<T>) {
    match op
    case Push(x) => if |s| >= capacity then (Seen(None, |s|), s) else (Seen(None, |s| + 1), s + [x])
    case Pop => if s == [] then (Seen(None, 0), s) else (Seen(Some(s[|s| - 1]), |s| - 1), s[..|s| - 1])
  }

  function ListRun<T>(s: seq<T>, ops: seq<Op<T>>): seq<Seen<T>>
    requires PopsOk(|s|, ops)
    decreases ops
  {
    if ops == [] then []
    else [ListStep(s, ops[0]).0] + ListRun(ListStep(s, ops[0]).1, ops[1..])
  }

  function ArrayRun<T>(capacity: nat, s: seq<T>, ops: seq<Op<T>>): seq<Seen<T>>
    decreases ops
  {
    if ops == [] then []
    else [ArrayStep(capacity, s, ops[0]).0] + ArrayRun(capacity, ArrayStep(capacity, s, ops[0]).1, ops[1..])
  }

  // What the stacks hold in the end.
  function ListEnd<T>(s: seq<T>, ops: seq<Op<T>>): seq<T>
    requires PopsOk(|s|, ops)
    decreases ops
  {
    if ops == [] then s else ListEnd(ListStep(s, ops[0]).1, ops[1..])
  }

  function ArrayEnd<T>(capacity: nat, s: seq<T>, ops: seq<Op<T>>): seq<T>
    decreases ops
  {
    if ops == [] then s else ArrayEnd(capacity, ArrayStep(capacity, s, ops[0]).1, ops[1..])
  }

  // What is seen of an operation is what it does to what the ones before it have left.
  lemma {:induction false} ArrayRunAt<T>(capacity: nat, s: seq<T>, ops: seq<Op<T>>, op: Op<T>)
    ensures ArrayRun(capacity, s, ops + [op]) ==
            ArrayRun(capacity, s, ops) + [ArrayStep(capacity, ArrayEnd(capacity, s, ops), op).0]
    ensures ArrayEnd(capacity, s, ops + [op]) == ArrayStep(capacity, ArrayEnd(capacity, s, ops), op).1
    decreases ops
  {
    if ops == [] {
      assert ops + [op] == [op] && [op][1..] == [];
    } else {
      assert (ops + [op])[0] == ops[0] && (ops + [op])[1..] == ops[1..] + [op];
      ArrayRunAt(capacity, ArrayStep(capacity, s, ops[0]).1, ops[1..], op);
    }
  }

  lemma {:induction false} ListRunAt<T>(s: seq<T>, ops: seq<Op<T>>, op: Op<T>)
    requires PopsOk(|s|, ops + [op])
    ensures PopsOk(|s|, ops) && (op.Pop? ==> ListEnd(s, ops) != [])
    ensures ListRun(s, ops + [op]) == ListRun(s, ops) + [ListStep(ListEnd(s, ops), op).0]
    ensures ListEnd(s, ops + [op]) == ListStep(ListEnd(s, ops), op).1
    decreases ops
  {
    if ops == [] {
      assert ops + [op] == [op] && [op][1..] == [];
    } else {
      assert (ops + [op])[0] == ops[0] && (ops + [op])[1..] == ops[1..] + [op];
      ListRunAt(ListStep(s, ops[0]).1, ops[1..], op);
    }
  }

  function Reverse<T>(s: seq<T>): (r: seq<T>)
    ensures |r| == |s|
  {
    if s == [] then [] else Reverse(s[1..]) + [s[0]]
  }

  lemma {:induction false} ReverseLast<T>(s: seq<T>)
    requires s != []
    ensures Reverse(s) == [s[|s| - 1]] + Reverse(s[..|s| - 1])
  {
    if |s| == 1 {
    } else {
      ReverseLast(s[1..]);
      assert s[1..][..|s| - 2] == s[..|s| - 1][1..];
    }
  }

  // One operation that fits looks the same in both stacks.
  lemma SameStep<T>(capacity: nat, s: seq<T>, op: Op<T>)
    requires op.Pop? ==> s != []
    requires |s| <= capacity
    ensures ListStep(s, op).0 == ArrayStep(capacity, Reverse(s), op).0 <==> (op.Push? ==> |s| < capacity)
    ensures (op.Push? ==> |s| < capacity) ==>
              Reverse(ListStep(s, op).1) == ArrayStep(capacity, Reverse(s), op).1 && |ListStep(s, op).1| <= capacity
  {
    match op
    case Push(x) => assert ([x] + s)[1..] == s;
    case Pop => assert Reverse(s)[..|s| - 1] == Reverse(s[1..]);
  }

  lemma SameCons<T>(x: T, a: seq<T>, y: T, b: seq<T>)
    ensures [x] + a == [y] + b <==> x == y && a == b
  {
    assert ([x] + a)[0] == x && ([x] + a)[1..] == a;
    assert ([y] + b)[0] == y && ([y] + b)[1..] == b;
  }

  // Two stacks, one interface: a program that never pops an empty stack sees the same pops and
  // sizes from both exactly when it never pushes onto a full array.
  lemma {:induction false} SameStackExactly<T>(capacity: nat, s: seq<T>, ops: seq<Op<T>>)
    requires PopsOk(|s|, ops) && |s| <= capacity
    ensures ListRun(s, ops) == ArrayRun(capacity, Reverse(s), ops) <==> Fits(capacity, |s|, ops)
    decreases ops
  {
    if ops == [] {
    } else {
      SameStep(capacity, s, ops[0]);
      var a, b := ListStep(s, ops[0]), ArrayStep(capacity, Reverse(s), ops[0]);
      SameCons(a.0, ListRun(a.1, ops[1..]), b.0, ArrayRun(capacity, b.1, ops[1..]));
      if ops[0].Push? ==> |s| < capacity {
        SameStackExactly(capacity, a.1, ops[1..]);
      }
    }
  }

  method DoList<T>(l: List<T>, op: Op<T>) returns (seen: Seen<T>)
    requires l.Valid() && (op.Pop? ==> l.contents != [])
    modifies l, l.repr
    ensures l.Valid() && fresh(l.repr - old(l.repr))
    ensures (seen, l.contents) == ListStep(old(l.contents), op)
  {
    match op {
      case Push(x) =>
        l.InsertHead(x);
        var n := l.Size();
        seen := Seen(None, n);
      case Pop =>
        var x := l.ExtractHead();
        var n := l.Size();
        seen := Seen(Some(x), n);
    }
  }

  // stack_list driven by a program.
  method RunListStack<T>(l: List<T>, ops: seq<Op<T>>) returns (seen: seq<Seen<T>>)
    requires l.Valid() && PopsOk(|l.contents|, ops)
    modifies l, l.repr
    ensures l.Valid()
    ensures seen == ListRun(old(l.contents), ops) && l.contents == ListEnd(old(l.contents), ops)
  {
    seen := [];
    for k := 0 to |ops|
      invariant l.Valid() && fresh(l.repr - old(l.repr)) && PopsOk(|l.contents|, ops[k..])
      invariant seen + ListRun(l.contents, ops[k..]) == ListRun(old(l.contents), ops)
      invariant ListEnd(l.contents, ops[k..]) == ListEnd(old(l.contents), ops)
    {
      assert ops[k..][1..] == ops[k + 1..];
      var x := DoList(l, ops[k]);
      ghost var rest := ListRun(l.contents, ops[k + 1..]);
      assert (seen + [x]) + rest == seen + ([x] + rest);
      seen := seen + [x];
    }
  }

  class ArrayStack<T(0)> {
    const contents: array<T>
    var top: nat

    ghost predicate Valid()
      reads this
    {
      top <= contents.Length
    }

    ghost function Contents(): seq<T>
      reads this, contents
      requires Valid()
    {
      contents[..top]
    }

    constructor (capacity: nat)
      ensures Valid() && Contents() == [] && contents.Length == capacity && fresh(contents)
    {
      contents := new T[capacity];
      top := 0;
    }

    // -1 when full, the new size otherwise.
    method Push(element: T) returns (r: int)
      requires Valid()
      modifies this, contents
      ensures Valid()
      ensures old(top) == contents.Length ==> r == -1 && Contents() == old(Contents())
      ensures old(top) < contents.Length ==> r == top && Contents() == old(Contents()) + [element]
    {
      if top == contents.Length { return -1; }
      contents[top] := element;
      top := top + 1;
      return top;
    }

    method Pop() returns (r: Option<T>)
      requires Valid()
      modifies this
      ensures Valid()
      ensures old(top) == 0 ==> r == None && Contents() == []
      ensures old(top) > 0 ==> r == Some(old(Contents())[old(top) - 1]) && Contents() == old(Contents())[..old(top) - 1]
    {
      if top == 0 { return None; }
      top := top - 1;
      return Some(contents[top]);
    }

    method Size() returns (n: nat)
      requires Valid()
      ensures n == |Contents()|
    {
      n := top;
    }
  }

  method DoArray<T(0)>(s: ArrayStack<T>, op: Op<T>) returns (seen: Seen<T>)
    requires s.Valid()
    modifies s, s.contents
    ensures s.Valid()
    ensures (seen, s.Contents()) == ArrayStep(s.contents.Length, old(s.Contents()), op)
  {
    match op {
      case Push(x) =>
        var r := s.Push(x);
        var n := s.Size();
        seen := Seen(None, n);
      case Pop =>
        var x := s.Pop();
        var n := s.Size();
        seen := Seen(x, n);
    }
  }

  // stack_array driven by a program.
  method RunArrayStack<T(0)>(s: ArrayStack<T>, ops: seq<Op<T>>) returns (seen: seq<Seen<T>>)
    requires s.Valid()
    modifies s, s.contents
    ensures s.Valid()
    ensures seen == ArrayRun(s.contents.Length, old(s.Contents()), ops)
    ensures s.Contents() == ArrayEnd(s.contents.Length, old(s.Contents()), ops)
  {
    seen := [];
    var c := s.contents.Length;
    for k := 0 to |ops|
      invariant s.Valid()
      invariant seen + ArrayRun(c, s.Contents(), ops[k..]) == ArrayRun(c, old(s.Contents()), ops)
      invariant ArrayEnd(c, s.Contents(), ops[k..]) == ArrayEnd(c, old(s.Contents()), ops)
    {
      assert ops[k..][1..] == ops[k + 1..];
      var x := DoArray(s, ops[k]);
      ghost var rest := ArrayRun(c, s.Contents(), ops[k + 1..]);
      assert (seen + [x]) + rest == seen + ([x] + rest);
      seen := seen + [x];
    }
  }

  function Pushed<T>(ops: seq<Op<T>>): seq<T> {
    if ops == [] then []
    else (if ops[0].Push? then [ops[0].element] else []) + Pushed(ops[1..])
  }

  lemma {:induction false} PushedAppend<T>(ops: seq<Op<T>>, op: Op<T>)
    ensures Pushed(ops + [op]) == Pushed(ops) + (if op.Push? then [op.element] else [])
  {
    if ops == [] {
      assert ops + [op] == [op];
      assert Pushed([op][1..]) == [];
    } else {
      var rest := ops[1..];
      assert (ops + [op])[1..] == rest + [op] && (ops + [op])[0] == ops[0];
      PushedAppend(rest, op);
    }
  }

  // One operation of fifo_list, Push standing for queue and Pop for dequeue.
  method DoQueue<T>(l: List<T>, op: Op<T>, ghost went: seq<T>, ghost came: seq<T>) returns (out: seq<T>)
    requires l.Valid() && (op.Pop? ==> l.contents != [])
    requires went + Reverse(l.contents) == came
    modifies l, l.repr
    ensures l.Valid() && fresh(l.repr - old(l.repr))
    ensures |l.contents| == |old(l.contents)| + (if op.Push? then 1 else -1)
    ensures (went + out) + Reverse(l.contents) == came + (if op.Push? then [op.element] else [])
  {
    ghost var was := l.contents;
    match op {
      case Push(x) =>
        l.InsertHead(x);
        assert ([x] + was)[1..] == was;
        assert Reverse(l.contents) == Reverse(was) + [x];
        out := [];
      case Pop =>
        ReverseLast(was);
        var x := l.ExtractTail();
        out := [x];
    }
  }

  // fifo_list driven by a program: what has left, followed by what is still there from the
  // oldest on, is what was there followed by what came.
  method RunQueue<T>(l: List<T>, ops: seq<Op<T>>) returns (out: seq<T>)
    requires l.Valid() && PopsOk(|l.contents|, ops)
    modifies l, l.repr
    ensures l.Valid()
    ensures out + Reverse(l.contents) == Reverse(old(l.contents)) + Pushed(ops)
    ensures |l.contents| == |old(l.contents)| + Balance(ops)
  {
    out := [];
    for k := 0 to |ops|
      invariant l.Valid() && fresh(l.repr - old(l.repr)) && PopsOk(|l.contents|, ops[k..])
      invariant out + Reverse(l.contents) == Reverse(old(l.contents)) + Pushed(ops[..k])
      invariant |l.contents| + Balance(ops[k..]) == |old(l.contents)| + Balance(ops)
    {
      assert ops[..k + 1] == ops[..k] + [ops[k]] && ops[k..][1..] == ops[k + 1..];
      PushedAppend(ops[..k], ops[k]);
      var x := DoQueue(l, ops[k], out, out + Reverse(l.contents));
      out := out + x;
    }
    assert ops[..|ops|] == ops;
  }
}
