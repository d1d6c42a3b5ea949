// The one-slot hand-off: a child reads words into a shared buffer, the father turns them into
// capitals in place and prints them, and two semaphores pass the buffer to and fro.
module HandOff {
  import opened Runs

  const SIZE := 100

  function Up(c: char): char {
    if 'a' <= c <= 'z' then (c as int - 32) as char else c
  }

  function Upper(s: string): (r: string)
    ensures |r| == |s| && forall k :: 0 <= k < |s| ==> r[k] == Up(s[k])
  {
    seq(|s|, k requires 0 <= k < |s| => Up(s[k]))
  }

  // The father's loop.
  method Capitalize(a: array<char>)
    modifies a
    ensures a[..] == Upper(old(a[..]))
  {
    for i := 0 to a.Length
      invariant forall k :: 0 <= k < i ==> a[k] == Up(old(a[k]))
      invariant forall k :: i <= k < a.Length ==> a[k] == old(a[k])
    {
      if 'a' <= a[i] <= 'z' {
        a[i] := (a[i] as int - 32) as char;
      }
    }
  }

  // Every lowercase letter becomes the capital of the same place in the alphabet, and nothing else
  // changes; so none is left, and doing it again changes nothing.
  lemma UpperExactly(s: string)
    ensures Upper(Upper(s)) == Upper(s)
    ensures forall k :: 0 <= k < |s| ==> (Upper(s)[k] != s[k] <==> 'a' <= s[k] <= 'z')
    ensures forall k :: 0 <= k < |s| && 'a' <= s[k] <= 'z' ==>
              'A' <= Upper(s)[k] <= 'Z' && Upper(s)[k] as int - 'A' as int == s[k] as int - 'a' as int
    ensures forall k :: 0 <= k < |s| ==> !('a' <= Upper(s)[k] <= 'z')
  {
    forall k | 0 <= k < |s| ensures Up(Up(s[k])) == Up(s[k]) && (Up(s[k]) != s[k] <==> 'a' <= s[k] <= 'z') {
    }
  }

  // What printf prints of a buffer.
  function Text(buf: seq<char>): string {
    if buf == [] || buf[0] == '\0' then "" else [buf[0]] + Text(buf[1..])
  }

  // The child's steps, by pc: 0 wait, 1 scanf, 2 post. The father's: 0 wait, 1 the loop at
  // index i, 2 printf, 3 post.
  datatype State = State(
    sf: nat, sp: nat, buf: seq<char>, child: nat, father: nat, i: nat,
    read: nat, log: seq<string>)

  datatype Who = Child | Father

  type HandOffRun = Run<State, Who>

  // Words that fit into the buffer with their end mark.
  ghost predicate Fit(words: nat -> string) {
    forall k :: |words(k)| < SIZE && '\0' !in words(k)
  }

  predicate Enabled(s: State, w: Who) {
    match w
    case Child => s.child == 0 ==> s.sf > 0
    case Father => s.father == 0 ==> s.sp > 0
  }

  function ChildExec(words: nat -> string, s: State): State
    requires Enabled(s, Child) && |s.buf| == SIZE && |words(s.read)| < SIZE
  {
    match s.child
    case 0 => s.(sf := s.sf - 1, child := 1)
    case 1 =>
      var w := words(s.read);
      s.(buf := w + ['\0'] + s.buf[|w| + 1..], read := s.read + 1, child := 2)
    case _ => s.(sp := s.sp + 1, child := 0)
  }

  function FatherExec(s: State): State
    requires Enabled(s, Father) && |s.buf| == SIZE
  {
    match s.father
    case 0 => s.(sp := s.sp - 1, father := 1, i := 0)
    case 1 =>
      if s.i < SIZE then
        s.(buf := s.buf[s.i := Up(s.buf[s.i])], i := s.i + 1, father := if s.i + 1 == SIZE then 2 else 1)
      else s.(father := 2)
    case 2 => s.(log := s.log + [Text(s.buf)], father := 3)
    case _ => s.(sf := s.sf + 1, father := 0)
  }

  ghost predicate Next(words: nat -> string, s: State, w: Who, t: State) {
    && Enabled(s, w) && |s.buf| == SIZE && |words(s.read)| < SIZE
    && t == if w.Child? then ChildExec(words, s) else FatherExec(s)
  }

  ghost predicate IsRun(words: nat -> string, r: HandOffRun) {
    match r
    case Start(_) => true
    case Then(before, w, last) => IsRun(words, before) && Next(words, before.last, w, last)
  }

  ghost predicate Initial(s: State) {
    s.sf == 1 && s.sp == 0 && |s.buf| == SIZE && s.child == 0 && s.father == 0 && s.read == 0 && s.log == []
  }

  // Whether the buffer holds a word that has not been printed.
  predicate Pending(s: State) {
    s.child == 2 || s.sp > 0 || s.father in {1, 2}
  }

  // How many of the buffer's characters the father has been over.
  function Done(s: State): nat {
    match s.father case 0 => 0 case 1 => s.i case _ => SIZE
  }

  // The buffer starts with the word w and its end mark, the first d characters in capitals.
  ghost predicate Holds(buf: seq<char>, w: string, d: nat) {
    && |buf| == SIZE && |w| < SIZE
    && (forall k :: 0 <= k < |w| ==> buf[k] == if k < d then Up(w[k]) else w[k])
    && buf[|w|] == '\0'
  }

  ghost predicate Inv(words: nat -> string, s: State) {
    && |s.buf| == SIZE && s.child <= 2 && s.father <= 3 && (s.father == 1 ==> s.i < SIZE)
    && s.sf + s.sp + (if s.child > 0 then 1 else 0) + (if s.father > 0 then 1 else 0) == 1
    && s.read == |s.log| + (if Pending(s) then 1 else 0)
    && (Pending(s) ==> Holds(s.buf, words(s.read - 1), Done(s)))
    && forall k :: 0 <= k < |s.log| ==> s.log[k] == Upper(words(k))
  }

  lemma {:induction false} TextOf(buf: seq<char>, w: string)
    requires |w| < |buf| && buf[|w|] == '\0' && '\0' !in w
    requires forall k :: 0 <= k < |w| ==> buf[k] == w[k]
    ensures Text(buf) == w
  {
    if w == "" {
    } else {
      assert buf[0] == w[0] && w[0] in w;
      TextOf(buf[1..], w[1..]);
    }
  }

  lemma PrintsUpper(buf: seq<char>, w: string)
    requires Holds(buf, w, SIZE) && '\0' !in w
    ensures Text(buf) == Upper(w)
  {
    forall k | 0 <= k < |w| ensures Up(w[k]) != '\0' {
      assert w[k] in w;
    }
    TextOf(buf, Upper(w));
  }

  lemma ChildStep(words: nat -> string, s: State, t: State)
    requires Fit(words) && Inv(words, s) && Next(words, s, Child, t)
    ensures Inv(words, t)
  {
  }

  lemma FatherStep(words: nat -> string, s: State, t: State)
    requires Fit(words) && Inv(words, s) && Next(words, s, Father, t)
    ensures Inv(words, t)
  {
    if s.father == 2 {
      PrintsUpper(s.buf, words(s.read - 1));
    }
  }

  // The place in the cycle of wait, scanf, post, wait, SIZE turns of the loop, printf and post.
  function Place(s: State): nat {
    if s.father == 3 then SIZE + 5
    else if s.father == 2 then SIZE + 4
    else if s.father == 1 then 4 + s.i
    else if s.sp > 0 then 3
    else s.child
  }

  // The printed log is the words read, in order and in capitals, and behind by at most one;
  // one of the two can always go on; and each word takes SIZE + 6 steps.
  lemma {:induction false} LogIsUpper(words: nat -> string, r: HandOffRun)
    requires Fit(words) && IsRun(words, r) && Initial(First(r))
    ensures Inv(words, r.last)
    ensures forall k :: 0 <= k < |r.last.log| ==> r.last.log[k] == Upper(words(k))
    ensures |r.last.log| <= r.last.read <= |r.last.log| + 1
    ensures Enabled(r.last, Child) != Enabled(r.last, Father)
    ensures Steps(r) == (SIZE + 6) * (|r.last.log| - (if r.last.father == 3 then 1 else 0)) + Place(r.last)
  {
    if r.Start? {
    } else {
      LogIsUpper(words, r.before);
      if r.who.Child? {
        ChildStep(words, r.before.last, r.last);
      } else {
        FatherStep(words, r.before.last, r.last);
      }
    }
  }

  // So after any number of steps at least one word in SIZE + 6 steps has been printed.
  lemma LogGrows(words: nat -> string, r: HandOffRun)
    requires Fit(words) && IsRun(words, r) && Initial(First(r))
    ensures |r.last.log| >= Steps(r) / (SIZE + 6)
  {
    LogIsUpper(words, r);
  }

  // And it goes on for ever: there is a run of any length.
  lemma {:induction false} RunOfLength(words: nat -> string, s: State, k: nat) returns (r: HandOffRun)
    requires Fit(words) && Initial(s)
    ensures IsRun(words, r) && First(r) == s && Steps(r) == k
  {
    if k == 0 {
      r := Start(s);
    } else {
      r := RunOfLength(words, s, k - 1);
      LogIsUpper(words, r);
      if Enabled(r.last, Child) {
        r := Then(r, Child, ChildExec(words, r.last));
      } else {
        r := Then(r, Father, FatherExec(r.last));
      }
    }
  }
}
