// mq_send and mq_receive run by any number of processes that share one queue segment:
// a step relation whose steps are the semaphore operations and the accesses to the queue.
module QueueProtocol {
  import opened Messages
  import opened SequentialQueue
  import opened Runs
  import Slots

  // Which of three repairs are in force. The code as written is Config(false, false, false).
  //   tokenFirst   the slot or message semaphore is waited on before the mutex
  //   countInside  a sender raises the count before it releases the mutex
  //   fullShift    a sender moves all the messages behind the insertion point
  datatype Config = Config(tokenFirst: bool, countInside: bool, fullShift: bool)

  // A sender has a list of messages left to send, the first one being under way; a receiver
  // has a number of receives left. pc counts the steps already made in the current call.
  datatype Proc =
    | Sender(todo: seq<Msg>, pc: nat)
    | Receiver(left: nat, pc: nat, got: seq<Msg>)

  // The shared segment, its three semaphores, the processes, and the history of stores and takes.
  datatype State = State(
    slots: seq<Msg>, cur: int, mutex: nat, free: nat, avail: nat,
    procs: seq<Proc>, log: seq<Event>)

  datatype Action = Lock | TakeToken | GiveToken | Store | Count | Take | Shift | Unlock

  predicate Finished(p: Proc) {
    match p
    case Sender(todo, _) => todo == []
    case Receiver(left, _, _) => left == 0
  }

  // The order of the six steps of a call.
  function ActionAt(c: Config, p: Proc): Action {
    match p.pc
    case 0 => if c.tokenFirst then TakeToken else Lock
    case 1 => if c.tokenFirst then Lock else TakeToken
    case 2 => GiveToken
    case 3 => if p.Sender? then Store else Take
    case 4 => if p.Receiver? then Shift else if c.countInside then Count else Unlock
    case _ => if p.Receiver? || c.countInside then Unlock else Count
  }

  predicate Enabled(c: Config, s: State, i: nat) {
    && i < |s.procs|
    && !Finished(s.procs[i])
    && match ActionAt(c, s.procs[i])
       case Lock => s.mutex > 0
       case TakeToken => if s.procs[i].Sender? then s.free > 0 else s.avail > 0
       case _ => true
  }

  // The process after its step; a receiver that takes is handed the first message.
  function NextProc(p: Proc, first: Msg): Proc
    requires !Finished(p)
  {
    match p
    case Sender(todo, pc) => if pc < 5 then Sender(todo, pc + 1) else Sender(todo[1..], 0)
    case Receiver(left, pc, got) =>
      if pc == 3 then Receiver(left, 4, got + [first])
      else if pc < 5 then Receiver(left, pc + 1, got)
      else Receiver(left - 1, 0, got)
  }

  // What a step of process i adds to the history.
  function Logged(p: Proc, i: nat, first: Msg): seq<Event>
    requires !Finished(p)
  {
    match p
    case Sender(todo, pc) => if pc == 3 then [Put(i, todo[0])] else []
    case Receiver(_, pc, _) => if pc == 3 then [Got(i, first)] else []
  }

  // One step of process i.
  function Exec(c: Config, s: State, i: nat): State
    requires Enabled(c, s, i) && s.slots != []
  {
    var p := s.procs[i];
    var t := s.(procs := s.procs[i := NextProc(p, s.slots[0])], log := s.log + Logged(p, i, s.slots[0]));
    match ActionAt(c, p)
    case Lock => t.(mutex := s.mutex - 1)
    case TakeToken => if p.Sender? then t.(free := s.free - 1) else t.(avail := s.avail - 1)
    case GiveToken => if p.Sender? then t.(avail := s.avail + 1) else t.(free := s.free + 1)
    case Store => if p.Sender? then t.(slots := Slots.Store(c.fullShift, s.slots, s.cur, p.todo[0])) else t
    case Count => t.(cur := s.cur + 1)
    case Take => t.(cur := s.cur - 1)
    case Shift => t.(slots := Slots.Shift(s.slots, s.cur))
    case Unlock => t.(mutex := s.mutex + 1)
  }

  // Whether the step moves messages within the queue array only.
  predicate InRange(c: Config, s: State, i: nat)
    requires i < |s.procs|
  {
    match ActionAt(c, s.procs[i])
    case Store => s.cur < |s.slots|
    case Shift => 0 <= s.cur < |s.slots|
    case _ => true
  }

  // A move out of range leaves the array with any contents.
  ghost predicate Next(c: Config, s: State, i: nat, t: State) {
    && s.slots != []
    && Enabled(c, s, i)
    && |t.slots| == |s.slots|
    && t == Exec(c, s, i).(slots := t.slots)
    && (InRange(c, s, i) ==> t == Exec(c, s, i))
  }

  type QueueRun = Run<State, nat>

  ghost predicate IsRun(c: Config, r: QueueRun) {
    match r
    case Start(_) => true
    case Then(before, who, last) => IsRun(c, before) && Next(c, before.last, who, last)
  }

  // mq_open: one mutex token, a slot token per array slot, no message. The array holds anything.
  ghost predicate Initial(s: State) {
    && s.slots != [] && s.cur == 0 && s.mutex == 1 && s.free == |s.slots| && s.avail == 0 && s.log == []
    && forall i :: 0 <= i < |s.procs| ==>
         s.procs[i].pc == 0 && (s.procs[i].Receiver? ==> s.procs[i].got == [])
  }

  ghost predicate AllFinished(s: State) {
    forall i :: 0 <= i < |s.procs| ==> Finished(s.procs[i])
  }

  ghost predicate Stuck(c: Config, s: State) {
    forall i: nat :: !Enabled(c, s, i)
  }

  // No call is under way.
  ghost predicate Quiescent(s: State) {
    forall i :: 0 <= i < |s.procs| ==> s.procs[i].pc == 0
  }

  ghost predicate WellFormed(s: State) {
    && s.slots != []
    && forall i :: 0 <= i < |s.procs| ==> ProcOk(s.procs[i])
  }

  predicate ProcOk(p: Proc) {
    p.pc <= 5 && (Finished(p) ==> p.pc == 0)
  }

  lemma {:induction false} AppendRun(c: Config, a: QueueRun, b: QueueRun)
    requires IsRun(c, a) && IsRun(c, b) && First(b) == a.last
    ensures IsRun(c, Append(a, b))
    ensures First(Append(a, b)) == First(a) && Append(a, b).last == b.last
    ensures Steps(Append(a, b)) == Steps(a) + Steps(b)
  {
    if b.Start? {
    } else {
      AppendRun(c, a, b.before);
    }
  }
}
