// What a program of whole-record calls sees of an indexed file: an array of records with a
// cursor, which grows where it is written behind its end.
module RecordPrograms {
  import opened Options
  import opened Records
  import opened IndexedFile

  datatype Op = Goto(offset: int, whence: Whence) | Put(data: seq<Byte>) | Get

  // What a caller sees of one operation.
  datatype Seen = Moved(ok: bool) | Wrote(count: int) | Got(record: Option<seq<Byte>>)

  datatype Table = Table(records: seq<seq<Byte>>, at: nat)

  // The record that a move names.
  function Named(t: Table, offset: int, whence: Whence): int {
    offset + (match whence case Set => 0 case Cur => t.at case End => |t.records|)
  }

  // A record written behind the end leaves records of zeros between.
  function PutAt(records: seq<seq<Byte>>, n: nat, at: nat, record: seq<Byte>): seq<seq<Byte>> {
    if at < |records| then records[at := record]
    else records + seq(at - |records|, _ => Zeros(n)) + [record]
  }

  // Records written one behind the other.
  function PutAll(records: seq<seq<Byte>>, n: nat, at: nat, rs: seq<seq<Byte>>): seq<seq<Byte>>
    decreases rs
  {
    if rs == [] then records else PutAll(PutAt(records, n, at, rs[0]), n, at + 1, rs[1..])
  }

  function Step(n: nat, t: Table, op: Op): (Seen, Table) {
    match op
    case Goto(offset, whence) =>
      var j := Named(t, offset, whence);
      if j < 0 then (Moved(false), t) else (Moved(true), t.(at := j))
    case Put(data) =>
      if |data| < n then (Wrote(-1), t)
      else
        var rs := Split(data, n);
        (Wrote(|data|), Table(PutAll(t.records, n, t.at, rs), t.at + |rs|))
    case Get =>
      if t.at < |t.records| then (Got(Some(t.records[t.at])), t.(at := t.at + 1)) else (Got(None), t)
  }

  // What is written, if it is not too short to be, is whole records, and no move back ends inside
  // the header.
  ghost predicate StepOk(n: nat, t: Table, op: Op) {
    match op
    case Goto(offset, whence) => Named(t, offset, whence) >= 0 || HEADER < n * -Named(t, offset, whence)
    case Put(data) => |data| < n || Whole(data, n)
    case Get => true
  }

  ghost predicate AllOk(n: nat, t: Table, ops: seq<Op>)
    decreases ops
  {
    ops == [] || (StepOk(n, t, ops[0]) && AllOk(n, Step(n, t, ops[0]).1, ops[1..]))
  }

  // No move ends inside the header when records are longer than it.
  lemma {:induction false} LongRecordsOk(n: nat, t: Table, ops: seq<Op>)
    requires n > HEADER && forall i :: 0 <= i < |ops| && ops[i].Put? ==> |ops[i].data| < n || Whole(ops[i].data, n)
    ensures AllOk(n, t, ops)
    decreases ops
  {
    if ops == [] {
    } else {
      if ops[0].Goto? && Named(t, ops[0].offset, ops[0].whence) < 0 {
        BeyondEnd(1, -Named(t, ops[0].offset, ops[0].whence), n);
      }
      LongRecordsOk(n, Step(n, t, ops[0]).1, ops[1..]);
    }
  }

  function Outputs(n: nat, t: Table, ops: seq<Op>): seq<Seen>
    decreases ops
  {
    if ops == [] then [] else [Step(n, t, ops[0]).0] + Outputs(n, Step(n, t, ops[0]).1, ops[1..])
  }

  function Final(n: nat, t: Table, ops: seq<Op>): Table
    decreases ops
  {
    if ops == [] then t else Final(n, Step(n, t, ops[0]).1, ops[1..])
  }

  // What is seen of an operation is what it does to what the ones before it have left.
  lemma {:induction false} OutputsAt(n: nat, t: Table, ops: seq<Op>, op: Op)
    ensures Outputs(n, t, ops + [op]) == Outputs(n, t, ops) + [Step(n, Final(n, t, ops), op).0]
    ensures Final(n, t, ops + [op]) == Step(n, Final(n, t, ops), op).1
    decreases ops
  {
    if ops == [] {
      assert ops + [op] == [op] && [op][1..] == [];
    } else {
      assert (ops + [op])[0] == ops[0] && (ops + [op])[1..] == ops[1..] + [op];
      OutputsAt(n, Step(n, t, ops[0]).1, ops[1..], op);
    }
  }

  lemma {:induction false} ZeroRecord(bytes: seq<Byte>, n: nat, m: nat)
    requires |bytes| >= HEADER && Whole(bytes[HEADER..], n)
    ensures m * n >= 0
    ensures var b := bytes + Zeros(m * n);
            && b[..HEADER] == bytes[..HEADER] && Whole(b[HEADER..], n)
            && Split(b[HEADER..], n) == Split(bytes[HEADER..], n) + seq(m, _ => Zeros(n))
  {
    if m == 0 {
      assert bytes + Zeros(0) == bytes;
    } else {
      Times(m, n);
      ZeroRecord(bytes, n, m - 1);
      var b := bytes + Zeros((m - 1) * n);
      AppendRecord(b, n, Zeros(n));
      assert Overwrite(b, |b|, Zeros(n)) == bytes + Zeros(m * n);
      assert seq(m, _ => Zeros(n)) == seq(m - 1, _ => Zeros(n)) + [Zeros(n)];
    }
  }

  lemma Gap(bytes: seq<Byte>, gap: nat, record: seq<Byte>)
    requires record != []
    ensures Overwrite(bytes, |bytes| + gap, record) == Overwrite(bytes + Zeros(gap), |bytes| + gap, record)
  {
    assert gap == 0 ==> bytes + Zeros(gap) == bytes;
  }

  // A write on a record boundary, wherever it is.
  lemma WriteAt(bytes: seq<Byte>, n: nat, at: nat, record: seq<Byte>)
    requires |bytes| >= HEADER && Whole(bytes[HEADER..], n) && |record| == n
    ensures HEADER + at * n >= 0
    ensures var b := Overwrite(bytes, HEADER + at * n, record);
            && |b| >= HEADER && b[..HEADER] == bytes[..HEADER] && Whole(b[HEADER..], n)
            && Split(b[HEADER..], n) == PutAt(Split(bytes[HEADER..], n), n, at, record)
  {
    var rs := Split(bytes[HEADER..], n);
    if at < |rs| {
      OverwriteRecord(bytes, n, at, record);
    } else {
      var m := at - |rs|;
      ZeroRecord(bytes, n, m);
      assert HEADER + at * n == |bytes| + m * n by {
        assert at * n == |rs| * n + m * n;
      }
      Gap(bytes, m * n, record);
      AppendRecord(bytes + Zeros(m * n), n, record);
    }
  }

  // A write is one of its first bytes followed by one of the others.
  lemma OverwriteInTwo(bytes: seq<Byte>, at: nat, a: seq<Byte>, b: seq<Byte>)
    requires a != [] && b != []
    ensures Overwrite(bytes, at, a + b) == Overwrite(Overwrite(bytes, at, a), at + |a|, b)
  {
  }

  lemma FirstOfAll(data: seq<Byte>, n: nat)
    requires Whole(data, n) && data != []
    ensures n <= |data| && Split(data, n) == [data[..n]] + Split(data[n..], n)
    ensures |data| > n ==> Whole(data[n..], n)
    ensures |data| == n ==> Split(data[n..], n) == []
  {
    SplitSizes(data, n);
    Times(|Split(data[n..], n)|, n);
  }

  // A write of several records.
  lemma {:induction false} WriteAll(bytes: seq<Byte>, n: nat, at: nat, data: seq<Byte>)
    requires |bytes| >= HEADER && Whole(bytes[HEADER..], n) && Whole(data, n) && data != []
    ensures HEADER + at * n >= 0
    ensures var b := Overwrite(bytes, HEADER + at * n, data);
            && |b| >= HEADER && b[..HEADER] == bytes[..HEADER] && Whole(b[HEADER..], n)
            && Split(b[HEADER..], n) == PutAll(Split(bytes[HEADER..], n), n, at, Split(data, n))
    decreases |data|
  {
    FirstOfAll(data, n);
    WriteAt(bytes, n, at, data[..n]);
    if |data| == n {
      assert data[..n] == data;
    } else {
      var p := HEADER + at * n;
      assert HEADER + (at + 1) * n == p + n by { Times(at, n); }
      assert data == data[..n] + data[n..];
      OverwriteInTwo(bytes, p, data[..n], data[n..]);
      WriteAll(Overwrite(bytes, p, data[..n]), n, at + 1, data[n..]);
    }
  }

  lemma BehindAll(data: seq<Byte>, n: nat, k: nat)
    requires Whole(data, n)
    ensures HEADER + (k + |Split(data, n)|) * n == HEADER + k * n + |data|
  {
    var m := |Split(data, n)|;
    assert (k + m) * n == k * n + m * n;
  }

  method DoPut(f: File, data: seq<Byte>, ghost k: nat) returns (ret: int)
    requires f.WellFormed() && f.AtRecord(k) && (|data| < f.indx || Whole(data, f.indx))
    modifies f`bytes, f`cursor
    ensures f.WellFormed() && f.bytes[..HEADER] == old(f.bytes[..HEADER])
    ensures var (s, t) := Step(f.indx, Table(old(f.Content()), k), Put(data));
            Wrote(ret) == s && f.Content() == t.records && f.AtRecord(t.at)
  {
    if |data| >= f.indx {
      WriteAll(f.bytes, f.indx, k, data);
      BehindAll(data, f.indx, k);
    }
    ret := f.Write(data);
  }

  method DoGet(f: File, ghost k: nat) returns (record: Option<seq<Byte>>)
    requires f.WellFormed() && f.AtRecord(k)
    modifies f`cursor
    ensures var (s, t) := Step(f.indx, Table(f.Content(), k), Get);
            Got(record) == s && f.AtRecord(t.at)
  {
    RecordOrEnd(f.bytes, f.indx, k);
    var ret, data := f.Read(f.indx);
    record := if ret > 0 then Some(data) else None;
  }

  method Do(f: File, op: Op, ghost k: nat) returns (seen: Seen)
    requires f.WellFormed() && f.AtRecord(k) && StepOk(f.indx, Table(f.Content(), k), op)
    modifies f`bytes, f`cursor
    ensures f.WellFormed() && f.bytes[..HEADER] == old(f.bytes[..HEADER])
    ensures var (s, t) := Step(f.indx, Table(old(f.Content()), k), op);
            seen == s && f.Content() == t.records && f.AtRecord(t.at)
  {
    match op {
      case Goto(offset, whence) =>
        var ret := f.Seek(offset, whence, k);
        seen := Moved(ret >= 0);
      case Put(data) =>
        var ret := DoPut(f, data, k);
        seen := Wrote(ret);
      case Get =>
        var record := DoGet(f, k);
        seen := Got(record);
    }
  }

  // An indexed file driven by a program shows what the table shows, ends with its records and
  // its cursor, and has the header it had.
  method RunProgram(f: File, ops: seq<Op>, ghost k: nat) returns (seen: seq<Seen>)
    requires f.WellFormed() && f.AtRecord(k) && AllOk(f.indx, Table(f.Content(), k), ops)
    modifies f`bytes, f`cursor
    ensures f.WellFormed() && f.bytes[..HEADER] == old(f.bytes[..HEADER])
    ensures var t := Table(old(f.Content()), k);
            && seen == Outputs(f.indx, t, ops)
            && f.Content() == Final(f.indx, t, ops).records
            && f.AtRecord(Final(f.indx, t, ops).at)
  {
    seen := [];
    ghost var t := Table(f.Content(), k);
    for i := 0 to |ops|
      invariant f.WellFormed() && f.bytes[..HEADER] == old(f.bytes[..HEADER])
      invariant f.Content() == t.records && f.AtRecord(t.at) && AllOk(f.indx, t, ops[i..])
      invariant seen + Outputs(f.indx, t, ops[i..]) == Outputs(f.indx, Table(old(f.Content()), k), ops)
      invariant Final(f.indx, t, ops[i..]) == Final(f.indx, Table(old(f.Content()), k), ops)
    {
      assert ops[i..][1..] == ops[i + 1..];
      var x := Do(f, ops[i], t.at);
      t := Step(f.indx, t, ops[i]).1;
      ghost var rest := Outputs(f.indx, t, ops[i + 1..]);
      assert (seen + [x]) + rest == seen + ([x] + rest);
      seen := seen + [x];
    }
  }
}
