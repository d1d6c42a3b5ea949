// The indexed file: a byte file, a cursor, and the record size that indopen put in its table.
module IndexedFile {
  import opened Options
  import opened Records

  datatype Whence = Set | Cur | End

  function Zeros(n: nat): seq<Byte> {
    seq(n, _ => 0)
  }

  // write(2) at a position, which may lie beyond the end.
  function Overwrite(bytes: seq<Byte>, at: nat, data: seq<Byte>): seq<Byte> {
    if data == [] then bytes
    else
      var padded := if at > |bytes| then bytes + Zeros(at - |bytes|) else bytes;
      padded[..at] + data + (if at + |data| < |padded| then padded[at + |data|..] else [])
  }

  // Byte by byte: what is written stands where it is written, what lay elsewhere stays, and a gap
  // behind the old end is filled with zeros.
  lemma OverwriteAt(bytes: seq<Byte>, at: nat, data: seq<Byte>)
    requires data != []
    ensures var b := Overwrite(bytes, at, data);
            && |b| == (if at + |data| > |bytes| then at + |data| else |bytes|)
            && forall k :: 0 <= k < |b| ==>
                 b[k] == if at <= k < at + |data| then data[k - at] else if k < |bytes| then bytes[k] else 0
  {
  }

  lemma OverwriteMiddle(a: seq<Byte>, was: seq<Byte>, c: seq<Byte>, data: seq<Byte>)
    requires |was| == |data|
    ensures Overwrite(a + was + c, |a|, data) == a + data + c
  {
    assert (a + was + c)[|a| + |data|..] == c;
  }

  lemma OverwriteEnd(a: seq<Byte>, data: seq<Byte>)
    ensures Overwrite(a, |a|, data) == a + data
  {
  }

  function Min(a: int, b: int): int {
    if a < b then a else b
  }

  // The comparison of a byte count with the record size is unsigned, so that a negative size
  // asks for a count that read and write themselves refuse.
  predicate Accepts(nbytes: nat, indx: int) {
    0 <= indx <= nbytes
  }

  // An int as a byte count of 64 bits.
  function AsSize(n: int): (size: nat)
    requires -0x8000_0000 <= n < 0x8000_0000
    ensures size < 0x1_0000_0000_0000_0000 && (size - n) % 0x1_0000_0000_0000_0000 == 0
  {
    if n < 0 then n + 0x1_0000_0000_0000_0000 else n
  }

  // The bytes around n bytes that stand at a place behind the header.
  lemma Parts(bytes: seq<Byte>, at: nat, n: nat)
    requires HEADER + at + n <= |bytes|
    ensures var body := bytes[HEADER..];
            && bytes == (bytes[..HEADER] + body[..at]) + body[at..at + n] + body[at + n..]
            && bytes[HEADER + at..HEADER + at + n] == body[at..at + n]
            && bytes[HEADER + at..] == body[at..at + n] + body[at + n..]
  {
  }

  // A file around its record i.
  lemma Around(bytes: seq<Byte>, n: nat, i: nat)
    requires |bytes| >= HEADER && Whole(bytes[HEADER..], n) && i < |Split(bytes[HEADER..], n)|
    ensures var rs := Split(bytes[HEADER..], n);
            && bytes == (bytes[..HEADER] + Join(rs[..i])) + rs[i] + Join(rs[i + 1..])
            && |Join(rs[..i])| == i * n && |rs[i]| == n
            && HEADER <= HEADER + i * n <= HEADER + i * n + n <= |bytes|
            && bytes[HEADER + i * n..HEADER + i * n + n] == rs[i]
            && bytes[HEADER + i * n..] == rs[i] + Join(rs[i + 1..])
  {
    RecordIn(bytes[HEADER..], n, i);
    Parts(bytes, i * n, n);
  }

  lemma Assemble(h: seq<Byte>, a: seq<Byte>, data: seq<Byte>, c: seq<Byte>)
    requires |h| == HEADER
    ensures ((h + a) + data + c)[..HEADER] == h && ((h + a) + data + c)[HEADER..] == a + data + c
  {
  }

  // Overwriting record i.
  lemma OverwriteRecord(bytes: seq<Byte>, n: nat, i: nat, data: seq<Byte>)
    requires |bytes| >= HEADER && Whole(bytes[HEADER..], n) && |data| == n
    requires i < |Split(bytes[HEADER..], n)|
    ensures var b := Overwrite(bytes, HEADER + i * n, data);
            && |b| >= HEADER && b[..HEADER] == bytes[..HEADER] && Whole(b[HEADER..], n)
            && Split(b[HEADER..], n) == Split(bytes[HEADER..], n)[i := data]
  {
    var h, rs := bytes[..HEADER], Split(bytes[HEADER..], n);
    var a, c := Join(rs[..i]), Join(rs[i + 1..]);
    Around(bytes, n, i);
    OverwriteMiddle(h + a, rs[i], c, data);
    SplitSizes(bytes[HEADER..], n);
    JoinUpdate(rs, i, data);
    SplitJoin(rs[i := data], n);
    Assemble(h, a, data, c);
  }

  // Writing just behind the last record.
  lemma AppendRecord(bytes: seq<Byte>, n: nat, data: seq<Byte>)
    requires |bytes| >= HEADER && Whole(bytes[HEADER..], n) && |data| == n
    ensures var b := Overwrite(bytes, |bytes|, data);
            && |b| >= HEADER && b[..HEADER] == bytes[..HEADER] && Whole(b[HEADER..], n)
            && Split(b[HEADER..], n) == Split(bytes[HEADER..], n) + [data]
  {
    var body, rs := bytes[HEADER..], Split(bytes[HEADER..], n);
    JoinSplit(body, n);
    SplitSizes(body, n);
    OverwriteEnd(bytes, data);
    JoinConcat(rs, [data]);
    assert Join([data]) == data;
    SplitJoin(rs + [data], n);
    assert (bytes + data)[HEADER..] == Join(rs + [data]);
  }

  lemma BeyondEnd(m: nat, c: nat, n: nat)
    requires c >= m
    ensures c * n >= m * n
  {
    assert c * n == m * n + (c - m) * n;
  }

  // A move by whole records lands on a record boundary exactly when it does not go back past
  // the first record; a shorter way back ends inside the header.
  lemma MoveLands(n: nat, k: nat, offset: int)
    requires n > 0
    ensures HEADER + k * n + n * offset == HEADER + (k + offset) * n
    ensures HEADER + k * n + n * offset >= HEADER <==> k + offset >= 0
    ensures (k + offset) * n == -(n * -(k + offset))
  {
    assert (k + offset) * n == k * n + n * offset;
    if k + offset >= 0 {
      assert (k + offset) * n >= 0;
    } else {
      BeyondEnd(1, -(k + offset), n);
      assert (k + offset) * n == -(-(k + offset) * n);
    }
  }

  // At the boundary of record c there is either record c or nothing.
  lemma RecordOrEnd(bytes: seq<Byte>, n: nat, c: nat)
    requires |bytes| >= HEADER && Whole(bytes[HEADER..], n)
    ensures HEADER + (c + 1) * n == HEADER + c * n + n
    ensures var rs := Split(bytes[HEADER..], n);
            if c < |rs| then
              HEADER + c * n + n <= |bytes| && bytes[HEADER + c * n..HEADER + c * n + n] == rs[c]
            else
              HEADER + c * n >= |bytes|
  {
    var rs := Split(bytes[HEADER..], n);
    Times(c, n);
    if c < |rs| {
      Around(bytes, n, c);
    } else {
      BeyondEnd(|rs|, c, n);
    }
  }

  // Record j is the first from record k on that matches.
  ghost predicate IsFirst(rs: seq<seq<Byte>>, matches: seq<Byte> -> bool, k: nat, j: nat) {
    && k <= j < |rs|
    && matches(rs[j])
    && forall i :: k <= i < j ==> !matches(rs[i])
  }

  // The contents that a buffer has after each of the reads of n bytes that reach to the end. A
  // short read leaves in the rest of the buffer what was there before.
  function Fetched(rest: seq<Byte>, n: nat, buf: seq<Byte>): seq<seq<Byte>>
    requires Min(n, |rest|) <= |buf|
    decreases |rest|
  {
    if n == 0 || rest == [] then []
    else
      var m := Min(n, |rest|);
      var next := rest[..m] + buf[m..];
      [next] + Fetched(rest[m..], n, next)
  }

  // The first of them that matches, and how many bytes are read up to there.
  function Scan(rest: seq<Byte>, n: nat, buf: seq<Byte>, matches: seq<Byte> -> bool): (Option<seq<Byte>>, nat)
    requires Min(n, |rest|) <= |buf|
    decreases |rest|
  {
    if n == 0 || rest == [] then (None, 0)
    else
      var m := Min(n, |rest|);
      var next := rest[..m] + buf[m..];
      if matches(next) then (Some(next), m)
      else
        var (found, more) := Scan(rest[m..], n, next, matches);
        (found, m + more)
  }

  lemma {:induction false} ScanFinds(rest: seq<Byte>, n: nat, buf: seq<Byte>, matches: seq<Byte> -> bool)
    returns (j: nat)
    requires Min(n, |rest|) <= |buf|
    ensures var all := Fetched(rest, n, buf);
            match Scan(rest, n, buf, matches).0
            case None => forall x :: x in all ==> !matches(x)
            case Some(x) => IsFirst(all, matches, 0, j) && x == all[j]
    ensures Scan(rest, n, buf, matches).1 ==
            if Scan(rest, n, buf, matches).0.Some? then Min((j + 1) * n, |rest|) else if n == 0 then 0 else |rest|
    decreases |rest|
  {
    j := 0;
    if n == 0 || rest == [] {
    } else {
      var m := Min(n, |rest|);
      var next := rest[..m] + buf[m..];
      if !matches(next) {
        var i := ScanFinds(rest[m..], n, next, matches);
        var all, later := Fetched(rest, n, buf), Fetched(rest[m..], n, next);
        assert all == [next] + later;
        assert (i + 2) * n == (i + 1) * n + n by { Times(i + 1, n); }
        j := i + 1;
      }
    }
  }

  // With a buffer of the record size, on whole records, they are the records.
  lemma {:induction false} FetchedWhole(body: seq<Byte>, n: nat, buf: seq<Byte>)
    requires Whole(body, n) && |buf| == n
    ensures Fetched(body, n, buf) == Split(body, n)
    decreases |body|
  {
    SplitSizes(body, n);
    if |body| < n {
      assert |Split(body, n)| == 0;
    } else {
      Times(|Split(body[n..], n)|, n);
      FetchedWhole(body[n..], n, body[..n]);
      assert body[..n] + buf[n..] == body[..n];
    }
  }

  // The buffer after reading whole records: the last of them, and what was behind it before.
  function LastRead(rs: seq<seq<Byte>>, a: nat, buf: seq<Byte>): seq<Byte>
    requires |buf| >= a && AllOfSize(rs, a)
  {
    if rs == [] then buf else rs[|rs| - 1] + buf[a..]
  }

  lemma LastReadOfRest(rs: seq<seq<Byte>>, a: nat, buf: seq<Byte>)
    requires |buf| >= a && AllOfSize(rs, a) && rs != []
    ensures |rs[0]| == a && |rs[0] + buf[a..]| == |buf|
    ensures LastRead(rs[1..], a, rs[0] + buf[a..]) == LastRead(rs, a, buf)
  {
    assert |rs[0]| == a;
    assert (rs[0] + buf[a..])[a..] == buf[a..];
  }

  // A last record that is cut short is read into a buffer that goes on as the record before it does.
  lemma {:induction false} FetchedCut(rs: seq<seq<Byte>>, tail: seq<Byte>, n: nat, buf: seq<Byte>)
    requires 0 < |tail| < n && AllOfSize(rs, n) && |buf| >= n
    ensures |LastRead(rs, n, buf)| == |buf|
    ensures Fetched(Join(rs) + tail, n, buf) ==
            Fetched(Join(rs), n, buf) + [tail + LastRead(rs, n, buf)[|tail|..]]
  {
    if rs == [] {
      assert Join(rs) + tail == tail && tail[|tail|..] == [] && tail[..|tail|] == tail;
      assert Fetched(tail, n, buf) == [tail + buf[|tail|..]];
    } else {
      LastReadOfRest(rs, n, buf);
      var rest := Join(rs[1..]);
      assert (rs[0] + rest)[..n] == rs[0] && (rs[0] + rest)[n..] == rest;
      assert ((rs[0] + rest) + tail)[..n] == rs[0] && ((rs[0] + rest) + tail)[n..] == rest + tail;
      FetchedCut(rs[1..], tail, n, rs[0] + buf[n..]);
    }
  }

  lemma RestIsRecords(bytes: seq<Byte>, n: nat, k: nat)
    requires |bytes| >= HEADER && Whole(bytes[HEADER..], n) && k < |Split(bytes[HEADER..], n)|
    ensures var rs := Split(bytes[HEADER..], n);
            && HEADER <= HEADER + k * n <= HEADER + k * n + n <= |bytes|
            && bytes[HEADER + k * n..] == Join(rs[k..])
  {
    var rs := Split(bytes[HEADER..], n);
    Around(bytes, n, k);
    assert rs[k..][0] == rs[k] && rs[k..][1..] == rs[k + 1..];
  }

  // The same from record k on.
  lemma FetchedFrom(bytes: seq<Byte>, n: nat, k: nat, buf: seq<Byte>)
    requires |bytes| >= HEADER && Whole(bytes[HEADER..], n) && k < |Split(bytes[HEADER..], n)| && |buf| == n
    ensures var rs := Split(bytes[HEADER..], n);
            && HEADER <= HEADER + k * n <= |bytes|
            && |bytes[HEADER + k * n..]| == (|rs| - k) * n
            && Fetched(bytes[HEADER + k * n..], n, buf) == rs[k..]
  {
    var rs := Split(bytes[HEADER..], n);
    RestIsRecords(bytes, n, k);
    SplitSizes(bytes[HEADER..], n);
    SplitJoin(rs[k..], n);
    FetchedWhole(Join(rs[k..]), n, buf);
  }

  // The first match from record k on, and where the cursor is behind it.
  lemma FirstFrom(rs: seq<seq<Byte>>, matches: seq<Byte> -> bool, k: nat, j: nat, n: nat)
    requires k <= |rs| && IsFirst(rs[k..], matches, 0, j)
    ensures IsFirst(rs, matches, k, k + j) && rs[k..][j] == rs[k + j]
    ensures k * n + Min((j + 1) * n, (|rs| - k) * n) == (k + j + 1) * n
  {
    forall i | k <= i < k + j ensures !matches(rs[i]) {
      assert rs[i] == rs[k..][i - k];
    }
    BeyondEnd(j + 1, |rs| - k, n);
    assert (k + (j + 1)) * n == k * n + (j + 1) * n;
  }

  // The search from record k on with a buffer of the record size.
  lemma ScanRecords(bytes: seq<Byte>, n: nat, k: nat, buf: seq<Byte>, matches: seq<Byte> -> bool)
    requires |bytes| >= HEADER && Whole(bytes[HEADER..], n) && k < |Split(bytes[HEADER..], n)| && |buf| == n
    ensures HEADER <= HEADER + k * n <= |bytes|
    ensures var rs := Split(bytes[HEADER..], n);
            var (found, moved) := Scan(bytes[HEADER + k * n..], n, buf, matches);
            match found
            case None => (forall j :: k <= j < |rs| ==> !matches(rs[j])) && k * n + moved == |rs| * n
            case Some(x) =>
              exists j: nat :: IsFirst(rs, matches, k, j) && x == rs[j] && k * n + moved == (j + 1) * n
  {
    var rs := Split(bytes[HEADER..], n);
    FetchedFrom(bytes, n, k, buf);
    var j := ScanFinds(bytes[HEADER + k * n..], n, buf, matches);
    if Scan(bytes[HEADER + k * n..], n, buf, matches).0.Some? {
      FirstFrom(rs, matches, k, j, n);
    } else {
      forall i | k <= i < |rs| ensures !matches(rs[i]) {
        assert rs[i] == rs[k..][i - k];
      }
    }
  }

  class File {
    var bytes: seq<Byte>
    var cursor: nat
    var indx: int

    // The file holds its header and whole records of the size in it.
    ghost predicate WellFormed()
      reads this`bytes, this`indx
    {
      && |bytes| >= HEADER && indx > 0
      && Decode(bytes[..HEADER]) == indx
      && Whole(bytes[HEADER..], indx)
    }

    ghost function Content(): seq<seq<Byte>>
      reads this`bytes, this`indx
      requires WellFormed()
    {
      Split(bytes[HEADER..], indx)
    }

    ghost predicate AtRecord(k: nat)
      reads this`cursor, this`indx
    {
      indx > 0 && cursor == HEADER + k * indx
    }

    // indopen on a file that open(2) has left with these bytes. A file of one to three bytes
    // leaves part of the variable the size is read into as it was.
    constructor Open(existing: seq<Byte>, ind: int, writable: bool, uninit: seq<Byte>)
      requires -0x8000_0000 <= ind < 0x8000_0000 && |uninit| == HEADER
      ensures |existing| >= HEADER ==> bytes == existing && indx == Decode(existing[..HEADER]) && cursor == HEADER
      ensures 0 < |existing| < HEADER ==>
                bytes == existing && indx == Decode(existing + uninit[|existing|..]) && cursor == |existing|
      ensures existing == [] && writable ==>
                bytes == Encode(ind) && indx == ind && cursor == HEADER && (ind > 0 ==> WellFormed() && Content() == [])
      ensures existing == [] && !writable ==> bytes == [] && indx == ind && cursor == 0
    {
      DecodeEncode(ind);
      bytes, cursor := existing, Min(|existing|, HEADER);
      if |existing| > 0 {
        indx := Decode(existing[..Min(|existing|, HEADER)] + uninit[Min(|existing|, HEADER)..]);
      } else {
        indx := ind;
        if writable {
          bytes, cursor := Encode(ind), HEADER;
        }
      }
    }

    // indread
    method Read(nbytes: nat) returns (ret: int, data: seq<Byte>)
      modifies this`cursor
      ensures ret >= -1 && (ret >= 0 <==> 0 <= indx <= nbytes)
      ensures ret == -1 ==> data == [] && cursor == old(cursor)
      ensures ret >= 0 ==>
                && ret == |data| == (if cursor > |bytes| then 0 else Min(nbytes, |bytes| - old(cursor)))
                && cursor == old(cursor) + ret
                && (ret > 0 ==> cursor <= |bytes| && data == bytes[old(cursor)..cursor])
    {
      if !Accepts(nbytes, indx) { return -1, []; }
      if cursor >= |bytes| { return 0, []; }
      var n := Min(nbytes, |bytes| - cursor);
      data := bytes[cursor..cursor + n];
      cursor := cursor + n;
      return n, data;
    }

    // indwrite
    method Write(data: seq<Byte>) returns (ret: int)
      modifies this`cursor, this`bytes
      ensures ret == if 0 <= indx <= |data| then |data| else -1
      ensures ret == -1 ==> bytes == old(bytes) && cursor == old(cursor)
      ensures ret >= 0 ==> bytes == Overwrite(old(bytes), old(cursor), data) && cursor == old(cursor) + |data|
    {
      if !Accepts(|data|, indx) { return -1; }
      bytes := Overwrite(bytes, cursor, data);
      cursor := cursor + |data|;
      return |data|;
    }

    // indlseek. On a well-formed file a move by whole records, from the start, from record k
    // where the cursor stands, or from the end, lands on the record it names exactly when that is
    // not before the first one; otherwise it ends inside the header or, further back, fails.
    method Seek(offset: int, whence: Whence, ghost k: nat := 0) returns (ret: int)
      modifies this`cursor
      ensures
        var target := indx * offset +
          (match whence case Set => HEADER case Cur => old(cursor) case End => |bytes|);
        && ret == (if target < 0 then -1 else target)
        && cursor == (if target < 0 then old(cursor) else target)
      ensures WellFormed() && (whence == Cur ==> old(AtRecord(k))) ==>
        var j := offset + (match whence case Set => 0 case Cur => k case End => |Content()|);
        if j >= 0 then AtRecord(j) && ret == cursor else ret < HEADER && (ret == -1 <==> HEADER < indx * -j)
    {
      if WellFormed() {
        MoveLands(indx, 0, offset);
        MoveLands(indx, k, offset);
        MoveLands(indx, |Content()|, offset);
      }
      var target := match whence
        case Set => HEADER + indx * offset
        case Cur => cursor + indx * offset
        case End => |bytes| + indx * offset;
      if target < 0 { return -1; }
      cursor := target;
      return target;
    }

    // Writing a record where the cursor stands.
    method WriteHere(i: nat, data: seq<Byte>)
      requires WellFormed() && |data| == indx && i < |Content()| && AtRecord(i)
      modifies this`cursor, this`bytes
      ensures WellFormed() && Content() == old(Content())[i := data] && AtRecord(i + 1)
      ensures bytes[..HEADER] == old(bytes[..HEADER])
    {
      OverwriteRecord(bytes, indx, i, data);
      Times(i, indx);
      var w := Write(data);
    }

    // Reading the record where the cursor stands.
    method ReadHere(j: nat) returns (got: seq<Byte>)
      requires WellFormed() && j < |Content()| && AtRecord(j)
      modifies this`cursor
      ensures got == Content()[j] && AtRecord(j + 1)
    {
      Around(bytes, indx, j);
      Times(j, indx);
      var ret;
      ret, got := Read(indx);
    }

    // Writing record i and then reading record j gives what an array of records gives, and
    // touches neither the header nor any other record.
    method WriteThenRead(i: nat, data: seq<Byte>, j: nat) returns (got: seq<Byte>)
      requires WellFormed() && |data| == indx
      requires i < |Content()| && j < |Content()|
      modifies this`cursor, this`bytes
      ensures WellFormed() && Content() == old(Content())[i := data]
      ensures bytes[..HEADER] == old(bytes[..HEADER])
      ensures got == if i == j then data else old(Content())[j]
      ensures AtRecord(j + 1)
    {
      var at := Seek(i, Set);
      WriteHere(i, data);
      at := Seek(j, Set);
      got := ReadHere(j);
    }

    // Appending at the end of the file adds one record.
    method Append(data: seq<Byte>)
      requires WellFormed() && |data| == indx
      modifies this`cursor, this`bytes
      ensures WellFormed() && Content() == old(Content()) + [data]
      ensures bytes[..HEADER] == old(bytes[..HEADER])
      ensures AtRecord(|Content()|)
    {
      var at := Seek(0, End);
      AppendRecord(bytes, indx, data);
      Times(|Content()|, indx);
      var w := Write(data);
    }

    // What there is to read from the cursor on.
    ghost function Rest(): seq<Byte>
      reads this`cursor, this`bytes
    {
      if cursor <= |bytes| then bytes[cursor..] else []
    }

    // One read of the search loop.
    method Fetch(buf: seq<Byte>) returns (ret: nat, next: seq<Byte>)
      requires indx >= 0 && Min(indx, |Rest()|) <= |buf|
      modifies this`cursor
      ensures ret == Min(indx, |old(Rest())|) && cursor == old(cursor) + ret && Rest() == old(Rest())[ret..]
      ensures next == old(Rest())[..ret] + buf[ret..]
    {
      ghost var rest := Rest();
      var data;
      ret, data := Read(indx);
      next := data + buf[|data|..];
      assert data == rest[..ret] && Rest() == rest[ret..];
    }

    // The loop of indsearch, when its reads fit in the buffer.
    method SearchLoop(matches: seq<Byte> -> bool, malloced: seq<Byte>) returns (r: Option<seq<Byte>>)
      requires indx >= 0 && Min(indx, |Rest()|) <= |malloced|
      modifies this`cursor
      ensures cursor >= old(cursor)
      ensures (r, cursor - old(cursor)) == Scan(old(Rest()), indx, malloced, matches)
    {
      ghost var scan := Scan(Rest(), indx, malloced, matches);
      var buf := malloced;
      while true
        invariant cursor >= old(cursor) && Min(indx, |Rest()|) <= |buf|
        invariant var more := Scan(Rest(), indx, buf, matches); scan == (more.0, cursor - old(cursor) + more.1)
        decreases |Rest()|
      {
        var ret;
        ret, buf := Fetch(buf);
        if ret == 0 { return None; }
        if matches(buf) { return Some(buf); }
      }
    }

    // indsearch, with the buffer that malloc gave it. A read that does not fit in the buffer
    // overruns it, and nothing is said of what follows; no later read is longer than the first
    // one, so that one decides. With a negative size the first read fails.
    method Search(matches: seq<Byte> -> bool, malloced: seq<Byte>) returns (r: Option<seq<Byte>>, overrun: bool)
      requires -0x8000_0000 <= indx < 0x8000_0000
      modifies this`cursor
      ensures overrun <==> indx >= 0 && Min(indx, |old(Rest())|) > |malloced|
      ensures overrun || indx < 0 ==> r == None && cursor == old(cursor)
      ensures !overrun && indx >= 0 ==> (r, cursor - old(cursor)) == Scan(old(Rest()), indx, malloced, matches)
      ensures !overrun && indx > 0 && r == None ==>
                cursor == if old(cursor) < |bytes| then |bytes| else old(cursor)
    {
      if indx < 0 {
        var failed, nothing := Read(AsSize(indx));
        return None, false;
      }
      if cursor < |bytes| && Min(indx, |bytes| - cursor) > |malloced| { return None, true; }
      ghost var j := ScanFinds(Rest(), indx, malloced, matches);
      r := SearchLoop(matches, malloced);
      return r, false;
    }

    // On a well-formed file, from the boundary of record k on, with the buffer of the code, which
    // has the size of an int, the search overruns exactly when there is a record left and it is
    // longer than that. With a buffer of the record size the result is the first record that
    // matches, and nothing exactly when there is none left.
    method SearchRecords(matches: seq<Byte> -> bool, malloced: seq<Byte>, ghost k: nat)
      returns (r: Option<seq<Byte>>, overrun: bool)
      requires WellFormed() && AtRecord(k)
      modifies this`cursor
      ensures overrun <==> k < |Content()| && indx > |malloced|
      ensures |malloced| == indx ==>
                match r
                case None =>
                  && (forall j :: k <= j < |Content()| ==> !matches(Content()[j]))
                  && AtRecord(if k < |Content()| then |Content()| else k)
                case Some(x) =>
                  exists j: nat :: IsFirst(Content(), matches, k, j) && x == Content()[j] && AtRecord(j + 1)
    {
      RecordOrEnd(bytes, indx, k);
      EncodeDecode(bytes[..HEADER]);
      if k < |Content()| && |malloced| == indx { ScanRecords(bytes, indx, k, malloced, matches); }
      r, overrun := Search(matches, malloced);
    }
  }
}
