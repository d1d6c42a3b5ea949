// Changing the record size of an indexed file.
module Reindex {
  import opened Records
  import opened IndexedFile

  // The bytes that the copying loop writes after the new header: each read of up to `a` bytes
  // goes to the front of a buffer that is never cleared, and the buffer's first `b` bytes are
  // written.
  function Recopy(body: seq<Byte>, a: nat, b: nat, buf: seq<Byte>): seq<Byte>
    requires |buf| >= a && |buf| >= b
    decreases |body|
  {
    if a == 0 || body == [] then []
    else
      var n := Min(a, |body|);
      var next := body[..n] + buf[n..];
      next[..b] + Recopy(body[n..], a, b, next)
  }

  // One turn of the loop.
  lemma RecopyTurn(x: seq<Byte>, rest: seq<Byte>, a: nat, b: nat, buf: seq<Byte>)
    requires |buf| >= a && |buf| >= b && a > 0 && x != []
    requires |x| == a || (|x| < a && rest == [])
    ensures Recopy(x + rest, a, b, buf) == (x + buf[|x|..])[..b] + Recopy(rest, a, b, x + buf[|x|..])
  {
    assert (x + rest)[..|x|] == x && (x + rest)[|x|..] == rest;
  }

  lemma Associative(x: seq<Byte>, y: seq<Byte>, z: seq<Byte>)
    ensures (x + y) + z == x + (y + z)
  {
  }

  // An unsigned size put into an int, as indopen does.
  function AsInt(u: nat): int {
    if u < 0x8000_0000 then u else u - 0x1_0000_0000
  }

  // One turn of the loop on the two files: ret is 0 at the end of the old one, and -1 when the
  // write is refused, which it is when the new size is negative as an int.
  method CopyOne(source: File, f: File, newSize: nat, buf: seq<Byte>) returns (ret: int, next: seq<Byte>)
    requires source != f && source.indx >= 0 && source.cursor <= |source.bytes| && newSize < 0x1_0000_0000
    requires f.indx == AsInt(newSize) && f.cursor == |f.bytes| && |buf| >= source.indx && |buf| >= newSize
    modifies source`cursor, f`bytes, f`cursor
    ensures source.cursor <= |source.bytes| && f.cursor == |f.bytes| && |next| == |buf| && ret >= -1
    ensures ret == 0 <==> source.indx == 0 || old(source.cursor) == |source.bytes|
    ensures ret == -1 <==> ret != 0 && newSize >= 0x8000_0000
    ensures ret <= 0 ==> f.bytes == old(f.bytes)
    ensures ret > 0 ==> source.cursor > old(source.cursor)
    ensures ret > 0 ==>
              f.bytes + Recopy(source.bytes[source.cursor..], source.indx, newSize, next) ==
              old(f.bytes) + Recopy(source.bytes[old(source.cursor)..], source.indx, newSize, buf)
  {
    ghost var rest := source.bytes[source.cursor..];
    var data;
    ret, data := source.Read(source.indx);
    next := buf;
    if ret > 0 {
      next := data + buf[|data|..];
      var w := f.Write(next[..newSize]);
      if w == -1 { return -1, next; }
      assert rest == data + source.bytes[source.cursor..];
      RecopyTurn(data, source.bytes[source.cursor..], source.indx, newSize, buf);
      OverwriteEnd(old(f.bytes), next[..newSize]);
      ghost var later := source.bytes[source.cursor..];
      Associative(old(f.bytes), next[..newSize], Recopy(later, source.indx, newSize, next));
    }
  }

  // What is behind the header.
  function Body(bytes: seq<Byte>): seq<Byte> {
    if |bytes| >= HEADER then bytes[HEADER..] else []
  }

  // A record at the new size: cut, or filled up from the buffer.
  function Resize(r: seq<Byte>, b: nat, pad: seq<Byte>): (s: seq<Byte>)
    requires |pad| >= b
    ensures |s| == b
  {
    if b <= |r| then r[..b] else r + pad[|r|..b]
  }

  function ResizeAll(rs: seq<seq<Byte>>, b: nat, pad: seq<Byte>): (s: seq<seq<Byte>>)
    requires |pad| >= b
    ensures |s| == |rs|
    ensures forall k :: 0 <= k < |rs| ==> s[k] == Resize(rs[k], b, pad)
  {
    if rs == [] then [] else [Resize(rs[0], b, pad)] + ResizeAll(rs[1..], b, pad)
  }

  // On whole records the loop resizes each record on its own: what the buffer holds behind
  // the old size never changes.
  lemma {:induction false} RecopyRecords(rs: seq<seq<Byte>>, a: nat, b: nat, buf: seq<Byte>, pad: seq<Byte>)
    requires a > 0 && AllOfSize(rs, a) && |buf| == |pad| && |buf| >= a && |buf| >= b && buf[a..] == pad[a..]
    ensures Recopy(Join(rs), a, b, buf) == Join(ResizeAll(rs, b, pad))
  {
    if rs == [] {
    } else {
      assert |rs[0]| == a;
      RecopyTurn(rs[0], Join(rs[1..]), a, b, buf);
      var next := rs[0] + buf[a..];
      assert next[a..] == pad[a..];
      if b > a {
        assert next[..b] == rs[0] + pad[a..b];
      }
      RecopyRecords(rs[1..], a, b, next, pad);
    }
  }

  // Re-indexing a well-formed file keeps the number and the order of the records, and each new
  // record starts with the first min(a, b) bytes of its old one.
  lemma ReindexRecords(body: seq<Byte>, a: nat, b: nat, pad: seq<Byte>)
    requires Whole(body, a) && b > 0 && |pad| >= a && |pad| >= b
    ensures var rs := Split(body, a);
            var s := Split(Recopy(body, a, b, pad), b);
            && Whole(Recopy(body, a, b, pad), b)
            && s == ResizeAll(rs, b, pad)
            && |s| == |rs|
            && forall k :: 0 <= k < |s| ==> |s[k]| == b && |rs[k]| == a && s[k][..Min(a, b)] == rs[k][..Min(a, b)]
  {
    var rs := Split(body, a);
    JoinSplit(body, a);
    SplitSizes(body, a);
    RecopyRecords(rs, a, b, pad, pad);
    SplitJoin(ResizeAll(rs, b, pad), b);
    JoinSplit(Recopy(body, a, b, pad), b);
  }

  lemma HeaderFirst(h: seq<Byte>, x: seq<Byte>)
    requires |h| == HEADER
    ensures (h + x)[..HEADER] == h && (h + x)[HEADER..] == x
  {
  }

  // indxchg. The new file is created empty; the old one has just been opened. A new size that
  // is negative as an int is refused once there is something to copy, and an old size that is
  // negative, as it is for an empty file, lets the first read fail.
  method Indxchg(source: File, newSize: nat, uninit: seq<Byte>, header: seq<Byte>) returns (ret: int, f: File)
    requires newSize < 0x1_0000_0000 && |header| == HEADER
    requires -0x8000_0000 <= source.indx < 0x8000_0000 && source.cursor == Min(|source.bytes|, HEADER)
    requires source.indx >= 0 ==> |uninit| == if source.indx > newSize then source.indx else newSize
    modifies source`cursor
    ensures fresh(f) && f.indx == if newSize < 0x8000_0000 then newSize else newSize - 0x1_0000_0000
    ensures |f.bytes| >= HEADER && Decode(f.bytes[..HEADER]) == f.indx
    ensures var refused := newSize >= 0x8000_0000 && source.indx > 0 && Body(source.bytes) != [];
            ret == if source.indx < 0 || refused then -1 else 0
    ensures f.bytes[HEADER..] == if ret == 0 then Recopy(Body(source.bytes), source.indx, newSize, uninit) else []
  {
    DecodeEncode(AsInt(newSize));
    f := new File.Open([], AsInt(newSize), true, header);
    if source.indx < 0 {
      var nothing;
      ret, nothing := source.Read(AsSize(source.indx));
      HeaderFirst(f.bytes, []);
      return ret, f;
    }
    ghost var body := Body(source.bytes);
    var buf := uninit;
    while true
      invariant source.cursor <= |source.bytes| && |buf| == |uninit|
      invariant f.indx == AsInt(newSize) && f.cursor == |f.bytes|
      invariant newSize >= 0x8000_0000 ==> source.bytes[source.cursor..] == body && f.bytes == Encode(AsInt(newSize))
      invariant f.bytes + Recopy(source.bytes[source.cursor..], source.indx, newSize, buf) ==
                Encode(AsInt(newSize)) + Recopy(body, source.indx, newSize, uninit)
      decreases |source.bytes| - source.cursor
    {
      ret, buf := CopyOne(source, f, newSize, buf);
      if ret <= 0 {
        ghost var x := if ret == 0 then Recopy(body, source.indx, newSize, uninit) else [];
        assert f.bytes == Encode(AsInt(newSize)) + x;
        HeaderFirst(Encode(AsInt(newSize)), x);
        return ret, f;
      }
    }
  }

  // indxchg on a file of whole records, to a size that is positive as an int: the new file is one,
  // too, with the new size in its header and as many records, each of them the old one cut short,
  // or filled up from what the buffer held.
  method IndxchgWhole(source: File, newSize: nat, uninit: seq<Byte>, header: seq<Byte>) returns (ret: int, f: File)
    requires 0 < newSize < 0x8000_0000 && |header| == HEADER
    requires source.WellFormed() && source.cursor == HEADER
    requires |uninit| == if source.indx > newSize then source.indx else newSize
    modifies source`cursor
    ensures ret == 0 && fresh(f) && f.indx == newSize && f.WellFormed()
    ensures var rs := source.Content();
            |f.Content()| == |rs| && forall k :: 0 <= k < |rs| ==>
              && |rs[k]| == source.indx
              && f.Content()[k] == if newSize <= source.indx then rs[k][..newSize]
                                   else rs[k] + uninit[source.indx..newSize]
  {
    ghost var body, a := Body(source.bytes), source.indx;
    assert Whole(body, a) && body == source.bytes[HEADER..];
    EncodeDecode(source.bytes[..HEADER]);
    ret, f := Indxchg(source, newSize, uninit, header);
    ReindexRecords(body, a, newSize, uninit);
  }

  // Narrowing in two steps is narrowing in one.
  lemma NarrowTwice(body: seq<Byte>, a: nat, b: nat, c: nat, p: seq<Byte>, q: seq<Byte>, r: seq<Byte>)
    requires Whole(body, a) && 0 < c <= b <= a && |p| >= a && |q| >= b && |r| >= a
    ensures Recopy(Recopy(body, a, b, p), b, c, q) == Recopy(body, a, c, r)
  {
    var rs := Split(body, a);
    ReindexRecords(body, a, b, p);
    ReindexRecords(body, a, c, r);
    ReindexRecords(Recopy(body, a, b, p), b, c, q);
    var two, one := Recopy(Recopy(body, a, b, p), b, c, q), Recopy(body, a, c, r);
    forall k | 0 <= k < |rs| ensures Split(two, c)[k] == Split(one, c)[k] {
      assert |rs[k]| == a;
      assert rs[k][..b][..c] == rs[k][..c];
    }
    JoinSplit(one, c);
    JoinSplit(two, c);
    assert Split(two, c) == Split(one, c);
  }

  lemma ResizeBack(r: seq<Byte>, b: nat, p: seq<Byte>, q: seq<Byte>)
    requires |p| >= b && |q| >= |r|
    ensures Resize(Resize(r, b, p), |r|, q) == r <==> b >= |r| || r[b..] == q[b..|r|]
  {
    if b < |r| {
      assert r == r[..b] + r[b..];
      assert Resize(Resize(r, b, p), |r|, q) == r[..b] + q[b..|r|];
      assert (r[..b] + q[b..|r|])[b..] == q[b..|r|];
    }
  }

  // Re-indexing to another size and back restores a well-formed file byte for byte, whatever the
  // buffers held, exactly when the size did not get smaller, or every record happened to end in
  // what the second buffer held.
  lemma ThereAndBackExactly(body: seq<Byte>, a: nat, b: nat, p: seq<Byte>, q: seq<Byte>)
    requires Whole(body, a) && b > 0 && |p| >= a && |p| >= b && |q| >= a && |q| >= b
    ensures Recopy(Recopy(body, a, b, p), b, a, q) == body <==>
            b >= a ||
            forall k :: 0 <= k < |Split(body, a)| ==> |Split(body, a)[k]| == a && Split(body, a)[k][b..] == q[b..a]
  {
    var rs := Split(body, a);
    var mid := Recopy(body, a, b, p);
    var back := Recopy(mid, b, a, q);
    SplitSizes(body, a);
    ReindexRecords(body, a, b, p);
    ReindexRecords(mid, b, a, q);
    var s := Split(back, a);
    forall k | 0 <= k < |rs| ensures s[k] == rs[k] <==> b >= a || rs[k][b..] == q[b..a] {
      assert |rs[k]| == a;
      ResizeBack(rs[k], b, p, q);
    }
    JoinSplit(body, a);
    JoinSplit(back, a);
    if b >= a || forall k :: 0 <= k < |rs| ==> |rs[k]| == a && rs[k][b..] == q[b..a] {
      assert s == rs;
    }
  }

  lemma CutTurn(x: seq<Byte>, rest: seq<Byte>, tail: seq<Byte>, a: nat, b: nat, buf: seq<Byte>, last: seq<Byte>)
    requires |x| == a > 0 && |buf| >= a && |buf| >= b
    requires Recopy(rest + tail, a, b, x + buf[a..]) == Recopy(rest, a, b, x + buf[a..]) + last
    ensures Recopy((x + rest) + tail, a, b, buf) == Recopy(x + rest, a, b, buf) + last
  {
    var first, more := (x + buf[a..])[..b], Recopy(rest, a, b, x + buf[a..]);
    assert Recopy(x + rest, a, b, buf) == first + more by { RecopyTurn(x, rest, a, b, buf); }
    assert Recopy((x + rest) + tail, a, b, buf) == first + (more + last) by {
      RecopyTurn(x, rest + tail, a, b, buf);
      Associative(x, rest, tail);
    }
    Associative(first, more, last);
  }

  // A last record that is cut short becomes one that goes on as the record before it does.
  lemma {:induction false} RecopyCut(rs: seq<seq<Byte>>, tail: seq<Byte>, a: nat, b: nat, buf: seq<Byte>)
    requires 0 < |tail| < a && AllOfSize(rs, a) && |buf| >= a && |buf| >= b
    ensures |LastRead(rs, a, buf)| == |buf|
    ensures Recopy(Join(rs) + tail, a, b, buf) ==
            Recopy(Join(rs), a, b, buf) + (tail + LastRead(rs, a, buf)[|tail|..])[..b]
  {
    if rs == [] {
      RecopyTurn(tail, [], a, b, buf);
      assert Join(rs) + tail == tail + [];
    } else {
      var last := (tail + LastRead(rs, a, buf)[|tail|..])[..b];
      LastReadOfRest(rs, a, buf);
      RecopyCut(rs[1..], tail, a, b, rs[0] + buf[a..]);
      CutTurn(rs[0], Join(rs[1..]), tail, a, b, buf, last);
    }
  }

  // The number of turns the loop makes.
  function Turns(body: seq<Byte>, a: nat): nat {
    |Split(body, a)| + (if |Split(body, a)| * a == |body| then 0 else 1)
  }

  lemma TurnsMore(body: seq<Byte>, a: nat)
    requires 0 < a <= |body|
    ensures Turns(body, a) == Turns(body[a..], a) + 1
  {
    Times(|Split(body[a..], a)|, a);
  }

  lemma SplitMore(x: seq<Byte>, rest: seq<Byte>, b: nat)
    requires |x| == b > 0
    ensures Split(x + rest, b) == [x] + Split(rest, b)
  {
    assert (x + rest)[..b] == x && (x + rest)[b..] == rest;
  }

  // What a last record that is cut short does: the loop writes one record more than the old
  // file has whole ones, so the count is kept exactly when the file is whole.
  lemma {:induction false} RecopyCount(body: seq<Byte>, a: nat, b: nat, buf: seq<Byte>)
    requires a > 0 && b > 0 && |buf| >= a && |buf| >= b
    ensures |Split(Recopy(body, a, b, buf), b)| == Turns(body, a)
    ensures |Recopy(body, a, b, buf)| == Turns(body, a) * b
    ensures Turns(body, a) == |Split(body, a)| <==> Whole(body, a)
    decreases |body|
  {
    if |body| >= a {
      var next := body[..a] + buf[a..];
      RecopyCount(body[a..], a, b, next);
      TurnsMore(body, a);
      Times(Turns(body[a..], a), b);
      RecopyTurn(body[..a], body[a..], a, b, buf);
      assert body == body[..a] + body[a..];
      SplitMore(next[..b], Recopy(body[a..], a, b, next), b);
    } else if body != [] {
      var next := body + buf[|body|..];
      RecopyTurn(body, [], a, b, buf);
      assert body + [] == body;
      SplitMore(next[..b], [], b);
      assert Recopy([], a, b, next) == [];
    }
  }
}
