// The layout of an indexed file: a 4-byte header that holds the record size, then records.
module Records {

  type Byte = b: int | 0 <= b < 256

  const HEADER := 4

  // A C int as the four bytes of its two's complement, the low byte first.
  function Encode(n: int): (r: seq<Byte>)
    requires -0x8000_0000 <= n < 0x8000_0000
    ensures |r| == HEADER
  {
    var u := if n < 0 then n + 0x1_0000_0000 else n;
    [u % 256, u / 256 % 256, u / 65536 % 256, u / 16777216]
  }

  function Decode(b: seq<Byte>): int
    requires |b| == HEADER
  {
    var b0: int, b1: int, b2: int, b3: int := b[0], b[1], b[2], b[3];
    var u := b0 + 256 * b1 + 65536 * b2 + 16777216 * b3;
    if u >= 0x8000_0000 then u - 0x1_0000_0000 else u
  }

  // The bytes are the digits of the number, or of its two's complement, to the base 256.
  lemma EncodeDigits(n: int)
    requires -0x8000_0000 <= n < 0x8000_0000
    ensures var b := Encode(n);
            b[0] as int + 0x100 * b[1] as int + 0x1_0000 * b[2] as int + 0x100_0000 * b[3] as int ==
            if n >= 0 then n else n + 0x1_0000_0000
  {
    var u := if n < 0 then n + 0x1_0000_0000 else n;
    assert u / 65536 == u / 256 / 256 && u / 16777216 == u / 65536 / 256;
  }

  lemma DecodeEncode(n: int)
    requires -0x8000_0000 <= n < 0x8000_0000
    ensures Decode(Encode(n)) == n
  {
    var u := if n < 0 then n + 0x1_0000_0000 else n;
    assert u / 65536 == u / 256 / 256 && u / 16777216 == u / 65536 / 256;
  }

  lemma EncodeDecode(b: seq<Byte>)
    requires |b| == HEADER
    ensures -0x8000_0000 <= Decode(b) < 0x8000_0000 && Encode(Decode(b)) == b
  {
    var b0: int, b1: int, b2: int, b3: int := b[0], b[1], b[2], b[3];
    var v := b1 + 256 * b2 + 65536 * b3;
    var u := b0 + 256 * v;
    assert u % 256 == b0 && u / 256 == v;
    assert v % 256 == b1 && v / 256 == b2 + 256 * b3;
    assert u / 65536 == u / 256 / 256 && u / 16777216 == u / 65536 / 256;
  }

  // The whole records in the bytes after the header.
  function Split(body: seq<Byte>, n: nat): seq<seq<Byte>> {
    if n == 0 || |body| < n then [] else [body[..n]] + Split(body[n..], n)
  }

  function Join(rs: seq<seq<Byte>>): seq<Byte> {
    if rs == [] then [] else rs[0] + Join(rs[1..])
  }

  // Nothing is left over behind the last record.
  ghost predicate Whole(body: seq<Byte>, n: nat) {
    n > 0 && |body| == |Split(body, n)| * n
  }

  ghost predicate AllOfSize(rs: seq<seq<Byte>>, n: nat) {
    forall k :: 0 <= k < |rs| ==> |rs[k]| == n
  }

  lemma Times(i: int, n: int)
    ensures (i + 1) * n == i * n + n && (i - 1) * n == i * n - n
  {
  }

  lemma {:induction false} SplitSizes(body: seq<Byte>, n: nat)
    ensures AllOfSize(Split(body, n), n)
    ensures |Split(body, n)| * n <= |body|
    ensures n > 0 ==> |body| < |Split(body, n)| * n + n
  {
    if n == 0 || |body| < n {
    } else {
      SplitSizes(body[n..], n);
      Times(|Split(body[n..], n)|, n);
    }
  }

  // Splitting and joining are inverse.
  lemma {:induction false} SplitJoin(rs: seq<seq<Byte>>, n: nat)
    requires n > 0 && AllOfSize(rs, n)
    ensures Split(Join(rs), n) == rs && |Join(rs)| == |rs| * n
  {
    if rs == [] {
    } else {
      SplitJoin(rs[1..], n);
      Times(|rs[1..]|, n);
      assert |rs[0]| == n;
      assert Join(rs)[..n] == rs[0] && Join(rs)[n..] == Join(rs[1..]);
    }
  }

  lemma {:induction false} JoinSplit(body: seq<Byte>, n: nat)
    requires n > 0
    ensures Whole(body, n) <==> Join(Split(body, n)) == body
  {
    SplitSizes(body, n);
    SplitJoin(Split(body, n), n);
    if |body| < n {
    } else {
      JoinSplit(body[n..], n);
      Times(|Split(body[n..], n)|, n);
      assert body == body[..n] + body[n..];
    }
  }

  lemma {:induction false} JoinConcat(a: seq<seq<Byte>>, b: seq<seq<Byte>>)
    ensures Join(a + b) == Join(a) + Join(b)
  {
    if a == [] {
      assert a + b == b;
    } else {
      assert (a + b)[1..] == a[1..] + b;
      JoinConcat(a[1..], b);
    }
  }

  // Where record i is.
  lemma RecordAt(rs: seq<seq<Byte>>, n: nat, i: nat)
    requires n > 0 && AllOfSize(rs, n) && i < |rs|
    ensures 0 <= i * n <= i * n + n <= |Join(rs)|
    ensures Join(rs)[..i * n] == Join(rs[..i])
    ensures Join(rs)[i * n..i * n + n] == rs[i]
    ensures Join(rs)[i * n + n..] == Join(rs[i + 1..])
  {
    assert rs == rs[..i] + ([rs[i]] + rs[i + 1..]);
    JoinConcat(rs[..i], [rs[i]] + rs[i + 1..]);
    JoinConcat([rs[i]], rs[i + 1..]);
    assert Join([rs[i]]) == rs[i];
    SplitJoin(rs[..i], n);
  }

  // The same in a body of whole records.
  lemma RecordIn(body: seq<Byte>, n: nat, i: nat)
    requires Whole(body, n) && i < |Split(body, n)|
    ensures 0 <= i * n <= i * n + n <= |body|
    ensures body[..i * n] == Join(Split(body, n)[..i])
    ensures body[i * n..i * n + n] == Split(body, n)[i]
    ensures body[i * n + n..] == Join(Split(body, n)[i + 1..])
  {
    assert Join(Split(body, n)) == body by { JoinSplit(body, n); }
    assert AllOfSize(Split(body, n), n) by { SplitSizes(body, n); }
    RecordAt(Split(body, n), n, i);
  }

  lemma JoinUpdate(rs: seq<seq<Byte>>, i: nat, r: seq<Byte>)
    requires i < |rs|
    ensures Join(rs[i := r]) == Join(rs[..i]) + r + Join(rs[i + 1..])
  {
    assert rs[i := r] == rs[..i] + ([r] + rs[i + 1..]);
    JoinConcat(rs[..i], [r] + rs[i + 1..]);
    JoinConcat([r], rs[i + 1..]);
    assert Join([r]) == r;
  }
}
