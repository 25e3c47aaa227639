/** FastCGI records, streams and name-value pairs (fastcgi/fcgiclient.go; sections 3.3 and 3.4 of the
FastCGI Specification 1.0). */
module FastCgi {
  import opened Basics

  type Bytes = seq<byte>

  const MAX_WRITE: nat := 65500
  const END_REQUEST: byte := 3
  const PARAMS: byte := 4
  const STDERR: byte := 7

  datatype Record = Record(kind: byte, content: Bytes) {
    /** The length field holds the length. */
    predicate Fits() {
      |content| < 0x1_0000
    }
  }

  // ----- records -----

  /** -n & 7 */
  function Padding(n: nat): (p: byte)
    ensures p < 8 && (n + p) % 8 == 0
  {
    (8 - n % 8) % 8
  }

  /** Version, type, request id and length with their high bytes first, padding and a reserved byte. */
  function Header(kind: byte, id: nat, length: nat): (h: Bytes)
    ensures |h| == 8 && h[0] == 1 && h[1] == kind && h[6] == Padding(length) && h[7] == 0
    ensures h[2] as int * 256 + h[3] as int == id % 65536 && h[4] as int * 256 + h[5] as int == length % 65536
  {
    HighLow(id);
    HighLow(length);
    [1, kind, id / 0x100 % 0x100, id % 0x100, length / 0x100 % 0x100, length % 0x100, Padding(length), 0]
  }

  lemma {:induction false} HighLow(n: nat)
    ensures 0 <= n / 0x100 % 0x100 < 0x100 && 0 <= n % 0x100 < 0x100
    ensures n / 0x100 % 0x100 * 0x100 + n % 0x100 == n % 65536
  {
    var q, r := n / 65536, n % 65536;
    assert n == 256 * (256 * q + r / 256) + r % 256;
    assert n / 256 == 256 * q + r / 256;
  }

  function Zeros(n: nat): (s: Bytes)
    ensures |s| == n
  {
    seq(n, _ => 0)
  }

  /** What writeRecord sends. */
  function Encode(r: Record, id: nat): (s: Bytes)
    ensures |s| % 8 == 0 && |s| == 8 + |r.content| + Padding(|r.content|)
  {
    Header(r.kind, id, |r.content|) + r.content + Zeros(Padding(|r.content|))
  }

  datatype ReadError = Eof | UnexpectedEof | InvalidVersion

  function Word(high: byte, low: byte): nat {
    high as int * 0x100 + low as int
  }

  /** What record.read gives: a record, or an error; and what is left of the input. */
  datatype Parsed = Got(rec: Record, rest: Bytes) | Failed(error: ReadError, rest: Bytes)

  function Parse(s: Bytes): (r: Parsed)
    ensures r.Got? ==> |r.rest| + 8 <= |s|
  {
    if |s| < 8 then Failed(if s == [] then Eof else UnexpectedEof, [])
    else if s[0] != 1 then Failed(InvalidVersion, s[8..])
    else if s[1] == END_REQUEST then Failed(Eof, s[8..])
    else
      var length := Word(s[4], s[5]);
      var n := length + s[6];
      var body := s[8..];
      if |body| < n then Failed(if body == [] then Eof else UnexpectedEof, [])
      else Got(Record(s[1], body[..length]), body[n..])
  }

  /** A record comes back as it was written, and reading stops right behind its padding. */
  lemma {:induction false} RecordComesBack(r: Record, id: nat, rest: Bytes)
    requires r.Fits() && r.kind != END_REQUEST
    ensures Parse(Encode(r, id) + rest) == Got(r, rest)
  {
    var h, pad := Header(r.kind, id, |r.content|), Zeros(Padding(|r.content|));
    var body := r.content + pad + rest;
    var s := Encode(r, id) + rest;
    assert s == h + body;
    HeaderThen(h, body, s);
    assert Word(h[4], h[5]) == |r.content|;
    assert body[..|r.content|] == r.content && body[|r.content| + |pad|..] == rest;
  }

  lemma {:induction false} HeaderThen(h: Bytes, body: Bytes, s: Bytes)
    requires |h| == 8 && s == h + body
    ensures s[8..] == body && forall i :: 0 <= i < 8 ==> s[i] == h[i]
  {
  }

  /** A record that is cut off is an error: the end of the input if nothing of the header, or nothing behind it, is there. */
  lemma {:induction false} CutRecordFails(r: Record, id: nat, n: nat)
    requires r.Fits() && r.kind != END_REQUEST && n < |Encode(r, id)|
    ensures Parse(Encode(r, id)[..n]) == Failed(if n == 0 || n == 8 then Eof else UnexpectedEof, [])
  {
    if n >= 8 {
      var h, rest := Header(r.kind, id, |r.content|), r.content + Zeros(Padding(|r.content|));
      Associates(h, r.content, Zeros(Padding(|r.content|)));
      CutBehind(h, rest, n);
      CutBody((h + rest)[..n], |r.content|);
    }
  }

  lemma {:induction false} CutBehind(h: Bytes, rest: Bytes, n: nat)
    requires |h| == 8 <= n <= 8 + |rest|
    ensures |(h + rest)[..n]| == n && forall i :: 0 <= i < 8 ==> (h + rest)[..n][i] == h[i]
  {
  }

  /** Behind a good header, a body that is too short is an error. */
  lemma {:induction false} CutBody(s: Bytes, length: nat)
    requires |s| >= 8 && s[0] == 1 && s[1] != END_REQUEST && Word(s[4], s[5]) == length && |s| < 8 + length + s[6] as int
    ensures Parse(s) == Failed(if |s| == 8 then Eof else UnexpectedEof, [])
  {
  }

  /** Another version is refused, and so is nothing else that has a whole record. */
  lemma {:induction false} VersionChecked(s: Bytes)
    requires |s| >= 8
    ensures Parse(s).Failed? && Parse(s).error == InvalidVersion <==> s[0] != 1
  {
  }

  /** The record that ends a request ends the stream. */
  lemma {:induction false} EndComesBack(content: Bytes, id: nat, rest: Bytes)
    ensures Parse(Encode(Record(END_REQUEST, content), id) + rest).Failed?
         && Parse(Encode(Record(END_REQUEST, content), id) + rest).error == Eof
  {
    var h := Header(END_REQUEST, id, |content|);
    var s := Encode(Record(END_REQUEST, content), id) + rest;
    var body := content + Zeros(Padding(|content|)) + rest;
    assert s == h + body;
    HeaderThen(h, body, s);
  }

  function EncodeAll(rs: seq<Record>, id: nat): Bytes {
    if rs == [] then [] else Encode(rs[0], id) + EncodeAll(rs[1..], id)
  }

  lemma {:induction false} EncodeAllConcat(a: seq<Record>, b: seq<Record>, id: nat)
    ensures EncodeAll(a + b, id) == EncodeAll(a, id) + EncodeAll(b, id)
    decreases |a|
  {
    if a == [] {
      assert a + b == b && EncodeAll(a, id) + EncodeAll(b, id) == EncodeAll(b, id);
    } else {
      EncodeAllConcat(a[1..], b, id);
      assert (a + b)[0] == a[0] && (a + b)[1..] == a[1..] + b;
      Associates(Encode(a[0], id), EncodeAll(a[1..], id), EncodeAll(b, id));
    }
  }

  /** The data of a stream of records: everything but standard error. */
  function Output(rs: seq<Record>): Bytes {
    if rs == [] then [] else (if rs[0].kind == STDERR then [] else rs[0].content) + Output(rs[1..])
  }

  function Errors(rs: seq<Record>): Bytes {
    if rs == [] then [] else (if rs[0].kind == STDERR then rs[0].content else []) + Errors(rs[1..])
  }

  // ----- writing a stream -----

  /** The records for a stretch of data: full ones, then the rest. */
  function Chunks(kind: byte, p: Bytes): (rs: seq<Record>)
    decreases |p|
  {
    if p == [] then []
    else
      var n := if |p| > MAX_WRITE then MAX_WRITE else |p|;
      [Record(kind, p[..n])] + Chunks(kind, p[n..])
  }

  /** Cutting loses nothing, no record is empty or too long, and all but the last are full. */
  lemma {:induction false} ChunksAre(kind: byte, p: Bytes)
    ensures forall i :: 0 <= i < |Chunks(kind, p)| ==> Chunks(kind, p)[i].kind == kind && 0 < |Chunks(kind, p)[i].content| <= MAX_WRITE
    ensures forall i :: 0 <= i < |Chunks(kind, p)| - 1 ==> |Chunks(kind, p)[i].content| == MAX_WRITE
    ensures kind != STDERR ==> Output(Chunks(kind, p)) == p
    decreases |p|
  {
    if p != [] {
      var n := if |p| > MAX_WRITE then MAX_WRITE else |p|;
      ChunksAre(kind, p[n..]);
      assert p == p[..n] + p[n..];
      assert Chunks(kind, p)[1..] == Chunks(kind, p[n..]);
    }
  }

  // ----- reading a stream -----

  datatype Reading = Reading(input: Bytes, stderr: Bytes, buf: Bytes)

  /** The next data record, behind any number of standard error records. */
  function NextData(input: Bytes, stderr: Bytes): (r: (Parsed, Bytes))
    ensures r.0.Got? ==> |r.0.rest| + 8 <= |input|
    decreases |input|
  {
    var p := Parse(input);
    if p.Got? && p.rec.kind == STDERR then NextData(p.rest, stderr + p.rec.content) else (p, stderr)
  }

  /** One call of Read with room for size bytes. */
  ghost predicate ReadStep(s: Reading, s': Reading, size: nat, data: Bytes, err: Option<ReadError>) {
    if size == 0 then s' == s && data == [] && err == None
    else if s.buf != [] then Handed(s.buf, s'.buf, size, data) && err == None && s' == s.(buf := s'.buf)
    else
      var (p, stderr) := NextData(s.input, s.stderr);
      && s'.input == p.rest && s'.stderr == stderr
      && match p
         case Failed(e, _) => s'.buf == [] && data == [] && err == Some(e)
         case Got(rec, _) => Handed(rec.content, s'.buf, size, data) && err == None
  }

  /** data is as much of buf as fits, and buf' the rest. */
  ghost predicate Handed(buf: Bytes, buf': Bytes, size: nat, data: Bytes) {
    buf == data + buf' && |data| == if size < |buf| then size else |buf|
  }

  /** Records that are read back as data or as errors. */
  ghost predicate Readable(rs: seq<Record>) {
    forall i :: 0 <= i < |rs| ==> rs[i].Fits() && rs[i].kind != END_REQUEST
  }

  /** The input is what is left of a stream of records, and then something that ends it. */
  ghost predicate Left(input: Bytes, rs: seq<Record>, id: nat, end: Bytes) {
    Readable(rs) && input == EncodeAll(rs, id) + end && Parse(end).Failed?
  }

  lemma {:induction false} FirstLeft(input: Bytes, rs: seq<Record>, id: nat, end: Bytes)
    requires Left(input, rs, id, end)
    ensures if rs == [] then input == end else Parse(input).Got? && Parse(input).rec == rs[0] && Left(Parse(input).rest, rs[1..], id, end)
  {
    if rs == [] {
      assert [] + end == end;
    } else {
      Associates(Encode(rs[0], id), EncodeAll(rs[1..], id), end);
      RecordComesBack(rs[0], id, EncodeAll(rs[1..], id) + end);
    }
  }

  /** Data records come in order, and standard error is collected in order. */
  lemma {:induction false} NextDataIs(input: Bytes, stderr: Bytes, rs: seq<Record>, id: nat, end: Bytes) returns (rs': seq<Record>)
    requires Left(input, rs, id, end)
    ensures var (p, errors) := NextData(input, stderr);
            && stderr + Errors(rs) == errors + Errors(rs')
            && (p.Failed? ==> rs' == [] && Output(rs) == [] && p.error == Parse(end).error)
            && (p.Got? ==> |rs'| < |rs| && Left(p.rest, rs', id, end) && Output(rs) == p.rec.content + Output(rs'))
    decreases |rs|
  {
    FirstLeft(input, rs, id, end);
    if rs == [] {
      rs' := [];
    } else if rs[0].kind == STDERR {
      rs' := NextDataIs(Parse(input).rest, stderr + rs[0].content, rs[1..], id, end);
      Associates(stderr, rs[0].content, Errors(rs[1..]));
      assert [] + Output(rs[1..]) == Output(rs[1..]);
    } else {
      rs' := rs[1..];
      assert [] + Errors(rs') == Errors(rs');
    }
  }

  /** What has been delivered, what is buffered and what is still to come make up the data of the stream. */
  ghost predicate Delivering(s: Reading, delivered: Bytes, rs: seq<Record>, id: nat, end: Bytes, output: Bytes, errors: Bytes) {
    && Left(s.input, rs, id, end)
    && delivered + (s.buf + Output(rs)) == output
    && s.stderr + Errors(rs) == errors
  }

  /** The whole stream has been delivered. */
  ghost predicate Complete(s: Reading, delivered: Bytes, output: Bytes, errors: Bytes) {
    delivered == output && s.stderr == errors
  }

  lemma {:induction false} ReadKeeps(s: Reading, s': Reading, size: nat, data: Bytes, err: Option<ReadError>,
                                     delivered: Bytes, rs: seq<Record>, id: nat, end: Bytes, output: Bytes, errors: Bytes)
    returns (rs': seq<Record>)
    requires ReadStep(s, s', size, data, err) && Delivering(s, delivered, rs, id, end, output, errors)
    ensures err.None? ==> Delivering(s', delivered + data, rs', id, end, output, errors)
    ensures err.None? && size > 0 ==> |data| + |rs| > |rs'|
    ensures err.Some? ==> err.value == Parse(end).error && data == [] && Complete(s', delivered, output, errors)
  {
    rs' := rs;
    if size == 0 {
      assert delivered + [] == delivered;
    } else if s.buf != [] {
      Regroup(delivered, data, s'.buf, Output(rs));
    } else {
      rs' := NextDataIs(s.input, s.stderr, rs, id, end);
      var p := NextData(s.input, s.stderr).0;
      assert s.buf + Output(rs) == Output(rs);
      if p.Failed? {
        assert delivered + [] == delivered && s'.stderr + [] == s'.stderr;
      } else {
        Regroup(delivered, data, s'.buf, Output(rs'));
      }
    }
  }

  lemma {:induction false} Regroup(a: Bytes, b: Bytes, c: Bytes, d: Bytes)
    ensures a + (b + c + d) == a + b + (c + d)
  {
  }

  // ----- the client -----

  class Client {
    const reqID: nat
    var input: Bytes
    var output: Bytes
    var stderr: Bytes

    constructor (reqID: nat, input: Bytes)
      ensures this.reqID == reqID && this.input == input && output == [] && stderr == []
    {
      this.reqID, this.input, output, stderr := reqID, input, [], [];
    }

    method WriteRecord(kind: byte, content: Bytes)
      modifies this`output
      ensures output == old(output) + Encode(Record(kind, content), reqID)
    {
      var buf := Header(kind, reqID, |content|);
      buf := buf + content;
      buf := buf + Zeros(Padding(|content|));
      output := output + buf;
    }
  }

  class StreamWriter {
    const c: Client
    const kind: byte

    constructor (c: Client, kind: byte)
      ensures this.c == c && this.kind == kind
    {
      this.c, this.kind := c, kind;
    }

    method Write(p: Bytes)
      modifies c`output
      ensures c.output == old(c.output) + EncodeAll(Chunks(kind, p), c.reqID)
    {
      var p := p;
      ghost var all := EncodeAll(Chunks(kind, p), c.reqID);
      assert old(c.output) + all == c.output + all;
      while p != []
        invariant old(c.output) + all == c.output + EncodeAll(Chunks(kind, p), c.reqID)
        decreases |p|
      {
        var n := |p|;
        if n > MAX_WRITE {
          n := MAX_WRITE;
        }
        NextChunk(kind, p, n, c.output, c.reqID);
        c.WriteRecord(kind, p[..n]);
        p := p[n..];
      }
      assert c.output + [] == c.output;
    }

    /** The empty record closes the stream. */
    method Close()
      modifies c`output
      ensures c.output == old(c.output) + Encode(Record(kind, []), c.reqID)
    {
      c.WriteRecord(kind, []);
    }
  }

  lemma {:induction false} NextChunk(kind: byte, p: Bytes, n: nat, output: Bytes, id: nat)
    requires p != [] && n == if |p| > MAX_WRITE then MAX_WRITE else |p|
    ensures output + EncodeAll(Chunks(kind, p), id) == output + Encode(Record(kind, p[..n]), id) + EncodeAll(Chunks(kind, p[n..]), id)
  {
    var rs := Chunks(kind, p);
    assert rs[0] == Record(kind, p[..n]) && rs[1..] == Chunks(kind, p[n..]);
    Associates(output, Encode(rs[0], id), EncodeAll(rs[1..], id));
  }

  class StreamReader {
    const c: Client
    var buf: Bytes

    constructor (c: Client)
      ensures this.c == c && buf == []
    {
      this.c, buf := c, [];
    }

    ghost function State(): Reading
      reads this, c
    {
      Reading(c.input, c.stderr, buf)
    }

    /** record.read */
    method ReadRecord() returns (rec: Option<Record>, err: Option<ReadError>)
      modifies c`input
      ensures c.input == Parse(old(c.input)).rest
      ensures match Parse(old(c.input))
              case Got(r, _) => rec == Some(r) && err == None
              case Failed(e, _) => rec == None && err == Some(e)
    {
      var p := Parse(c.input);
      c.input := p.rest;
      match p {
        case Got(r, _) =>
          rec, err := Some(r), None;
        case Failed(e, _) =>
          rec, err := None, Some(e);
      }
    }

    /** Reads records up to the first that is not standard error. */
    method Refill() returns (err: Option<ReadError>)
      requires buf == []
      modifies this, c`input, c`stderr
      ensures var (p, stderr) := NextData(old(c.input), old(c.stderr));
              && c.input == p.rest && c.stderr == stderr
              && match p
                 case Got(r, _) => err == None && buf == r.content
                 case Failed(e, _) => err == Some(e) && buf == []
    {
      ghost var (p, stderr) := NextData(c.input, c.stderr);
      var rec;
      rec, err := ReadRecord();
      while rec.Some? && rec.value.kind == STDERR
        invariant buf == []
        invariant rec.Some? ==> err == None
        invariant rec.None? ==> p.Failed? && err == Some(p.error) && c.input == p.rest && c.stderr == stderr
        invariant rec.Some? && rec.value.kind != STDERR ==> p.Got? && p.rec == rec.value && p.rest == c.input && c.stderr == stderr
        invariant rec.Some? && rec.value.kind == STDERR ==> NextData(c.input, c.stderr + rec.value.content) == (p, stderr)
        decreases |c.input|, rec.Some?
      {
        c.stderr := c.stderr + rec.value.content;
        rec, err := ReadRecord();
      }
      if rec.Some? {
        buf := rec.value.content;
      }
    }

    method Read(p: array<byte>) returns (n: nat, err: Option<ReadError>)
      modifies this, c`input, c`stderr, p
      ensures n <= p.Length && (forall k :: n <= k < p.Length ==> p[k] == old(p[k]))
      ensures ReadStep(old(State()), State(), p.Length, p[..n], err)
    {
      n, err := 0, None;
      if p.Length > 0 {
        if |buf| == 0 {
          err := Refill();
        }
        if err.None? {
          n := if p.Length > |buf| then |buf| else p.Length;
          ghost var before := buf;
          forall k | 0 <= k < n {
            p[k] := buf[k];
          }
          buf := buf[n..];
          assert p[..n] == before[..n];
        }
      }
    }
  }

  /** Reads with the given sizes, until the stream ends. Whatever the sizes, what is read is what was
  written; and enough reads read all of it. */
  method ReadMany(r: StreamReader, sizes: seq<nat>, ghost rs: seq<Record>, ghost id: nat, ghost end: Bytes)
    returns (data: Bytes, err: Option<ReadError>)
    requires r.buf == [] && r.c.stderr == [] && Left(r.c.input, rs, id, end)
    modifies r, r.c`input, r.c`stderr
    ensures data <= Output(rs)
    ensures err.Some? ==> err.value == Parse(end).error && data == Output(rs) && r.c.stderr == Errors(rs)
    ensures (forall k :: 0 <= k < |sizes| ==> sizes[k] > 0) && |sizes| > |Output(rs)| + |rs| ==> err.Some?
  {
    data, err := [], None;
    ghost var left := rs;
    assert [] + ([] + Output(rs)) == Output(rs) && [] + Errors(rs) == Errors(rs);
    var k := 0;
    while k < |sizes| && err.None?
      invariant 0 <= k <= |sizes|
      invariant err.None? ==> Delivering(r.State(), data, left, id, end, Output(rs), Errors(rs))
      invariant err.Some? ==> err.value == Parse(end).error && Complete(r.State(), data, Output(rs), Errors(rs))
      invariant (forall k :: 0 <= k < |sizes| ==> sizes[k] > 0) && err.None? ==> |left| + k <= |data| + |rs|
    {
      var p := new byte[sizes[k]];
      ghost var before := r.State();
      var n;
      n, err := r.Read(p);
      left := ReadKeeps(before, r.State(), p.Length, p[..n], err, data, left, id, end, Output(rs), Errors(rs));
      data := data + p[..n];
      k := k + 1;
    }
  }

  /** Data that is cut into records is a stream from which it is read back. */
  lemma {:induction false} StreamComesBack(kind: byte, p: Bytes, id: nat, end: Bytes)
    requires kind != STDERR && kind != END_REQUEST && Parse(end).Failed?
    ensures Left(EncodeAll(Chunks(kind, p), id) + end, Chunks(kind, p), id, end) && Output(Chunks(kind, p)) == p
  {
    ChunksAre(kind, p);
  }

  /** Writes data as a stream and reads it back from the connection with reads of any sizes. */
  method Transfer(kind: byte, p: Bytes, id: nat, sizes: seq<nat>) returns (data: Bytes, err: Option<ReadError>)
    requires kind != STDERR && kind != END_REQUEST
    ensures data <= p
    ensures err.Some? ==> err.value == Eof && data == p
    ensures (forall k :: 0 <= k < |sizes| ==> sizes[k] > 0) && |sizes| > |p| + |Chunks(kind, p)| + 1 ==> err.Some?
  {
    var c := new Client(id, []);
    var w := new StreamWriter(c, kind);
    w.Write(p);
    w.Close();
    var end := Encode(Record(END_REQUEST, []), id);
    ghost var rs := Chunks(kind, p) + [Record(kind, [])];
    ClosedComesBack(kind, p, id, end);
    var peer := new Client(id, c.output + end);
    var r := new StreamReader(peer);
    assert [] + EncodeAll(Chunks(kind, p), id) == EncodeAll(Chunks(kind, p), id);
    data, err := ReadMany(r, sizes, rs, id, end);
  }

  /** A stream with its closing record, and then the end of the request. */
  lemma {:induction false} ClosedComesBack(kind: byte, p: Bytes, id: nat, end: Bytes)
    requires kind != STDERR && kind != END_REQUEST && end == Encode(Record(END_REQUEST, []), id)
    ensures var rs := Chunks(kind, p) + [Record(kind, [])];
            && Left(EncodeAll(Chunks(kind, p), id) + Encode(Record(kind, []), id) + end, rs, id, end)
            && Output(rs) == p && Parse(end).Failed? && Parse(end).error == Eof
  {
    var last := Record(kind, []);
    ChunksAre(kind, p);
    LoneRecord(last, id);
    OutputConcat(Chunks(kind, p), [last]);
    assert p + [] == p;
    EncodeAllConcat(Chunks(kind, p), [last], id);
    EndComesBack([], id, []);
    assert end + [] == end;
  }

  lemma {:induction false} LoneRecord(r: Record, id: nat)
    ensures EncodeAll([r], id) == Encode(r, id)
    ensures r.kind != STDERR ==> Output([r]) == r.content
  {
    assert [r][1..] == [] && Encode(r, id) + [] == Encode(r, id) && r.content + [] == r.content;
  }

  lemma {:induction false} OutputConcat(a: seq<Record>, b: seq<Record>)
    ensures Output(a + b) == Output(a) + Output(b)
    decreases |a|
  {
    if a == [] {
      assert a + b == b;
    } else {
      OutputConcat(a[1..], b);
      assert (a + b)[0] == a[0] && (a + b)[1..] == a[1..] + b;
      Associates(if a[0].kind == STDERR then [] else a[0].content, Output(a[1..]), Output(b));
    }
  }

  // ----- name-value pairs -----

  datatype Pair = Pair(name: Bytes, value: Bytes)

  function EncodeSize(n: nat): (s: Bytes)
    requires n < 0x8000_0000
    ensures |s| == 1 || |s| == 4
  {
    if n > 127 then [0x80 + n / 0x100_0000, n / 0x1_0000 % 0x100, n / 0x100 % 0x100, n % 0x100] else [n]
  }

  predicate Small(p: Pair) {
    |p.name| < 0x8000_0000 && |p.value| < 0x8000_0000
  }

  function EncodePair(p: Pair): Bytes
    requires Small(p)
  {
    EncodeSize(|p.name|) + EncodeSize(|p.value|) + p.name + p.value
  }

  predicate AllSmall(ps: seq<Pair>) {
    forall i :: 0 <= i < |ps| ==> Small(ps[i])
  }

  function EncodePairs(ps: seq<Pair>): Bytes
    requires AllSmall(ps)
  {
    if ps == [] then [] else EncodePair(ps[0]) + EncodePairs(ps[1..])
  }

  /** Section 3.4 of the FastCGI Specification 1.0: one byte, or four with the top bit set. */
  function DecodeSize(s: Bytes): Option<(nat, Bytes)> {
    if s == [] then None
    else if s[0] < 0x80 then Some((s[0] as nat, s[1..]))
    else if |s| < 4 then None
    else Some(((s[0] as int - 0x80) * 0x100_0000 + s[1] as int * 0x1_0000 + s[2] as int * 0x100 + s[3] as int, s[4..]))
  }

  function DecodePair(s: Bytes): (r: Option<(Pair, Bytes)>)
    ensures r.Some? ==> |r.value.1| < |s|
  {
    match DecodeSize(s)
    case None => None
    case Some((n, s1)) =>
      match DecodeSize(s1)
      case None => None
      case Some((m, s2)) =>
        if |s2| < n + m then None else Some((Pair(s2[..n], s2[n..n + m]), s2[n + m..]))
  }

  function DecodePairs(s: Bytes): Option<seq<Pair>>
    decreases |s|
  {
    if s == [] then Some([])
    else
      match DecodePair(s)
      case None => None
      case Some((p, rest)) =>
        match DecodePairs(rest)
        case None => None
        case Some(ps) => Some([p] + ps)
  }

  lemma {:induction false} Digits(n: nat)
    ensures n / 0x100_0000 * 0x100_0000 + n / 0x1_0000 % 0x100 * 0x1_0000 + n / 0x100 % 0x100 * 0x100 + n % 0x100 == n
  {
    var a := n / 0x100;
    var b := a / 0x100;
    assert n / 0x1_0000 == b && n / 0x100_0000 == b / 0x100;
  }

  lemma {:induction false} SizeComesBack(n: nat, rest: Bytes)
    requires n < 0x8000_0000
    ensures DecodeSize(EncodeSize(n) + rest) == Some((n, rest))
  {
    var s := EncodeSize(n) + rest;
    if n > 127 {
      Digits(n);
      assert s[4..] == rest;
    } else {
      assert s[1..] == rest;
    }
  }

  lemma {:induction false} PairComesBack(p: Pair, rest: Bytes)
    requires Small(p)
    ensures DecodePair(EncodePair(p) + rest) == Some((p, rest))
  {
    var n, m := EncodeSize(|p.name|), EncodeSize(|p.value|);
    var s2 := p.name + p.value + rest;
    assert EncodePair(p) + rest == n + (m + s2) by {
      Nested(n, m, p.name, p.value, rest);
    }
    SizeComesBack(|p.name|, m + s2);
    SizeComesBack(|p.value|, s2);
    Cut(p.name, p.value, rest);
  }

  lemma {:induction false} Nested(a: Bytes, b: Bytes, c: Bytes, d: Bytes, e: Bytes)
    ensures a + b + c + d + e == a + (b + (c + d + e))
  {
  }

  lemma {:induction false} Cut(a: Bytes, b: Bytes, c: Bytes)
    ensures var s := a + b + c; s[..|a|] == a && s[|a|..|a| + |b|] == b && s[|a| + |b|..] == c
  {
  }

  /** The pairs of one record are read back from that record alone. */
  lemma {:induction false} PairsComeBack(ps: seq<Pair>)
    requires AllSmall(ps)
    ensures DecodePairs(EncodePairs(ps)) == Some(ps)
    decreases |ps|
  {
    if ps != [] {
      PairComesBack(ps[0], EncodePairs(ps[1..]));
      PairsComeBack(ps[1..]);
      assert [ps[0]] + ps[1..] == ps;
    }
  }

  /** The pair that is sent: a value that is too long is cut off. */
  function Shortened(p: Pair): (q: Pair)
    requires |p.name| <= MAX_WRITE - 8
    ensures q.name == p.name && q.value <= p.value && Small(q) && |EncodePair(q)| <= MAX_WRITE
    ensures q == p <==> 8 + |p.name| + |p.value| <= MAX_WRITE
    ensures q != p ==> 8 + |q.name| + |q.value| == MAX_WRITE
  {
    if 8 + |p.name| + |p.value| > MAX_WRITE then Pair(p.name, p.value[..MAX_WRITE - 8 - |p.name|]) else p
  }

  /** Eight bytes are set aside for the two sizes. A pair that needs fewer may fit a record and be cut all
  the same: exactly when one of its sizes takes a single byte and its length is one of three. */
  lemma {:induction false} CutAlthoughItFits(p: Pair)
    requires |p.name| <= MAX_WRITE - 8 && Small(p)
    ensures |EncodePair(p)| <= MAX_WRITE && Shortened(p) != p
       <==> (|p.name| <= 127 || |p.value| <= 127) && MAX_WRITE - 8 < |p.name| + |p.value| <= MAX_WRITE - 5
  {
    EncodedLength(p);
  }

  lemma {:induction false} EncodedLength(p: Pair)
    requires Small(p)
    ensures |EncodePair(p)| == (if |p.name| > 127 then 4 else 1) + (if |p.value| > 127 then 4 else 1) + |p.name| + |p.value|
  {
  }

  /** A pair that fills a record exactly loses the last three bytes of its value. */
  lemma {:induction false} CutExample(value: Bytes)
    requires |value| == 65494
    ensures var p := Pair([0], value);
            |EncodePair(p)| == MAX_WRITE && Shortened(p) == Pair([0], value[..65491]) && Shortened(p) != p
  {
    EncodedLength(Pair([0], value));
  }

  /** Pairs that fit into one record. */
  ghost predicate GroupOk(g: seq<Pair>) {
    g != [] && AllSmall(g) && |EncodePairs(g)| <= MAX_WRITE
  }

  ghost predicate AllGroups(groups: seq<seq<Pair>>) {
    forall i :: 0 <= i < |groups| ==> GroupOk(groups[i])
  }

  /** A new record is begun only for a pair that does not fit the last one. */
  ghost predicate Tight(groups: seq<seq<Pair>>)
    requires AllGroups(groups)
  {
    forall i :: 0 <= i < |groups| - 1 ==> NeedsNew(groups[i], groups[i + 1])
  }

  ghost predicate NeedsNew(g: seq<Pair>, h: seq<Pair>)
    requires AllSmall(g) && AllSmall(h)
  {
    h != [] && |EncodePairs(g)| + |EncodePair(h[0])| > MAX_WRITE
  }

  /** The groups with the open one behind them. */
  ghost function WithOpen(groups: seq<seq<Pair>>, group: seq<Pair>): seq<seq<Pair>> {
    if group == [] then groups else groups + [group]
  }

  /** One record for each group of pairs. */
  ghost function RecordsOf(groups: seq<seq<Pair>>): seq<Record>
    requires AllGroups(groups)
  {
    if groups == [] then []
    else
      var n := |groups| - 1;
      RecordsOf(groups[..n]) + [Record(PARAMS, EncodePairs(groups[n]))]
  }

  ghost function ShortenedAll(ps: seq<Pair>): seq<Pair>
    requires forall i :: 0 <= i < |ps| ==> |ps[i].name| <= MAX_WRITE - 8
  {
    if ps == [] then []
    else
      var n := |ps| - 1;
      ShortenedAll(ps[..n]) + [Shortened(ps[n])]
  }

  ghost function Flatten(groups: seq<seq<Pair>>): seq<Pair> {
    if groups == [] then [] else Flatten(groups[..|groups| - 1]) + groups[|groups| - 1]
  }

  lemma {:induction false} EncodePairsSnoc(ps: seq<Pair>, p: Pair)
    requires Small(p) && AllSmall(ps)
    ensures EncodePairs(ps + [p]) == EncodePairs(ps) + EncodePair(p)
    decreases |ps|
  {
    if ps == [] {
      assert [] + [p] == [p] && EncodePair(p) + [] == EncodePair(p) && [p][1..] == [];
    } else {
      EncodePairsSnoc(ps[1..], p);
      assert (ps + [p])[0] == ps[0] && (ps + [p])[1..] == ps[1..] + [p];
      Associates(EncodePair(ps[0]), EncodePairs(ps[1..]), EncodePair(p));
    }
  }

  /** A buffered writer of MAX_WRITE bytes in front of a stream writer. */
  class BufWriter {
    const w: StreamWriter
    var buf: Bytes
    // the records written through to the stream
    ghost var sent: seq<Record>

    constructor (w: StreamWriter)
      ensures this.w == w && buf == [] && sent == []
    {
      this.w, buf, sent := w, [], [];
    }

    ghost predicate Valid(base: Bytes)
      reads this, w.c
    {
      |buf| <= MAX_WRITE && w.c.output == base + EncodeAll(sent, w.c.reqID)
    }

    method Flush(ghost base: Bytes)
      requires Valid(base)
      modifies this, w.c`output
      ensures Valid(base) && buf == []
      ensures sent == old(sent) + if old(buf) == [] then [] else [Record(w.kind, old(buf))]
    {
      if |buf| > 0 {
        w.Write(buf);
        FlushedOne(base, sent, w.kind, buf, w.c.reqID);
        sent := sent + [Record(w.kind, buf)];
        buf := [];
      }
    }

    /** Fills the buffer from a block that does not fit, and flushes it. */
    method Fill(p: Bytes, ghost base: Bytes) returns (more: Bytes)
      requires Valid(base) && |p| > MAX_WRITE - |buf|
      modifies this, w.c`output
      ensures Valid(base) && buf == [] && |more| <= |p| && (|old(buf)| < MAX_WRITE ==> |more| < |p|)
      ensures Gathered(sent) + buf + more == old(Gathered(sent) + buf) + p
    {
      var n := MAX_WRITE - |buf|;
      FillAndFlush(sent, buf, p, n, w.kind);
      buf := buf + p[..n];
      more := p[n..];
      Flush(base);
    }

    /** Writes a block to the stream without the buffer. */
    method Through(p: Bytes, ghost base: Bytes)
      requires Valid(base) && buf == []
      modifies this`sent, w.c`output
      ensures Valid(base) && Gathered(sent) + buf + [] == old(Gathered(sent) + buf) + p
    {
      w.Write(p);
      WrittenThrough(base, sent, w.kind, p, w.c.reqID);
      sent := sent + Chunks(w.kind, p);
    }

    /** A block that does not fit fills the buffer; but a block in front of an empty buffer goes straight through. */
    method Write(p: Bytes, ghost base: Bytes)
      requires Valid(base)
      modifies this, w.c`output
      ensures Valid(base)
      ensures |old(buf)| + |p| <= MAX_WRITE ==> sent == old(sent) && buf == old(buf) + p
      ensures Gathered(sent) + buf == old(Gathered(sent) + buf) + p
    {
      var more := p;
      ghost var all := Gathered(sent) + buf + p;
      while |more| > MAX_WRITE - |buf|
        invariant Valid(base)
        invariant |old(buf)| + |p| <= MAX_WRITE ==> sent == old(sent) && buf == old(buf) && more == p
        invariant Gathered(sent) + buf + more == all
        decreases |more|, |buf|
      {
        if |buf| == 0 {
          Through(more, base);
          more := [];
        } else {
          more := Fill(more, base);
        }
      }
      Associates(Gathered(sent), buf, more);
      buf := buf + more;
    }

    /** A string that does not fit fills the buffer. */
    method WriteString(p: Bytes, ghost base: Bytes)
      requires Valid(base)
      modifies this, w.c`output
      ensures Valid(base)
      ensures |old(buf)| + |p| <= MAX_WRITE ==> sent == old(sent) && buf == old(buf) + p
      ensures Gathered(sent) + buf == old(Gathered(sent) + buf) + p
    {
      var more := p;
      ghost var all := Gathered(sent) + buf + p;
      while |more| > MAX_WRITE - |buf|
        invariant Valid(base)
        invariant |old(buf)| + |p| <= MAX_WRITE ==> sent == old(sent) && buf == old(buf) && more == p
        invariant Gathered(sent) + buf + more == all
        decreases |more|, |buf|
      {
        more := Fill(more, base);
      }
      Associates(Gathered(sent), buf, more);
      buf := buf + more;
    }
  }

  /** The data of the records. */
  ghost function Gathered(rs: seq<Record>): Bytes {
    if rs == [] then [] else Gathered(rs[..|rs| - 1]) + rs[|rs| - 1].content
  }

  lemma {:induction false} FillAndFlush(sent: seq<Record>, buf: Bytes, p: Bytes, n: nat, kind: byte)
    requires n <= |p|
    ensures Gathered(sent) + buf + p == Gathered(sent + [Record(kind, buf + p[..n])]) + [] + p[n..]
  {
    var r := Record(kind, buf + p[..n]);
    assert (sent + [r])[..|sent|] == sent;
    assert Gathered(sent + [r]) == Gathered(sent) + r.content;
    assert p == p[..n] + p[n..];
  }

  lemma {:induction false} WrittenThrough(base: Bytes, sent: seq<Record>, kind: byte, p: Bytes, id: nat)
    ensures base + EncodeAll(sent, id) + EncodeAll(Chunks(kind, p), id) == base + EncodeAll(sent + Chunks(kind, p), id)
    ensures Gathered(sent) + [] + p == Gathered(sent + Chunks(kind, p)) + [] + []
  {
    EncodeAllConcat(sent, Chunks(kind, p), id);
    Associates(base, EncodeAll(sent, id), EncodeAll(Chunks(kind, p), id));
    GatheredChunks(sent, kind, p);
  }

  lemma {:induction false} GatheredSnoc(sent: seq<Record>, r: Record)
    ensures Gathered(sent + [r]) == Gathered(sent) + r.content
  {
    assert (sent + [r])[..|sent|] == sent;
  }

  lemma {:induction false} GatheredChunks(sent: seq<Record>, kind: byte, p: Bytes)
    ensures Gathered(sent + Chunks(kind, p)) == Gathered(sent) + p
    decreases |p|
  {
    if p == [] {
      assert sent + [] == sent && Gathered(sent) + [] == Gathered(sent);
    } else {
      var n := if |p| > MAX_WRITE then MAX_WRITE else |p|;
      var r, rest := Record(kind, p[..n]), Chunks(kind, p[n..]);
      GatheredChunks(sent + [r], kind, p[n..]);
      GatheredSnoc(sent, r);
      Associates(sent, [r], rest);
      Associates(Gathered(sent), p[..n], p[n..]);
      assert p[..n] + p[n..] == p;
    }
  }

  lemma {:induction false} FlushedOne(base: Bytes, sent: seq<Record>, kind: byte, buf: Bytes, id: nat)
    requires 0 < |buf| <= MAX_WRITE
    ensures base + EncodeAll(sent, id) + EncodeAll(Chunks(kind, buf), id) == base + EncodeAll(sent + [Record(kind, buf)], id)
  {
    var one := [Record(kind, buf)];
    assert buf[..|buf|] == buf && buf[|buf|..] == [];
    assert Chunks(kind, buf) == one;
    EncodeAllConcat(sent, one, id);
    Associates(base, EncodeAll(sent, id), EncodeAll(one, id));
  }

  lemma {:induction false} GroupDone(groups: seq<seq<Pair>>, group: seq<Pair>)
    requires AllGroups(groups) && GroupOk(group)
    ensures AllGroups(groups + [group])
    ensures RecordsOf(groups + [group]) == RecordsOf(groups) + [Record(PARAMS, EncodePairs(group))]
    ensures Flatten(groups + [group]) == Flatten(groups) + group
  {
    assert (groups + [group])[..|groups|] == groups;
  }

  lemma {:induction false} RecordAt(groups: seq<seq<Pair>>, i: nat)
    requires AllGroups(groups) && i <= |groups|
    ensures |RecordsOf(groups)| == |groups|
    ensures i < |groups| ==> GroupOk(groups[i]) && RecordsOf(groups)[i].content == EncodePairs(groups[i])
    decreases |groups|
  {
    if groups != [] {
      var n := |groups| - 1;
      RecordAt(groups[..n], if i < n then i else n);
    }
  }

  /** No pair straddles two records: every record alone gives back the pairs of its group. */
  lemma {:induction false} RecordHoldsGroup(groups: seq<seq<Pair>>, i: nat)
    requires AllGroups(groups) && i < |groups|
    ensures |RecordsOf(groups)| == |groups| && DecodePairs(RecordsOf(groups)[i].content) == Some(groups[i])
  {
    RecordAt(groups, i);
    PairsComeBack(groups[i]);
  }

  lemma {:induction false} PairDone(ps: seq<Pair>, i: nat)
    requires i < |ps| && (forall k :: 0 <= k < |ps| ==> |ps[k].name| <= MAX_WRITE - 8)
    ensures ShortenedAll(ps[..i + 1]) == ShortenedAll(ps[..i]) + [Shortened(ps[i])]
  {
    assert ps[..i + 1][..i] == ps[..i];
  }

  /** The groups have been sent, and the open group is in the buffer. */
  ghost predicate Writing(w: BufWriter, base: Bytes, groups: seq<seq<Pair>>, group: seq<Pair>)
    reads w, w.w.c
  {
    && w.Valid(base) && w.w.kind == PARAMS
    && AllGroups(groups) && w.sent == RecordsOf(groups)
    && AllSmall(group) && w.buf == EncodePairs(group)
    && AllGroups(WithOpen(groups, group)) && Tight(WithOpen(groups, group))
  }

  /** Closes the open group. */
  method CloseGroup(w: BufWriter, ghost base: Bytes, ghost groups: seq<seq<Pair>>, ghost group: seq<Pair>)
    returns (ghost groups': seq<seq<Pair>>)
    requires Writing(w, base, groups, group)
    modifies w, w.w.c`output
    ensures Writing(w, base, groups', []) && w.buf == [] && Flatten(groups') == Flatten(groups) + group && groups' == WithOpen(groups, group)
  {
    groups' := groups;
    if group == [] {
      assert Flatten(groups) + [] == Flatten(groups);
    } else {
      EncodedSome(group);
      GroupDone(groups, group);
      groups' := groups + [group];
    }
    w.Flush(base);
  }

  lemma {:induction false} EncodedSome(group: seq<Pair>)
    requires AllSmall(group) && group != []
    ensures EncodePairs(group) != []
  {
  }

  /** A pair that fits joins the open group; one that does not begins a new group behind it. */
  lemma {:induction false} TightMore(groups: seq<seq<Pair>>, group: seq<Pair>, groups': seq<seq<Pair>>, group': seq<Pair>, p: Pair)
    requires AllGroups(WithOpen(groups, group)) && Tight(WithOpen(groups, group)) && AllSmall(group) && Small(p) && |EncodePair(p)| <= MAX_WRITE
    requires group == [] ==> groups == []
    requires if |EncodePairs(group)| + |EncodePair(p)| > MAX_WRITE then groups' == WithOpen(groups, group) && group' == []
             else groups' == groups && group' == group
    ensures AllSmall(group' + [p]) && AllGroups(WithOpen(groups', group' + [p])) && Tight(WithOpen(groups', group' + [p]))
  {
    EncodePairsSnoc(group', p);
    if group' == [] {
      assert group' + [p] == [p];
      OnePair(p);
      TightSnoc(groups', [p]);
    } else {
      assert (group + [p])[0] == group[0];
      TightFront(groups, group);
      TightSnoc(groups, group + [p]);
    }
  }

  lemma {:induction false} OnePair(p: Pair)
    requires Small(p)
    ensures EncodePairs([p]) == EncodePair(p)
  {
    assert [p][1..] == [] && EncodePair(p) + [] == EncodePair(p);
  }

  lemma {:induction false} TightFront(groups: seq<seq<Pair>>, group: seq<Pair>)
    requires AllGroups(groups + [group]) && Tight(groups + [group])
    ensures AllGroups(groups) && GroupOk(group) && Tight(groups) && (groups != [] ==> NeedsNew(groups[|groups| - 1], group))
  {
    var all := groups + [group];
    assert all[|groups|] == group && forall i :: 0 <= i < |groups| ==> groups[i] == all[i];
    if groups != [] {
      assert NeedsNew(all[|groups| - 1], all[|groups| - 1 + 1]);
    }
  }

  lemma {:induction false} TightSnoc(groups: seq<seq<Pair>>, group: seq<Pair>)
    requires AllGroups(groups) && Tight(groups) && GroupOk(group) && (groups != [] ==> NeedsNew(groups[|groups| - 1], group))
    ensures AllGroups(groups + [group]) && Tight(groups + [group])
  {
    var all := groups + [group];
    assert AllGroups(all);
    forall i | 0 <= i < |all| - 1 ensures NeedsNew(all[i], all[i + 1]) {
      if i < |groups| - 1 {
        assert all[i] == groups[i] && all[i + 1] == groups[i + 1];
      } else {
        assert all[i] == groups[|groups| - 1] && all[i + 1] == group;
      }
    }
  }

  /** Writes one pair, in a new record if it does not fit. */
  method WritePair(w: BufWriter, p: Pair, nn: nat, ghost base: Bytes, ghost groups: seq<seq<Pair>>, ghost group: seq<Pair>)
    returns (nn': nat, ghost groups': seq<seq<Pair>>, ghost group': seq<Pair>)
    requires Writing(w, base, groups, group) && nn == |w.buf| && Small(p) && |EncodePair(p)| <= MAX_WRITE && (group == [] ==> groups == [])
    modifies w, w.w.c`output
    ensures Writing(w, base, groups', group') && nn' == |w.buf| && group' != []
    ensures Flatten(groups') + group' == Flatten(groups) + group + [p]
  {
    var b := EncodeSize(|p.name|) + EncodeSize(|p.value|);
    var m := |b| + |p.name| + |p.value|;
    nn', groups', group' := nn, groups, group;
    if nn + m > MAX_WRITE {
      groups' := CloseGroup(w, base, groups, group);
      assert Flatten(groups') + [] == Flatten(groups');
      nn', group' := 0, [];
    }
    nn' := nn' + m;
    EncodePairsSnoc(group', p);
    TightMore(groups, group, groups', group', p);
    Associates(Flatten(groups'), group', [p]);
    AppendPair(w, b, p, base);
    group' := group' + [p];
  }

  method AppendPair(w: BufWriter, b: Bytes, p: Pair, ghost base: Bytes)
    requires Small(p) && b == EncodeSize(|p.name|) + EncodeSize(|p.value|)
    requires w.Valid(base) && |w.buf| + |EncodePair(p)| <= MAX_WRITE
    modifies w, w.w.c`output
    ensures w.Valid(base) && w.sent == old(w.sent) && w.buf == old(w.buf) + EncodePair(p)
  {
    w.Write(b, base);
    w.WriteString(p.name, base);
    w.WriteString(p.value, base);
  }

  /** Writes the pairs in the order in which the map is walked. Each pair lies within one record. */
  method WritePairs(c: Client, pairs: seq<Pair>) returns (ghost groups: seq<seq<Pair>>)
    requires forall i :: 0 <= i < |pairs| ==> |pairs[i].name| <= MAX_WRITE - 8
    modifies c`output
    ensures AllGroups(groups) && Tight(groups) && Flatten(groups) == ShortenedAll(pairs)
    ensures c.output == old(c.output) + EncodeAll(RecordsOf(groups), c.reqID) + Encode(Record(PARAMS, []), c.reqID)
  {
    var s := new StreamWriter(c, PARAMS);
    var w := new BufWriter(s);
    ghost var base := c.output;
    assert base + [] == base;
    groups := [];
    ghost var group := [];
    var nn, i := 0, 0;
    while i < |pairs|
      invariant 0 <= i <= |pairs| && Writing(w, base, groups, group) && nn == |w.buf|
      invariant Flatten(groups) + group == ShortenedAll(pairs[..i]) && (group == [] ==> groups == [])
    {
      PairDone(pairs, i);
      nn, groups, group := WritePair(w, Shortened(pairs[i]), nn, base, groups, group);
      i := i + 1;
    }
    assert pairs[..i] == pairs;
    groups := CloseGroup(w, base, groups, group);
    s.Close();
  }
}
