/** Cutting stream data into frames (stream_framer.go).

Retransmissions come first: queued frames are sent again, the last one split if it does not fit.
New data follows, stream by stream, as far as flow control allows.
*/
module StreamFramer {
  import opened Basics
  import opened Frames
  import opened Streams
  import opened FlowControl

  const CRYPTO_STREAM: nat := 1

  // ----- frame sizes -----

  function StreamIDLen(id: nat): nat {
    if id < 0x100 then 1 else if id < 0x1_0000 then 2 else if id < 0x100_0000 then 3 else 4
  }

  function OffsetLen(offset: nat): nat {
    if offset == 0 then 0
    else if offset < 0x1_0000 then 2
    else if offset < 0x100_0000 then 3
    else if offset < 0x1_0000_0000 then 4
    else if offset < 0x100_0000_0000 then 5
    else if offset < 0x1_0000_0000_0000 then 6
    else if offset < 0x100_0000_0000_0000 then 7
    else 8
  }

  function Pow256(n: nat): nat {
    if n == 0 then 1 else 0x100 * Pow256(n - 1)
  }

  /** Ids and offsets take as few bytes as they can: an id from one to four, an offset none at zero, else from two to eight. */
  lemma {:induction false} LeastLengths(id: nat, offset: nat)
    requires id < Pow256(4) && offset < Pow256(8)
    ensures var n := StreamIDLen(id); 1 <= n <= 4 && id < Pow256(n) && (n > 1 ==> Pow256(n - 1) <= id)
    ensures var n := OffsetLen(offset);
            && (n == 0 <==> offset == 0) && n != 1 && n <= 8 && offset < Pow256(n) && (n > 2 ==> Pow256(n - 1) <= offset)
  {
    assert Pow256(1) == 0x100 && Pow256(2) == 0x1_0000 && Pow256(3) == 0x100_0000 && Pow256(4) == 0x1_0000_0000;
    assert Pow256(5) == 0x100 * Pow256(4) && Pow256(6) == 0x100 * Pow256(5) && Pow256(7) == 0x100 * Pow256(6) && Pow256(8) == 0x100 * Pow256(7);
  }

  /** The length of a frame's header. */
  function MinLength(f: StreamFrame): nat {
    1 + StreamIDLen(f.streamID) + OffsetLen(f.offset) + (if f.dataLenPresent then 2 else 0)
  }

  function WireLen(f: StreamFrame): nat {
    MinLength(f) + |f.data|
  }

  function TotalLen(fs: seq<StreamFrame>): nat {
    if fs == [] then 0 else TotalLen(fs[..|fs| - 1]) + WireLen(fs[|fs| - 1])
  }

  lemma {:induction false} TotalLenAppend(fs: seq<StreamFrame>, f: StreamFrame)
    ensures TotalLen(fs + [f]) == TotalLen(fs) + WireLen(f)
  {
    assert (fs + [f])[..|fs|] == fs;
  }

  lemma {:induction false} TotalLenConcat(a: seq<StreamFrame>, b: seq<StreamFrame>)
    ensures TotalLen(a + b) == TotalLen(a) + TotalLen(b)
    decreases |b|
  {
    if b == [] {
      assert a + b == a;
    } else {
      var n := |b| - 1;
      TotalLenConcat(a, b[..n]);
      assert a + b == (a + b[..n]) + [b[n]];
      TotalLenAppend(a + b[..n], b[n]);
    }
  }

  // ----- what frames carry -----

  datatype Atom = ByteAt(streamID: nat, offset: nat, b: byte) | FinAt(streamID: nat, offset: nat)

  /** The bytes of a frame with their stream and offset, then its FIN mark. */
  function Atoms(f: StreamFrame): seq<Atom> {
    ByteAtoms(f) + (if f.fin then [FinAt(f.streamID, f.End())] else [])
  }

  function ByteAtoms(f: StreamFrame): seq<Atom> {
    seq(|f.data|, i requires 0 <= i < |f.data| => ByteAt(f.streamID, f.offset + i, f.data[i]))
  }

  function Content(fs: seq<StreamFrame>): seq<Atom> {
    if fs == [] then [] else Atoms(fs[0]) + Content(fs[1..])
  }

  lemma {:induction false} ContentConcat(a: seq<StreamFrame>, b: seq<StreamFrame>)
    ensures Content(a + b) == Content(a) + Content(b)
    decreases |a|
  {
    if a == [] {
      assert a + b == b;
    } else {
      ContentConcat(a[1..], b);
      assert (a + b)[1..] == a[1..] + b;
    }
  }

  lemma {:induction false} ContentSingle(f: StreamFrame)
    ensures Content([f]) == Atoms(f)
  {
    assert Content([f]) == Atoms(f) + [];
  }

  /** The first n bytes of a frame as a frame of their own, without the FIN mark. */
  function SplitHead(f: StreamFrame, n: nat): StreamFrame
    requires n <= |f.data|
  {
    f.(data := f.data[..n], fin := false)
  }

  /** A split frame and the rest carry exactly what the frame carried. */
  lemma {:induction false} SplitConserves(f: StreamFrame, n: nat)
    requires n <= |f.data|
    ensures Atoms(SplitHead(f, n)) + Atoms(f.DropHead(n)) == Atoms(f)
  {
    var a, b, fin := ByteAtoms(SplitHead(f, n)), ByteAtoms(f.DropHead(n)), if f.fin then [FinAt(f.streamID, f.End())] else [];
    SplitBytes(f, n);
    Associates(a, b, fin);
    assert a + [] == a;
  }

  lemma {:induction false} SplitBytes(f: StreamFrame, n: nat)
    requires n <= |f.data|
    ensures ByteAtoms(SplitHead(f, n)) + ByteAtoms(f.DropHead(n)) == ByteAtoms(f)
  {
    var a, b := ByteAtoms(SplitHead(f, n)), ByteAtoms(f.DropHead(n));
    forall i | 0 <= i < |f.data| ensures (a + b)[i] == ByteAtoms(f)[i] {
      if i >= n {
        assert (a + b)[i] == b[i - n] && f.DropHead(n).data[i - n] == f.data[i];
      }
    }
  }

  /** p carries part of f; only a part reaching f's end carries its FIN mark. */
  ghost predicate PartOf(p: StreamFrame, f: StreamFrame) {
    p.PieceOf(f) && (p.fin ==> f.fin && p.End() == f.End()) && (|p.data| > 0 || p.fin || (p.data == f.data && p.fin == f.fin))
  }

  ghost predicate PartsOf(ps: seq<StreamFrame>, fs: seq<StreamFrame>) {
    forall i :: 0 <= i < |ps| ==> exists j :: 0 <= j < |fs| && PartOf(ps[i], fs[j])
  }

  function Mark(f: StreamFrame): StreamFrame {
    f.(dataLenPresent := true)
  }

  /** The queue after popping: n whole frames went out in order, then possibly the first k bytes
  of the next one. */
  ghost predicate PoppedAt(queue: seq<StreamFrame>, res: seq<StreamFrame>, rest: seq<StreamFrame>, n: nat, k: nat) {
    && n <= |queue| && n <= |res|
    && (forall i :: 0 <= i < n ==> res[i] == Mark(queue[i]))
    && if k == 0 then
         |res| == n && rest == queue[n..]
       else
         && n < |queue| && k < |queue[n].data|
         && res == res[..n] + [SplitHead(Mark(queue[n]), k)]
         && rest == [Mark(queue[n]).DropHead(k)] + queue[n + 1..]
  }

  lemma {:induction false} PoppedConserves(queue: seq<StreamFrame>, res: seq<StreamFrame>, rest: seq<StreamFrame>, n: nat, k: nat)
    requires PoppedAt(queue, res, rest, n, k)
    ensures Content(res) + Content(rest) == Content(queue)
    ensures PartsOf(res + rest, queue)
  {
    ContentMarked(queue[..n], res[..n]);
    assert queue == queue[..n] + queue[n..];
    ContentConcat(queue[..n], queue[n..]);
    if k == 0 {
      assert res[..n] == res;
    } else {
      var head := SplitHead(Mark(queue[n]), k);
      ContentConcat(res[..n], [head]);
      ContentSingle(head);
      assert queue[n..][0] == queue[n] && queue[n..][1..] == queue[n + 1..];
      SplitFirst(queue[n..], k, rest);
      Associates(Content(res[..n]), Atoms(head), Content(rest));
    }
    PoppedParts(queue, res, rest, n, k);
  }

  /** Splitting the first frame of a queue keeps the content of the queue. */
  lemma {:induction false} SplitFirst(queue: seq<StreamFrame>, k: nat, rest: seq<StreamFrame>)
    requires queue != [] && 0 < k < |queue[0].data| && rest == [Mark(queue[0]).DropHead(k)] + queue[1..]
    ensures Atoms(SplitHead(Mark(queue[0]), k)) + Content(rest) == Content(queue)
  {
    var f := Mark(queue[0]);
    SplitConserves(f, k);
    assert rest[1..] == queue[1..] && Atoms(f) == Atoms(queue[0]);
  }

  lemma {:induction false} ContentMarked(a: seq<StreamFrame>, b: seq<StreamFrame>)
    requires |a| == |b| && forall i :: 0 <= i < |a| ==> b[i] == Mark(a[i])
    ensures Content(a) == Content(b)
    decreases |a|
  {
    if a != [] {
      ContentMarked(a[1..], b[1..]);
      assert Atoms(a[0]) == Atoms(b[0]);
    }
  }

  lemma {:induction false} PoppedParts(queue: seq<StreamFrame>, res: seq<StreamFrame>, rest: seq<StreamFrame>, n: nat, k: nat)
    requires PoppedAt(queue, res, rest, n, k)
    ensures PartsOf(res + rest, queue)
  {
    forall i | 0 <= i < |res + rest|
      ensures exists j :: 0 <= j < |queue| && PartOf((res + rest)[i], queue[j])
    {
      PoppedPart(queue, res, rest, n, k, i);
    }
  }

  lemma {:induction false} PoppedPart(queue: seq<StreamFrame>, res: seq<StreamFrame>, rest: seq<StreamFrame>, n: nat, k: nat, i: nat)
    requires PoppedAt(queue, res, rest, n, k) && i < |res + rest|
    ensures exists j :: 0 <= j < |queue| && PartOf((res + rest)[i], queue[j])
  {
    var p := (res + rest)[i];
    if i < n {
      assert p == Mark(queue[i]);
      WholeIsPart(queue[i]);
    } else if k == 0 {
      assert p == rest[i - n] == queue[i];
      WholeIsPart(queue[i]);
    } else if i <= n + 1 {
      assert i == n ==> p == SplitHead(Mark(queue[n]), k);
      assert i == n + 1 ==> p == rest[0] == Mark(queue[n]).DropHead(k);
      SplitsArePart(queue[n], k);
    } else {
      assert p == rest[i - n - 1] == queue[i - 1];
      WholeIsPart(queue[i - 1]);
    }
  }

  lemma {:induction false} WholeIsPart(f: StreamFrame)
    ensures PartOf(f, f) && PartOf(Mark(f), f)
  {
    WholeIsPiece(f);
  }

  lemma {:induction false} SplitsArePart(f: StreamFrame, k: nat)
    requires 0 < k < |f.data|
    ensures PartOf(SplitHead(Mark(f), k), f) && PartOf(Mark(f).DropHead(k), f)
  {
    DropIsPiece(f, k);
    TakeIsPiece(f, k);
  }

  // ----- first transmissions -----

  /** The crypto and header streams do not count towards the connection window. */
  predicate Contributes(id: nat) {
    id != 1 && id != 3
  }

  /** Bytes of first transmissions that count towards the connection window. */
  function ConnBytes(sent: seq<StreamFrame>): nat {
    if sent == [] then 0
    else
      var last := sent[|sent| - 1];
      ConnBytes(sent[..|sent| - 1]) + if Contributes(last.streamID) then |last.data| else 0
  }

  lemma {:induction false} ConnBytesAppend(sent: seq<StreamFrame>, f: StreamFrame)
    ensures ConnBytes(sent + [f]) == ConnBytes(sent) + if Contributes(f.streamID) then |f.data| else 0
  {
    assert (sent + [f])[..|sent|] == sent;
  }

  function EmissionOf(f: StreamFrame): Emission {
    FrameOut(f.offset, f.data, f.fin)
  }

  /** The frame for an emission, with its length field. */
  function FrameFor(id: nat, e: Emission): StreamFrame
    requires e.FrameOut?
  {
    StreamFrame(id, e.offset, e.data, e.fin, true)
  }

  /** The frames of one stream, as emissions. */
  function EmissionsOf(fs: seq<StreamFrame>, id: nat): seq<Emission> {
    if fs == [] then []
    else
      var last := fs[|fs| - 1];
      EmissionsOf(fs[..|fs| - 1], id) + if last.streamID == id then [EmissionOf(last)] else []
  }

  lemma {:induction false} EmissionsAppend(fs: seq<StreamFrame>, f: StreamFrame, id: nat)
    ensures EmissionsOf(fs + [f], id) == EmissionsOf(fs, id) + if f.streamID == id then [EmissionOf(f)] else []
  {
    assert (fs + [f])[..|fs|] == fs;
  }

  /** A frame that may go out: it carries data or a FIN, and its length field. */
  predicate Sendable(f: StreamFrame) {
    f.dataLenPresent && (|f.data| > 0 || f.fin)
  }

  ghost predicate AllNew(fs: seq<StreamFrame>) {
    forall f :: f in fs ==> Sendable(f) && f.streamID != CRYPTO_STREAM
  }

  /** The frame a visit starts from: no data yet, length field present. */
  function EmptyFrame(id: nat, offset: nat): StreamFrame {
    StreamFrame(id, offset, [], false, true)
  }

  ghost predicate OthersSame(a: map<nat, FlowController>, b: map<nat, FlowController>, id: nat) {
    a.Keys == b.Keys && forall i :: i in a && i != id ==> b[i] == a[i]
  }

  function Singleton(frame: Option<StreamFrame>): seq<StreamFrame> {
    if frame.Some? then [frame.value] else []
  }

  /** The frame a visit sends that may take up to maxLen bytes. */
  function SentFrame(s: SendState, maxLen: nat, id: nat): Option<StreamFrame> {
    if maxLen > 0 && !s.err && (s.data.Some? || s.ShouldSendFin()) then Some(FrameFor(id, s.NextFrame(maxLen))) else None
  }

  lemma {:induction false} SentFrameSends(s: SendState, maxLen: nat, id: nat)
    requires s.Ok()
    ensures Sending(s, Next(s, Visited(maxLen)), id, SentFrame(s, maxLen, id))
    ensures var frame := SentFrame(s, maxLen, id);
            frame.Some? ==> WireLen(frame.value) <= MinLength(EmptyFrame(id, s.writeOffset)) + maxLen
  {
  }

  /** The stream's log grew by exactly the frame sent, if any. */
  ghost predicate Sending(s: SendState, t: SendState, id: nat, frame: Option<StreamFrame>) {
    && t.log == s.log + (if frame.Some? then [EmissionOf(frame.value)] else [])
    && t.written == s.written
    && (frame.Some? ==> frame.value.streamID == id && Sendable(frame.value))
  }

  /** The frames among a stream's emissions. */
  function FrameLog(log: seq<Emission>): seq<Emission> {
    if log == [] then []
    else FrameLog(log[..|log| - 1]) + (if log[|log| - 1].FrameOut? then [log[|log| - 1]] else [])
  }

  lemma {:induction false} FrameLogAppend(log: seq<Emission>, e: Emission)
    ensures FrameLog(log + [e]) == FrameLog(log) + if e.FrameOut? then [e] else []
  {
    assert (log + [e])[..|log|] == log;
  }

  lemma {:induction false} MoreFrames(before: seq<StreamFrame>, fs: seq<StreamFrame>, frame: Option<StreamFrame>)
    ensures before + fs + Singleton(frame) == before + (fs + Singleton(frame))
    ensures TotalLen(fs + Singleton(frame)) == TotalLen(fs) + if frame.Some? then WireLen(frame.value) else 0
    ensures AllNew(fs) && (frame.Some? ==> AllNew([frame.value])) ==> AllNew(fs + Singleton(frame))
  {
    if frame.None? {
      assert fs + Singleton(frame) == fs;
    } else {
      TotalLenAppend(fs, frame.value);
    }
  }

  /** Streams are known by their identifiers. */
  ghost predicate SameByID(order: seq<Stream>) {
    forall i, j :: 0 <= i < |order| && 0 <= j < |order| && order[i].streamID == order[j].streamID ==> order[i] == order[j]
  }

  /** The stream's flow controller counts exactly what the stream has sent, and the frames sent for
  it are exactly those in its log. */
  ghost predicate CountedAt(s: SendState, id: nat, flow: map<nat, FlowController>, sent: seq<StreamFrame>) {
    && s.Ok() && id in flow
    && (id != CRYPTO_STREAM ==> flow[id].bytesSent == s.writeOffset && FrameLog(s.log) == EmissionsOf(sent, id))
  }

  /** The connection's flow controller counts exactly the data sent on contributing streams. */
  ghost predicate Counts(flow: FlowState, sent: seq<StreamFrame>) {
    && flow.Ok()
    && (forall id :: id in flow.streams ==> flow.streams[id].contributes == Contributes(id))
    && flow.conn.bytesSent == ConnBytes(sent)
  }

  lemma {:induction false} CountedOthers(s: SendState, id: nat, a: map<nat, FlowController>, b: map<nat, FlowController>,
                                         sent: seq<StreamFrame>, visited: nat, frame: Option<StreamFrame>)
    requires CountedAt(s, id, a, sent) && OthersSame(a, b, visited) && id != visited
    requires frame.Some? ==> frame.value.streamID == visited
    ensures CountedAt(s, id, b, sent + Singleton(frame))
  {
    if frame.Some? {
      EmissionsAppend(sent, frame.value, id);
    } else {
      assert sent + Singleton(frame) == sent;
    }
  }

  /** How many bytes a visit may take: what is left of the packet behind the frame header, and
  with data pending no more than the windows allow. The crypto stream is handled elsewhere. */
  function LimitFor(s: SendState, id: nat, flow: FlowState, maxBytes: nat, currentLen: nat): (n: nat)
    ensures n > 0 ==> id != CRYPTO_STREAM && currentLen + MinLength(EmptyFrame(id, s.writeOffset)) + n <= maxBytes
    ensures n > 0 && !s.err && s.data.Some? ==> n <= flow.SendWindowSize(id)
  {
    var header := MinLength(EmptyFrame(id, s.writeOffset));
    if id == CRYPTO_STREAM || currentLen + header > maxBytes then 0
    else
      var room := maxBytes - currentLen - header;
      if !s.err && s.data.Some? then Min(room, flow.SendWindowSize(id)) else room
  }

  /** Flow control after a visit that sent a frame, or none. */
  function FlowAfter(flow: FlowState, frame: Option<StreamFrame>): FlowState {
    if frame.None? then flow else flow.AddBytesSent(frame.value.streamID, |frame.value.data|)
  }

  lemma {:induction false} CountsAfter(flow: FlowState, sent: seq<StreamFrame>, f: StreamFrame)
    requires Counts(flow, sent) && f.streamID in flow.streams
    requires f.data == [] || |f.data| <= flow.SendWindowSize(f.streamID)
    ensures Counts(flow.AddBytesSent(f.streamID, |f.data|), sent + [f])
    ensures OthersSame(flow.streams, flow.AddBytesSent(f.streamID, |f.data|).streams, f.streamID)
  {
    SendKeepsOk(flow, f.streamID, |f.data|);
    ConnBytesAppend(sent, f);
  }

  lemma {:induction false} CountedAfter(s: SendState, id: nat, flow: FlowState, sent: seq<StreamFrame>, maxLen: nat)
    requires CountedAt(s, id, flow.streams, sent) && SentFrame(s, maxLen, id).Some?
    ensures var f := SentFrame(s, maxLen, id).value;
            CountedAt(Next(s, Visited(maxLen)), id, flow.AddBytesSent(id, |f.data|).streams, sent + [f])
  {
    var f := SentFrame(s, maxLen, id).value;
    NextKeepsOk(s, Visited(maxLen));
    FrameLogAppend(s.log, s.NextFrame(maxLen));
    EmissionsAppend(sent, f, id);
  }

  /** Nothing is counted when streams come and go. */
  lemma {:induction false} StreamsKeepCounts(flow: FlowState, sent: seq<StreamFrame>, id: nat)
    requires Counts(flow, sent)
    ensures Counts(flow.NewStream(id, Contributes(id)), sent) && Counts(flow.RemoveStream(id), sent)
  {
    StreamsKeepOk(flow, id, Contributes(id));
  }

  /** Nor when windows change. */
  lemma {:induction false} WindowsKeepCounts(flow: FlowState, sent: seq<StreamFrame>, id: nat, offset: nat, forStreams: nat, forConn: nat)
    requires Counts(flow, sent)
    ensures Counts(flow.UpdateWindow(id, offset), sent) && Counts(flow.Negotiate(forStreams, forConn), sent)
  {
    UpdateKeepsOk(flow, id, offset);
    NegotiateKeepsOk(flow, forStreams, forConn);
  }

  /** A visit keeps the counts of the stream, of the connection and of all other streams. */
  lemma {:induction false} VisitKeepsCounts(s: SendState, id: nat, flow: FlowState, sent: seq<StreamFrame>, maxLen: nat)
    requires Counts(flow, sent) && CountedAt(s, id, flow.streams, sent)
    requires maxLen > 0 && !s.err && s.data.Some? ==> maxLen <= flow.SendWindowSize(id)
    ensures var frame := SentFrame(s, maxLen, id);
            && Counts(FlowAfter(flow, frame), sent + Singleton(frame))
            && CountedAt(Next(s, Visited(maxLen)), id, FlowAfter(flow, frame).streams, sent + Singleton(frame))
            && OthersSame(flow.streams, FlowAfter(flow, frame).streams, id)
  {
    var frame := SentFrame(s, maxLen, id);
    if frame.None? {
      assert sent + Singleton(frame) == sent;
    } else {
      CountedAfter(s, id, flow, sent, maxLen);
      CountsAfter(flow, sent, frame.value);
    }
  }

  // ----- a round of visits -----

  /** Streams, flow control and packet in the course of a round of visits; open until the round stops. */
  datatype Round = Round(
    streams: map<nat, SendState>,
    flow: FlowState,
    frames: seq<StreamFrame>,
    len: nat,
    blocked: seq<nat>,
    open: bool
  )

  function LenOf(frame: Option<StreamFrame>): nat {
    if frame.Some? then WireLen(frame.value) else 0
  }

  /** The round goes on, unless the header does not fit or the frame fills the packet. */
  predicate Continues(id: nat, offset: nat, maxBytes: nat, len: nat, frame: Option<StreamFrame>) {
    id == CRYPTO_STREAM || (len + MinLength(EmptyFrame(id, offset)) <= maxBytes && (frame.None? || len + LenOf(frame) != maxBytes))
  }

  /** The BLOCKED frame that a frame leads to: for the connection, or else for the stream. */
  function BlockedBy(flow: FlowState, frame: Option<StreamFrame>): seq<nat> {
    if frame.None? then []
    else if FlowAfter(flow, frame).conn.SendWindowSize() == 0 then [0]
    else if !frame.value.fin && |frame.value.data| == flow.SendWindowSize(frame.value.streamID) then [frame.value.streamID]
    else []
  }

  function Visit(w: Round, id: nat, maxBytes: nat): Round
    requires id in w.streams
  {
    var s := w.streams[id];
    var maxLen := LimitFor(s, id, w.flow, maxBytes, w.len);
    var frame := SentFrame(s, maxLen, id);
    Round(w.streams[id := Next(s, Visited(maxLen))], FlowAfter(w.flow, frame), w.frames + Singleton(frame), w.len + LenOf(frame),
          w.blocked + BlockedBy(w.flow, frame), Continues(id, s.writeOffset, maxBytes, w.len, frame))
  }

  ghost predicate AllIn(ids: seq<nat>, streams: map<nat, SendState>) {
    forall i :: 0 <= i < |ids| ==> ids[i] in streams
  }

  /** The streams are visited one after the other until the round stops. */
  function Visits(w: Round, ids: seq<nat>, maxBytes: nat): Round
    requires AllIn(ids, w.streams)
    decreases |ids|
  {
    if ids == [] || !w.open then w else Visits(Visit(w, ids[0], maxBytes), ids[1..], maxBytes)
  }

  /** The packet has no room for data of the stream. */
  predicate FullFor(s: SendState, id: nat, len: nat, maxBytes: nat) {
    id != CRYPTO_STREAM && len + MinLength(EmptyFrame(id, s.writeOffset)) >= maxBytes
  }

  /** The stream has nothing left to send that it may send: what is left is held back by a window, and if it is
  closed and all is sent, so is its end. */
  predicate Drained(s: SendState, id: nat, flow: FlowState) {
    id == CRYPTO_STREAM || s.err ||
    if s.writeOffset < |s.written| then flow.SendWindowSize(id) == 0 else s.finishedWriting ==> Ended(s.log)
  }

  /** The packet is full, or the streams with these ids are drained. */
  ghost predicate Exhausted(w: Round, ids: set<nat>, maxBytes: nat) {
    ids <= w.streams.Keys
    && ((exists id :: id in ids && FullFor(w.streams[id], id, w.len, maxBytes))
        || forall id :: id in ids ==> Drained(w.streams[id], id, w.flow))
  }

  /** Streams that are as they should be, each with a flow controller. */
  ghost predicate StreamsFit(streams: map<nat, SendState>, controlled: set<nat>) {
    forall id :: id in streams ==> streams[id].Ok() && id in controlled
  }

  ghost predicate RoundOk(w: Round) {
    StreamsFit(w.streams, w.flow.streams.Keys)
  }

  lemma {:induction false} StreamsFitPut(streams: map<nat, SendState>, controlled: set<nat>, id: nat, s: SendState)
    requires StreamsFit(streams, controlled) && s.Ok() && id in controlled
    ensures StreamsFit(streams[id := s], controlled)
  {
  }

  lemma {:induction false} WindowAfter(flow: FlowState, id: nat, n: nat)
    requires id in flow.streams && n <= flow.SendWindowSize(id)
    ensures flow.AddBytesSent(id, n).SendWindowSize(id) == flow.SendWindowSize(id) - n
  {
  }

  /** A window that is used up stays so while others send. */
  lemma {:induction false} WindowStaysUsed(flow: FlowState, id: nat, other: nat, n: nat)
    requires id != other && flow.SendWindowSize(id) == 0
    ensures flow.AddBytesSent(other, n).SendWindowSize(id) == 0
  {
  }

  /** What a visit leaves behind. */
  lemma {:induction false} VisitDrains(s: SendState, id: nat, flow: FlowState, maxBytes: nat, len: nat)
    requires s.Ok() && id in flow.streams
    ensures var maxLen := LimitFor(s, id, flow, maxBytes, len);
            var frame := SentFrame(s, maxLen, id);
            var t := Next(s, Visited(maxLen));
            && (FullFor(t, id, len + LenOf(frame), maxBytes) || Drained(t, id, FlowAfter(flow, frame)))
            && (!Continues(id, s.writeOffset, maxBytes, len, frame) ==> FullFor(t, id, len + LenOf(frame), maxBytes))
  {
    var maxLen := LimitFor(s, id, flow, maxBytes, len);
    PendingIsRest(s);
    if maxLen > 0 && !s.err && s.data.Some? {
      var n := if |s.Pending()| > maxLen then maxLen else |s.Pending()|;
      WindowAfter(flow, id, n);
      LastOf(s.log, s.NextFrame(maxLen));
    } else if maxLen > 0 && s.ShouldSendFin() {
      LastOf(s.log, s.NextFrame(maxLen));
    }
  }

  lemma {:induction false} VisitKeepsRound(w: Round, id: nat, maxBytes: nat)
    requires RoundOk(w) && id in w.streams
    ensures RoundOk(Visit(w, id, maxBytes)) && Visit(w, id, maxBytes).streams.Keys == w.streams.Keys
  {
    var s := w.streams[id];
    var maxLen := LimitFor(s, id, w.flow, maxBytes, w.len);
    VisitKeepsOk(s, maxLen);
    FlowKeys(w.flow, SentFrame(s, maxLen, id));
    StreamsFitPut(w.streams, w.flow.streams.Keys, id, Next(s, Visited(maxLen)));
  }

  lemma {:induction false} FlowKeys(flow: FlowState, frame: Option<StreamFrame>)
    ensures FlowAfter(flow, frame).streams.Keys == flow.streams.Keys
  {
  }

  /** Other streams stay drained, and a full packet stays full. */
  lemma {:induction false} VisitKeepsOthers(w: Round, id: nat, maxBytes: nat, other: nat)
    requires RoundOk(w) && id in w.streams && other in w.streams && other != id
    ensures var v := Visit(w, id, maxBytes);
            && other in v.streams && v.streams[other] == w.streams[other] && v.len >= w.len
            && (Drained(w.streams[other], other, w.flow) ==> Drained(v.streams[other], other, v.flow))
  {
    var frame := SentFrame(w.streams[id], LimitFor(w.streams[id], id, w.flow, maxBytes, w.len), id);
    if frame.Some? && w.flow.SendWindowSize(other) == 0 {
      WindowStaysUsed(w.flow, other, id, |frame.value.data|);
    }
  }

  lemma {:induction false} VisitExhausts(w: Round, done: set<nat>, id: nat, maxBytes: nat)
    requires RoundOk(w) && id in w.streams && Exhausted(w, done, maxBytes)
    ensures var v := Visit(w, id, maxBytes);
            Exhausted(v, done + {id}, maxBytes) && (!v.open ==> FullFor(v.streams[id], id, v.len, maxBytes))
  {
    var v := Visit(w, id, maxBytes);
    VisitKeepsRound(w, id, maxBytes);
    VisitDrains(w.streams[id], id, w.flow, maxBytes, w.len);
    if !FullFor(v.streams[id], id, v.len, maxBytes) {
      if full :| full in done && FullFor(w.streams[full], full, w.len, maxBytes) {
        StaysFull(w, id, maxBytes, full);
        assert full in done + {id};
      } else {
        forall other | other in done + {id} ensures Drained(v.streams[other], other, v.flow) {
          if other != id {
            VisitKeepsOthers(w, id, maxBytes, other);
          }
        }
      }
    } else {
      assert id in done + {id};
    }
  }

  lemma {:induction false} StaysFull(w: Round, id: nat, maxBytes: nat, full: nat)
    requires RoundOk(w) && id in w.streams && full in w.streams && FullFor(w.streams[full], full, w.len, maxBytes)
    ensures var v := Visit(w, id, maxBytes); full in v.streams && FullFor(v.streams[full], full, v.len, maxBytes)
  {
    if full != id {
      VisitKeepsOthers(w, id, maxBytes, full);
    }
  }

  /** A round of visits in any order ends with a full packet or with all streams drained. */
  lemma {:induction false} VisitsExhaust(w: Round, done: set<nat>, ids: seq<nat>, maxBytes: nat)
    requires RoundOk(w) && AllIn(ids, w.streams) && Exhausted(w, done, maxBytes)
    requires !w.open ==> exists id :: id in done && FullFor(w.streams[id], id, w.len, maxBytes)
    ensures Exhausted(Visits(w, ids, maxBytes), done + SetOf(ids), maxBytes)
    decreases |ids|
  {
    var all := done + SetOf(ids);
    if ids == [] {
      assert all == done;
    } else if !w.open {
      var id :| id in done && FullFor(w.streams[id], id, w.len, maxBytes);
      assert id in all;
    } else {
      var v := Visit(w, ids[0], maxBytes);
      VisitExhausts(w, done, ids[0], maxBytes);
      VisitKeepsRound(w, ids[0], maxBytes);
      VisitsExhaust(v, done + {ids[0]}, ids[1..], maxBytes);
      SetOfRest(done, ids);
    }
  }

  ghost function SetOf(ids: seq<nat>): set<nat> {
    set i | 0 <= i < |ids| :: ids[i]
  }

  lemma {:induction false} SetOfRest(done: set<nat>, ids: seq<nat>)
    requires ids != []
    ensures done + SetOf(ids) == done + {ids[0]} + SetOf(ids[1..])
  {
    var rest := ids[1..];
    forall i | 0 <= i < |ids| ensures ids[i] == ids[0] || ids[i] in SetOf(rest) {
      if i > 0 {
        assert ids[i] == rest[i - 1];
      }
    }
  }

  /** A visit announces exactly the window it has used up: that of the connection, or else that of the stream. */
  lemma {:induction false} BlockedExactly(w: Round, id: nat, maxBytes: nat)
    requires RoundOk(w) && id in w.streams
    ensures var v := Visit(w, id, maxBytes);
            v.blocked == w.blocked +
              if v.frames == w.frames then []
              else if v.flow.conn.SendWindowSize() == 0 then [0]
              else if !v.frames[|v.frames| - 1].fin && v.flow.SendWindowSize(id) == 0 then [id]
              else []
  {
    var s := w.streams[id];
    var maxLen := LimitFor(s, id, w.flow, maxBytes, w.len);
    var frame := SentFrame(s, maxLen, id);
    if frame.Some? {
      assert (w.frames + [frame.value])[|w.frames|] == frame.value && |w.frames + [frame.value]| > |w.frames|;
      if s.data.Some? {
        WindowAfter(w.flow, id, |frame.value.data|);
      }
    } else {
      assert w.frames + Singleton(frame) == w.frames && w.blocked + [] == w.blocked;
    }
  }

  /** A round that started with start has come to w before the k-th visit. */
  ghost predicate CameTo(start: Round, w: Round, ids: seq<nat>, k: nat, maxBytes: nat) {
    && k <= |ids| && AllIn(ids, start.streams) && AllIn(ids, w.streams)
    && Visits(w, ids[k..], maxBytes) == Visits(start, ids, maxBytes)
  }

  lemma {:induction false} CameToStart(w: Round, ids: seq<nat>, maxBytes: nat)
    requires AllIn(ids, w.streams)
    ensures CameTo(w, w, ids, 0, maxBytes)
  {
    assert ids[0..] == ids;
  }

  lemma {:induction false} CameToNext(start: Round, w: Round, ids: seq<nat>, k: nat, maxBytes: nat)
    requires CameTo(start, w, ids, k, maxBytes) && k < |ids| && w.open
    ensures ids[k] in w.streams && CameTo(start, Visit(w, ids[k], maxBytes), ids, k + 1, maxBytes)
  {
    assert ids[k..][0] == ids[k] && ids[k..][1..] == ids[k + 1..];
  }

  lemma {:induction false} CameToEnd(start: Round, w: Round, ids: seq<nat>, k: nat, maxBytes: nat)
    requires CameTo(start, w, ids, k, maxBytes) && (k == |ids| || !w.open)
    ensures w == Visits(start, ids, maxBytes)
  {
  }

  // ----- rounds and the streams they visit -----

  ghost function Ids(order: seq<Stream>): seq<nat> {
    seq(|order|, i requires 0 <= i < |order| => order[i].streamID)
  }

  ghost function States(order: seq<Stream>): seq<SendState>
    reads order
  {
    seq(|order|, i requires 0 <= i < |order| reads order => order[i].State())
  }

  /** The same id stands for the same state. */
  ghost predicate Known(states: seq<SendState>, ids: seq<nat>) {
    |states| == |ids| && forall i, j :: 0 <= i < |ids| && 0 <= j < |ids| && ids[i] == ids[j] ==> states[i] == states[j]
  }

  ghost function ByID(states: seq<SendState>, ids: seq<nat>): map<nat, SendState>
    requires |states| == |ids|
  {
    if ids == [] then map[] else ByID(states[..|ids| - 1], ids[..|ids| - 1])[ids[|ids| - 1] := states[|ids| - 1]]
  }

  ghost function NewRound(states: seq<SendState>, ids: seq<nat>, flow: FlowState): Round
    requires |states| == |ids|
  {
    Round(ByID(states, ids), flow, [], 0, [], true)
  }

  ghost predicate AllCounted(states: seq<SendState>, ids: seq<nat>, flow: map<nat, FlowController>, sent: seq<StreamFrame>) {
    |states| == |ids| && forall i :: 0 <= i < |ids| ==> CountedAt(states[i], ids[i], flow, sent)
  }

  /** The round shows the streams as they are. */
  ghost predicate Shows(states: seq<SendState>, ids: seq<nat>, w: Round) {
    |states| == |ids| && forall i :: 0 <= i < |ids| ==> ids[i] in w.streams && w.streams[ids[i]] == states[i]
  }

  /** Streams, flow control, first transmissions and queued BLOCKED frames at one moment. */
  datatype Moment = Moment(states: seq<SendState>, flow: FlowState, sent: seq<StreamFrame>, blocked: seq<nat>)

  /** Everything sent is counted, for each stream and for the connection. */
  ghost predicate MomentOk(x: Moment, ids: seq<nat>) {
    Counts(x.flow, x.sent) && AllCounted(x.states, ids, x.flow.streams, x.sent)
  }

  /** y is x after a visit to the k-th stream, len bytes into the packet. */
  ghost predicate VisitedAt(x: Moment, y: Moment, ids: seq<nat>, k: nat, maxBytes: nat, len: nat, frame: Option<StreamFrame>, cont: bool)
    requires |x.states| == |ids| && k < |ids|
  {
    var s, id := x.states[k], ids[k];
    var maxLen := LimitFor(s, id, x.flow, maxBytes, len);
    && Replaced(x.states, y.states, ids, id, Next(s, Visited(maxLen))) && frame == SentFrame(s, maxLen, id)
    && y.flow == FlowAfter(x.flow, frame) && y.sent == x.sent + Singleton(frame) && y.blocked == x.blocked + BlockedBy(x.flow, frame)
    && cont == Continues(id, s.writeOffset, maxBytes, len, frame)
  }

  /** The round w shows the moment y: what was sent since x is in its frames, and they fit. */
  ghost predicate RoundAt(x: Moment, y: Moment, ids: seq<nat>, w: Round, maxBytes: nat) {
    && MomentOk(y, ids) && Shows(y.states, ids, w) && y.flow == w.flow
    && y.sent == x.sent + w.frames && y.blocked == x.blocked + w.blocked
    && w.len == TotalLen(w.frames) <= maxBytes && AllNew(w.frames)
  }

  /** y is x after a round of visits that ended with w: all is counted, the frames fit, and nothing is left. */
  ghost predicate RoundDone(x: Moment, y: Moment, ids: seq<nat>, maxBytes: nat, w: Round) {
    && RoundAt(x, y, ids, w, maxBytes) && CanRun(x, ids) && w == RoundFrom(x, ids, maxBytes)
    && NothingLeft(y.states, ids, y.flow, w.len, maxBytes)
  }

  /** The outcome of a round over the streams as they are at a moment. */
  ghost function RoundFrom(x: Moment, ids: seq<nat>, maxBytes: nat): Round
    requires |x.states| == |ids| && AllIn(ids, NewRound(x.states, ids, x.flow).streams)
  {
    Visits(NewRound(x.states, ids, x.flow), ids, maxBytes)
  }

  /** A round over the streams can be run at that moment. */
  ghost predicate CanRun(x: Moment, ids: seq<nat>) {
    Known(x.states, ids) && AllIn(ids, NewRound(x.states, ids, x.flow).streams)
  }

  /** There is no room left for some stream, or no stream has anything left that it may send. */
  ghost predicate NothingLeft(states: seq<SendState>, ids: seq<nat>, flow: FlowState, len: nat, maxBytes: nat)
    requires |states| == |ids|
  {
    || (exists i :: 0 <= i < |ids| && FullFor(states[i], ids[i], len, maxBytes))
    || (forall i :: 0 <= i < |ids| ==> Drained(states[i], ids[i], flow))
  }

  lemma {:induction false} ByIDShows(states: seq<SendState>, ids: seq<nat>)
    requires Known(states, ids)
    ensures forall i :: 0 <= i < |ids| ==> ids[i] in ByID(states, ids) && ByID(states, ids)[ids[i]] == states[i]
    ensures forall id :: id in ByID(states, ids) ==> id in ids
    decreases |ids|
  {
    if ids != [] {
      var n := |ids| - 1;
      ByIDShows(states[..n], ids[..n]);
      forall i | 0 <= i < |ids| ensures ids[i] in ByID(states, ids) && ByID(states, ids)[ids[i]] == states[i] {
        if i < n {
          assert ids[..n][i] == ids[i] && states[..n][i] == states[i];
        }
      }
    }
  }

  /** A round over the streams as they are can be run. */
  lemma {:induction false} RoundStarts(x: Moment, ids: seq<nat>, maxBytes: nat)
    requires Known(x.states, ids) && MomentOk(x, ids)
    ensures var w := NewRound(x.states, ids, x.flow);
            RoundAt(x, x, ids, w, maxBytes) && RoundOk(w) && AllIn(ids, w.streams)
  {
    ByIDShows(x.states, ids);
    var w := NewRound(x.states, ids, x.flow);
    assert x.sent + [] == x.sent && x.blocked + [] == x.blocked;
    forall id | id in w.streams ensures w.streams[id].Ok() && id in x.flow.streams {
      var i :| 0 <= i < |ids| && ids[i] == id;
      assert CountedAt(x.states[i], ids[i], x.flow.streams, x.sent);
    }
  }

  /** A round without frames changes nothing. */
  lemma {:induction false} IdleRound(w: Round, ids: seq<nat>, maxBytes: nat)
    requires AllIn(ids, w.streams)
    ensures var v := Visits(w, ids, maxBytes);
            w.frames <= v.frames && (v.frames == w.frames ==> v.streams == w.streams && v.flow == w.flow && v.blocked == w.blocked)
    decreases |ids|
  {
    if ids != [] && w.open {
      var v := Visit(w, ids[0], maxBytes);
      IdleRound(v, ids[1..], maxBytes);
    }
  }

  /** A round ends with nothing left. */
  lemma {:induction false} RoundEnds(start: Round, states: seq<SendState>, ids: seq<nat>, w: Round, maxBytes: nat)
    requires RoundOk(start) && start.open && AllIn(ids, start.streams) && w == Visits(start, ids, maxBytes) && Shows(states, ids, w)
    ensures NothingLeft(states, ids, w.flow, w.len, maxBytes)
  {
    VisitsExhaust(start, {}, ids, maxBytes);
    var all := {} + SetOf(ids);
    if id :| id in all && FullFor(w.streams[id], id, w.len, maxBytes) {
      var i :| 0 <= i < |ids| && ids[i] == id;
      assert FullFor(states[i], ids[i], w.len, maxBytes);
    } else {
      forall i | 0 <= i < |ids| ensures Drained(states[i], ids[i], w.flow) {
        assert ids[i] in all;
      }
    }
  }

  /** The states after a visit to the stream with an id. */
  ghost predicate Replaced(a: seq<SendState>, b: seq<SendState>, ids: seq<nat>, id: nat, t: SendState) {
    |a| == |b| == |ids| && forall i :: 0 <= i < |ids| ==> b[i] == if ids[i] == id then t else a[i]
  }

  lemma {:induction false} VisitShows(states: seq<SendState>, after: seq<SendState>, ids: seq<nat>, w: Round, id: nat, maxBytes: nat)
    requires Shows(states, ids, w) && id in w.streams && Replaced(states, after, ids, id, Visit(w, id, maxBytes).streams[id])
    ensures Shows(after, ids, Visit(w, id, maxBytes))
  {
  }

  lemma {:induction false} VisitCounted(states: seq<SendState>, after: seq<SendState>, ids: seq<nat>, flow: FlowState, sent: seq<StreamFrame>,
                                        k: nat, maxLen: nat)
    requires Counts(flow, sent) && AllCounted(states, ids, flow.streams, sent) && k < |ids|
    requires maxLen > 0 && !states[k].err && states[k].data.Some? ==> maxLen <= flow.SendWindowSize(ids[k])
    requires Replaced(states, after, ids, ids[k], Next(states[k], Visited(maxLen)))
    ensures var frame := SentFrame(states[k], maxLen, ids[k]);
            Counts(FlowAfter(flow, frame), sent + Singleton(frame)) && AllCounted(after, ids, FlowAfter(flow, frame).streams, sent + Singleton(frame))
  {
    var frame := SentFrame(states[k], maxLen, ids[k]);
    VisitKeepsCounts(states[k], ids[k], flow, sent, maxLen);
    forall i | 0 <= i < |ids| ensures CountedAt(after[i], ids[i], FlowAfter(flow, frame).streams, sent + Singleton(frame)) {
      if ids[i] != ids[k] {
        CountedOthers(states[i], ids[i], flow.streams, FlowAfter(flow, frame).streams, sent, ids[k], frame);
      }
    }
  }

  lemma {:induction false} FrameFits(s: SendState, id: nat, flow: FlowState, maxBytes: nat, len: nat)
    requires s.Ok() && len <= maxBytes
    ensures var frame := SentFrame(s, LimitFor(s, id, flow, maxBytes, len), id);
            len + LenOf(frame) <= maxBytes && (frame.Some? ==> AllNew([frame.value]))
  {
    SentFrameSends(s, LimitFor(s, id, flow, maxBytes, len), id);
  }

  lemma {:induction false} VisitFits(w: Round, id: nat, maxBytes: nat)
    requires id in w.streams && w.streams[id].Ok() && w.len == TotalLen(w.frames) <= maxBytes && AllNew(w.frames)
    ensures var v := Visit(w, id, maxBytes); v.len == TotalLen(v.frames) <= maxBytes && AllNew(v.frames)
  {
    var s := w.streams[id];
    var frame := SentFrame(s, LimitFor(s, id, w.flow, maxBytes, w.len), id);
    FrameFits(s, id, w.flow, maxBytes, w.len);
    MoreFrames([], w.frames, frame);
    var v := Visit(w, id, maxBytes);
    assert v.frames == w.frames + Singleton(frame) && v.len == w.len + LenOf(frame);
  }

  lemma {:induction false} VisitKeepsRoundAt(x: Moment, y: Moment, z: Moment, ids: seq<nat>, w: Round, maxBytes: nat, k: nat,
                                             frame: Option<StreamFrame>, cont: bool)
    requires RoundAt(x, y, ids, w, maxBytes) && k < |ids| && VisitedAt(y, z, ids, k, maxBytes, w.len, frame, cont)
    ensures RoundAt(x, z, ids, Visit(w, ids[k], maxBytes), maxBytes)
  {
    VisitShows(y.states, z.states, ids, w, ids[k], maxBytes);
    VisitCounted(y.states, z.states, ids, w.flow, y.sent, k, LimitFor(y.states[k], ids[k], w.flow, maxBytes, w.len));
    assert CountedAt(y.states[k], ids[k], w.flow.streams, y.sent);
    VisitFits(w, ids[k], maxBytes);
    Associates(x.sent, w.frames, Singleton(frame));
    Associates(x.blocked, w.blocked, BlockedBy(w.flow, frame));
  }

  /** How far a round has come: what was sent since x is in w, and the rest of the round leads where it was going. */
  ghost predicate Going(x: Moment, y: Moment, ids: seq<nat>, start: Round, w: Round, k: nat, maxBytes: nat) {
    RoundAt(x, y, ids, w, maxBytes) && CameTo(start, w, ids, k, maxBytes)
  }

  lemma {:induction false} GoingNext(x: Moment, y: Moment, z: Moment, ids: seq<nat>, start: Round, w: Round, k: nat, maxBytes: nat,
                                     frame: Option<StreamFrame>, cont: bool, next: nat) returns (v: Round)
    requires Going(x, y, ids, start, w, k, maxBytes) && k < |ids| && next == k + 1 && w.open && VisitedAt(y, z, ids, k, maxBytes, w.len, frame, cont)
    ensures Going(x, z, ids, start, v, next, maxBytes)
    ensures v.frames == w.frames + Singleton(frame) && v.len == w.len + LenOf(frame) && v.open == cont
  {
    CameToNext(start, w, ids, k, maxBytes);
    VisitKeepsRoundAt(x, y, z, ids, w, maxBytes, k, frame, cont);
    v := Visit(w, ids[k], maxBytes);
  }

  lemma {:induction false} GoingStart(x: Moment, ids: seq<nat>, maxBytes: nat) returns (start: Round)
    requires Known(x.states, ids) && MomentOk(x, ids)
    ensures start == NewRound(x.states, ids, x.flow) && RoundOk(start) && Going(x, x, ids, start, start, 0, maxBytes)
  {
    start := NewRound(x.states, ids, x.flow);
    RoundStarts(x, ids, maxBytes);
    CameToStart(start, ids, maxBytes);
  }

  lemma {:induction false} GoingEnd(x: Moment, y: Moment, ids: seq<nat>, start: Round, w: Round, k: nat, maxBytes: nat)
    requires Known(x.states, ids) && start == NewRound(x.states, ids, x.flow) && RoundOk(start)
    requires Going(x, y, ids, start, w, k, maxBytes) && (k == |ids| || !w.open)
    ensures RoundDone(x, y, ids, maxBytes, w)
  {
    CameToEnd(start, w, ids, k, maxBytes);
    RoundEnds(start, y.states, ids, w, maxBytes);
  }

  /** Frames that were sent again: together with what is left they carry what the queue carried, in order and cut
  nowhere else, and the rest is left for want of room only. */
  ghost predicate Resent(queue: seq<StreamFrame>, rest: seq<StreamFrame>, resent: seq<StreamFrame>, maxLen: nat) {
    && Content(resent) + Content(rest) == Content(queue) && PartsOf(resent + rest, queue)
    && (forall i :: 0 <= i < |resent| ==> resent[i].dataLenPresent)
    && TotalLen(resent) <= maxLen && (rest == [] || TotalLen(resent) + MinLength(Mark(rest[0])) >= maxLen)
    && (resent == [] ==> rest == queue)
  }

  /** What was popped for a packet: frames sent again, and the round over the streams in the room they left. */
  datatype Popping = Popping(maxLen: nat, resent: seq<StreamFrame>, room: nat, w: Round) {
    function Frames(): seq<StreamFrame> {
      resent + w.frames
    }
  }

  /** The popping p leads from moment x and queue to moment y and rest. */
  ghost predicate PoppedBy(p: Popping, x: Moment, y: Moment, ids: seq<nat>, queue: seq<StreamFrame>, rest: seq<StreamFrame>) {
    Resent(queue, rest, p.resent, p.maxLen) && p.room + TotalLen(p.resent) == p.maxLen && RoundDone(x, y, ids, p.room, p.w)
  }

  lemma {:induction false} PoppedResent(queue: seq<StreamFrame>, rest: seq<StreamFrame>, resent: seq<StreamFrame>, n: nat, k: nat, maxLen: nat)
    requires PoppedAt(queue, resent, rest, n, k) && (forall i :: 0 <= i < |resent| ==> resent[i].dataLenPresent)
    requires TotalLen(resent) <= maxLen && (rest == [] || TotalLen(resent) + MinLength(Mark(rest[0])) >= maxLen)
    ensures Resent(queue, rest, resent, maxLen)
  {
    PoppedConserves(queue, resent, rest, n, k);
  }

  /** A round that sent nothing left the streams as they were. */
  lemma {:induction false} IdleDone(x: Moment, y: Moment, ids: seq<nat>, maxBytes: nat, w: Round)
    requires RoundDone(x, y, ids, maxBytes, w) && w.frames == []
    ensures y.states == x.states && y.sent == x.sent
  {
    var start := NewRound(x.states, ids, x.flow);
    IdleRound(start, ids, maxBytes);
    ByIDShows(x.states, ids);
    SameShown(x.states, y.states, ids, start.streams, w);
  }

  lemma {:induction false} SameShown(a: seq<SendState>, b: seq<SendState>, ids: seq<nat>, streams: map<nat, SendState>, w: Round)
    requires Shows(b, ids, w) && w.streams == streams && |a| == |ids|
    requires forall i :: 0 <= i < |ids| ==> ids[i] in streams && streams[ids[i]] == a[i]
    ensures a == b
  {
  }

  class Framer {
    const flow: FlowControlManager
    var retransmissionQueue: seq<StreamFrame>
    var blockedQueue: seq<nat>

    /** First transmissions of all data streams, in order. */
    ghost var sent: seq<StreamFrame>

    constructor (flow: FlowControlManager)
      requires Counts(flow.State(), [])
      ensures Valid() && this.flow == flow
      ensures retransmissionQueue == [] && blockedQueue == [] && sent == []
    {
      this.flow := flow;
      retransmissionQueue, blockedQueue, sent := [], [], [];
    }

    ghost predicate Valid()
      reads this, flow
    {
      Counts(flow.State(), sent)
    }

    ghost predicate Counted(s: Stream)
      reads this, flow, s
    {
      CountedAt(s.State(), s.streamID, flow.streams, sent)
    }

    method AddFrameForRetransmission(f: StreamFrame)
      modifies this`retransmissionQueue
      ensures retransmissionQueue == old(retransmissionQueue) + [f]
    {
      retransmissionQueue := retransmissionQueue + [f];
    }

    method PopBlockedFrame() returns (id: Option<nat>)
      modifies this`blockedQueue
      ensures old(blockedQueue) == [] ==> id.None? && blockedQueue == []
      ensures old(blockedQueue) != [] ==> id == Some(old(blockedQueue)[0]) && blockedQueue == old(blockedQueue)[1..]
    {
      if |blockedQueue| == 0 {
        return None;
      }
      id, blockedQueue := Some(blockedQueue[0]), blockedQueue[1..];
    }

    method MaybePopFramesForRetransmission(maxLen: nat)
      returns (res: seq<StreamFrame>, currentLen: nat, ghost n: nat, ghost k: nat)
      modifies this`retransmissionQueue
      ensures PoppedAt(old(retransmissionQueue), res, retransmissionQueue, n, k)
      ensures currentLen == TotalLen(res) <= maxLen && (k > 0 ==> currentLen == maxLen)
      ensures forall i :: 0 <= i < |res| ==> res[i].dataLenPresent
      ensures retransmissionQueue == [] || currentLen + MinLength(Mark(retransmissionQueue[0])) >= maxLen
    {
      res, currentLen, n, k := [], 0, 0, 0;
      ghost var queue := retransmissionQueue;
      while |retransmissionQueue| > 0
        invariant n <= |queue| && |res| == n && retransmissionQueue == queue[n..]
        invariant forall i :: 0 <= i < n ==> res[i] == Mark(queue[i])
        invariant currentLen == TotalLen(res) <= maxLen
      {
        var frame := Mark(retransmissionQueue[0]);
        if currentLen + MinLength(frame) >= maxLen {
          return;
        }
        var room := maxLen - currentLen - MinLength(frame);
        if room < |frame.data| {
          var splitFrame := SplitHead(frame, room);
          retransmissionQueue := [frame.DropHead(room)] + retransmissionQueue[1..];
          TotalLenAppend(res, splitFrame);
          return res + [splitFrame], maxLen, n, room;
        }
        retransmissionQueue := retransmissionQueue[1..];
        TotalLenAppend(res, frame);
        res := res + [frame];
        currentLen := currentLen + WireLen(frame);
        n := n + 1;
      }
    }

    /** A stream is created together with its flow controller. */
    method OpenStream(id: nat) returns (s: Stream)
      requires Valid() && EmissionsOf(sent, id) == [] && id != 0 && id !in flow.streams
      modifies flow`streams, flow`advertised
      ensures Valid() && fresh(s) && s.streamID == id && s.State() == NEW_STREAM && Counted(s)
      ensures flow.State() == old(flow.State()).NewStream(id, Contributes(id))
    {
      StreamsKeepOk(flow.State(), id, Contributes(id));
      flow.NewStream(id, Contributes(id));
      s := new Stream(id);
    }

    ghost function Limit(s: Stream, maxBytes: nat, currentLen: nat): nat
      reads flow, s
    {
      LimitFor(s.State(), s.streamID, flow.State(), maxBytes, currentLen)
    }

    /** One visit to a stream by the round-robin iteration: at most one frame, as large as the
    packet and both windows allow, bundled with the FIN if that is all. */
    method VisitStream(s: Stream, maxBytes: nat, currentLen: nat) returns (frame: Option<StreamFrame>, cont: bool)
      requires Valid() && Counted(s)
      modifies this`blockedQueue, this`sent, flow`streams, flow`conn, s
      ensures Valid() && Counted(s)
      ensures s.State() == Next(old(s.State()), Visited(old(Limit(s, maxBytes, currentLen))))
      ensures frame == SentFrame(old(s.State()), old(Limit(s, maxBytes, currentLen)), s.streamID)
      ensures flow.State() == FlowAfter(old(flow.State()), frame) && sent == old(sent) + Singleton(frame)
      ensures blockedQueue == old(blockedQueue) + BlockedBy(old(flow.State()), frame)
      ensures cont == Continues(s.streamID, old(s.writeOffset), maxBytes, currentLen, frame)
    {
      VisitKeepsCounts(s.State(), s.streamID, flow.State(), sent, Limit(s, maxBytes, currentLen));
      frame, cont := FillFrame(s, maxBytes, currentLen);
    }

    /** The visit itself: what is sent, and what is left behind. */
    method FillFrame(s: Stream, maxBytes: nat, currentLen: nat) returns (frame: Option<StreamFrame>, cont: bool)
      requires s.State().Ok()
      modifies this`blockedQueue, this`sent, flow`streams, flow`conn, s
      ensures s.State() == Next(old(s.State()), Visited(old(Limit(s, maxBytes, currentLen))))
      ensures frame == SentFrame(old(s.State()), old(Limit(s, maxBytes, currentLen)), s.streamID)
      ensures flow.State() == FlowAfter(old(flow.State()), frame) && sent == old(sent) + Singleton(frame)
      ensures blockedQueue == old(blockedQueue) + BlockedBy(old(flow.State()), frame)
      ensures cont == Continues(s.streamID, old(s.writeOffset), maxBytes, currentLen, frame)
    {
      frame, cont := None, s.streamID == CRYPTO_STREAM;
      var header := MinLength(EmptyFrame(s.streamID, s.writeOffset));
      if s.streamID != CRYPTO_STREAM && currentLen + header <= maxBytes {
        cont := true;
        var lenStreamData := s.LenOfDataForWriting();
        var maxLen, sendWindowSize := maxBytes - currentLen - header, 0;
        if lenStreamData != 0 {
          sendWindowSize := flow.SendWindowSize(s.streamID);
          maxLen := Min(maxLen, sendWindowSize);
        }
        if maxLen != 0 {
          frame := SendFrom(s, maxLen, lenStreamData != 0, sendWindowSize);
          cont := frame.None? || currentLen + WireLen(frame.value) != maxBytes;
        }
      }
    }

    /** Takes a frame from the stream and accounts for it. */
    method SendFrom(s: Stream, maxLen: nat, hasData: bool, sendWindowSize: nat) returns (frame: Option<StreamFrame>)
      requires s.State().Ok() && maxLen > 0 && (hasData <==> !s.err && s.dataForWriting.Some?)
      requires hasData ==> maxLen <= sendWindowSize == flow.State().SendWindowSize(s.streamID)
      modifies this`blockedQueue, this`sent, flow`streams, flow`conn, s
      ensures s.State() == Next(old(s.State()), Visited(maxLen)) && frame == SentFrame(old(s.State()), maxLen, s.streamID)
      ensures flow.State() == FlowAfter(old(flow.State()), frame) && sent == old(sent) + Singleton(frame)
      ensures blockedQueue == old(blockedQueue) + BlockedBy(old(flow.State()), frame)
    {
      var out := s.TakeFrame(maxLen, hasData);
      frame := None;
      if out.Some? {
        var f := FrameFor(s.streamID, out.value);
        Account(f, sendWindowSize);
        frame := Some(f);
      }
    }

    /** Counts a frame's bytes and queues a BLOCKED frame if a window is now used up. */
    method Account(f: StreamFrame, sendWindowSize: nat)
      requires f.fin || |f.data| <= sendWindowSize
      modifies this`blockedQueue, this`sent, flow`streams, flow`conn
      ensures flow.State() == old(flow.State()).AddBytesSent(f.streamID, |f.data|) && sent == old(sent) + [f]
      ensures blockedQueue == old(blockedQueue) + (
                if flow.conn.SendWindowSize() == 0 then [0]
                else if !f.fin && |f.data| == sendWindowSize then [f.streamID]
                else [])
    {
      flow.AddBytesSent(f.streamID, |f.data|);
      if flow.conn.SendWindowSize() == 0 {
        blockedQueue := blockedQueue + [0];
      } else if !f.fin && sendWindowSize - |f.data| == 0 {
        blockedQueue := blockedQueue + [f.streamID];
      }
      sent := sent + [f];
    }

    ghost function Now(order: seq<Stream>): Moment
      reads this, flow, order
    {
      Moment(States(order), flow.State(), sent, blockedQueue)
    }

    /** Streams are known by their ids, and all they have sent is counted. */
    ghost predicate Consistent(order: seq<Stream>)
      reads this, flow, order
    {
      SameByID(order) && MomentOk(Now(order), Ids(order))
    }

    /** New frames from the streams, visited in any order, until the packet is full. Afterwards it is, or no stream
    is left with something to send. */
    method MaybePopNormalFrames(ghost x: Moment, order: seq<Stream>, maxBytes: nat) returns (res: seq<StreamFrame>, ghost w: Round)
      requires Consistent(order) && x == Now(order)
      modifies this`blockedQueue, this`sent, flow`streams, flow`conn, order
      ensures Consistent(order) && RoundDone(x, Now(order), Ids(order), maxBytes, w) && res == w.frames
      ensures TotalLen(res) <= maxBytes && sent == old(sent) + res
      ensures NothingLeft(States(order), Ids(order), flow.State(), TotalLen(res), maxBytes)
    {
      res, w := VisitInTurn(x, order, maxBytes);
    }

    method VisitInTurn(ghost x: Moment, order: seq<Stream>, maxBytes: nat) returns (res: seq<StreamFrame>, ghost w: Round)
      requires Consistent(order) && x == Now(order)
      modifies this`blockedQueue, this`sent, flow`streams, flow`conn, order
      ensures RoundDone(x, Now(order), Ids(order), maxBytes, w) && res == w.frames
    {
      ghost var ids := Ids(order);
      ghost var start := GoingStart(x, ids, maxBytes);
      res, w := [], start;
      var currentLen, k, cont := 0, 0, true;
      while k < |order| && cont
        invariant 0 <= k <= |order| && Going(x, Now(order), ids, start, w, k, maxBytes)
        invariant res == w.frames && currentLen == w.len && cont == w.open
      {
        var frame;
        frame, cont, k, w := VisitOne(x, start, w, order, k, maxBytes, currentLen);
        currentLen := currentLen + LenOf(frame);
        res := res + Singleton(frame);
      }
      GoingEnd(x, Now(order), ids, start, w, k, maxBytes);
    }

    method VisitOne(ghost x: Moment, ghost start: Round, ghost w: Round, order: seq<Stream>, k: nat, maxBytes: nat, currentLen: nat)
      returns (frame: Option<StreamFrame>, cont: bool, next: nat, ghost v: Round)
      requires SameByID(order) && k < |order| && Going(x, Now(order), Ids(order), start, w, k, maxBytes) && w.open && currentLen == w.len
      modifies this`blockedQueue, this`sent, flow`streams, flow`conn, order[k]
      ensures next == k + 1 && Going(x, Now(order), Ids(order), start, v, next, maxBytes)
      ensures v.frames == w.frames + Singleton(frame) && v.len == w.len + LenOf(frame) && v.open == cont
    {
      ghost var y := Now(order);
      frame, cont := VisitNext(order, k, maxBytes, currentLen);
      next := k + 1;
      v := GoingNext(x, y, Now(order), Ids(order), start, w, k, maxBytes, frame, cont, next);
    }

    /** A visit to the k-th stream, as seen by all of them. */
    method VisitNext(order: seq<Stream>, k: nat, maxBytes: nat, currentLen: nat) returns (frame: Option<StreamFrame>, cont: bool)
      requires SameByID(order) && k < |order| && MomentOk(Now(order), Ids(order))
      modifies this`blockedQueue, this`sent, flow`streams, flow`conn, order[k]
      ensures VisitedAt(old(Now(order)), Now(order), Ids(order), k, maxBytes, currentLen, frame, cont)
    {
      ghost var states, ids := States(order), Ids(order);
      assert CountedAt(states[k], ids[k], flow.streams, sent);
      frame, cont := VisitStream(order[k], maxBytes, currentLen);
      ghost var after := States(order);
      forall i | 0 <= i < |ids| ensures after[i] == if ids[i] == ids[k] then order[k].State() else states[i] {
        assert order[i] != order[k] ==> order[i].State() == states[i];
      }
    }

    method Resend(ghost order: seq<Stream>, maxLen: nat) returns (res: seq<StreamFrame>, currentLen: nat)
      modifies this`retransmissionQueue
      ensures Resent(old(retransmissionQueue), retransmissionQueue, res, maxLen) && currentLen == TotalLen(res)
      ensures Now(order) == old(Now(order))
    {
      ghost var n, k;
      res, currentLen, n, k := MaybePopFramesForRetransmission(maxLen);
      PoppedResent(old(retransmissionQueue), retransmissionQueue, res, n, k, maxLen);
    }

    /** All stream frames for one packet: retransmissions first, then new data. */
    method PopStreamFrames(order: seq<Stream>, maxLen: nat)
      returns (res: seq<StreamFrame>, ghost p: Popping)
      requires Consistent(order)
      modifies this`retransmissionQueue, this`blockedQueue, this`sent, flow`streams, flow`conn, order
      ensures Consistent(order) && res == p.Frames() && TotalLen(res) <= maxLen == p.maxLen
      ensures PoppedBy(p, old(Now(order)), Now(order), Ids(order), old(retransmissionQueue), retransmissionQueue)
    {
      ghost var x := Now(order);
      var fs, currentLen, normal;
      fs, currentLen := Resend(order, maxLen);
      var maxBytes := maxLen - currentLen;
      ghost var w;
      normal, w := MaybePopNormalFrames(x, order, maxBytes);
      TotalLenConcat(fs, normal);
      res, p := fs + normal, Popping(maxLen, fs, maxBytes, w);
    }

    /** The next frame of the crypto stream, which is not flow controlled. */
    method PopCryptoStreamFrame(s: Stream, maxLen: nat) returns (frame: Option<StreamFrame>)
      requires s.State().Ok() && s.streamID == CRYPTO_STREAM
      requires MinLength(EmptyFrame(CRYPTO_STREAM, s.writeOffset).(dataLenPresent := false)) < maxLen
      modifies s
      ensures s.State().Ok()
      ensures frame.Some? <==> !s.err && old(s.dataForWriting).Some?
      ensures frame.None? ==> s.State() == old(s.State())
      ensures frame.Some? ==>
                var f := frame.value;
                && WireLen(f) <= maxLen && |f.data| > 0 && !f.dataLenPresent && !f.fin && f.streamID == CRYPTO_STREAM
                && (|s.State().Pending()| == 0 || WireLen(f) == maxLen)
                && |f.data| <= |old(s.State()).Pending()| && s.State() == old(s.State()).Emit(EmissionOf(f))
    {
      frame := None;
      var n := s.LenOfDataForWriting();
      if n != 0 {
        ghost var before := s.State();
        var f := EmptyFrame(CRYPTO_STREAM, s.writeOffset).(dataLenPresent := false);
        var data := s.GetDataForWriting(maxLen - MinLength(f));
        f := f.(data := data.value);
        s.log := s.log + [EmissionOf(f)];
        assert s.State() == before.Emit(EmissionOf(f));
        DataKeepsOk(before, |f.data|);
        frame := Some(f);
      }
    }
  }
}
