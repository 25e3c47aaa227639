/** One stream from end to end: Write, framing, loss, retransmission, a network of several paths,
the receiving sorter, and Read.

Frames that were put on any path stay on the wire for ever, so delivering any of them, at any time
and any number of times, covers loss, reordering and duplication. Read drops the stream's mutex
between looking at the head frame, copying from it and popping it, so these are separate steps and
frames may arrive in between.
*/
module Transport {
  import opened Basics
  import opened Frames
  import opened FrameSorter
  import opened Streams
  import opened StreamFramer
  import opened FlowControl
  import opened StreamReader

  datatype World = World(
    streamID: nat,
    send: SendState,
    queue: seq<StreamFrame>,    // frames queued for retransmission
    wire: set<StreamFrame>,     // frames ever sent on any path
    sorter: SorterState,
    readOffset: nat,
    held: Option<StreamFrame>,  // the head frame Read is working on
    delivered: seq<byte>,
    eof: bool
  )

  function Init(id: nat): World {
    World(id, NEW_STREAM, [], {}, InitialState(), 0, None, [], false)
  }

  datatype Action =
    | Send(ev: SendEvent)
    | Lose(f: StreamFrame)
    | Resend(res: seq<StreamFrame>)
    | Deliver(f: StreamFrame, result: PushResult)
    | ReadHead
    | ReadCopy(m: nat)
    | ReadPop(popped: Option<StreamFrame>)
    | ReadReturn

  /** Frames emitted by a step of the sending stream. */
  ghost function NewFrames(id: nat, s: SendState, t: SendState): set<StreamFrame> {
    set i | |s.log| <= i < |t.log| && t.log[i].FrameOut? :: FrameFor(id, t.log[i])
  }

  /** Read copies m bytes of the frame it holds. */
  ghost predicate Copies(w: World, m: nat, v: World) {
    && w.held.Some? && w.held.value.offset <= w.readOffset && w.readOffset + m <= w.held.value.End()
    && var pos := w.readOffset - w.held.value.offset;
       v == w.(delivered := w.delivered + w.held.value.data[pos..pos + m], readOffset := w.readOffset + m)
  }

  ghost predicate Next(w: World, a: Action, v: World) {
    match a
    case Send(ev) =>
      var t := Streams.Next(w.send, ev);
      && |t.written| < MAX_BYTE_COUNT
      && v == w.(send := t, wire := w.wire + NewFrames(w.streamID, w.send, t))
    case Lose(f) =>
      // a frame taken back from a lost packet, which an earlier split may have shortened
      && (exists g :: g in w.wire && PartOf(f, g))
      && v == w.(queue := w.queue + [f])
    case Resend(res) =>
      && (exists n, k :: PoppedAt(w.queue, res, v.queue, n, k))
      && v == w.(queue := v.queue, wire := w.wire + (set f | f in res))
    case Deliver(f, r) =>
      && f in w.wire
      && PushRel(w.sorter, f, r, v.sorter) && (r == Pushed || r == Duplicate)
      && v == w.(sorter := v.sorter)
    case ReadHead =>
      && !w.eof && w.held.None? && HeadOf(w.sorter).Some?
      && v == w.(held := HeadOf(w.sorter))
    case ReadCopy(m) => Copies(w, m, v)
    case ReadPop(r) =>
      && w.held.Some? && w.held.value.End() <= w.readOffset
      && PopRel(w.sorter, r, v.sorter)
      && v == w.(sorter := v.sorter, held := None, eof := w.eof || w.held.value.fin)
    case ReadReturn => v == w.(held := None)
  }

  // ----- the invariant -----

  /** Every frame of this stream, anywhere, is an exact slice of the written bytes that have been sent; a
  FIN mark sits at the final offset only. */
  ghost predicate FrameExact(id: nat, send: SendState, f: StreamFrame) {
    && f.SliceOf(send.written) && f.End() <= send.writeOffset && f.streamID == id
    && (|f.data| > 0 || f.fin)
    && (f.fin ==> send.finSent && f.End() == |send.written|)
  }

  ghost predicate SenderOk(id: nat, send: SendState, wire: set<StreamFrame>, queue: seq<StreamFrame>) {
    && send.Ok() && |send.written| < MAX_BYTE_COUNT
    && (forall f :: f in wire ==> FrameExact(id, send, f))
    && (forall f :: f in queue ==> FrameExact(id, send, f))
  }

  ghost predicate ReceiverOk(send: SendState, sorter: SorterState) {
    && Valid(sorter)
    && (forall x :: Got(sorter, x) ==> x < send.writeOffset)
    && QueuedSlices(sorter, send.written)
    && (forall k :: k in sorter.queued ==> QueuedMarks(send, k, sorter.queued[k]))
  }

  /** Only FIN frames are empty, and they lie at the final offset. */
  ghost predicate QueuedMarks(send: SendState, k: nat, f: StreamFrame) {
    (f.fin ==> send.finSent) && (|f.data| == 0 ==> k == |send.written|)
  }

  /** Bytes read are the written bytes up to readOffset, which lies in or right behind the head
  frame; a held frame is still the head. */
  ghost predicate ReaderOk(written: seq<byte>, sorter: SorterState, readOffset: nat, delivered: seq<byte>, held: Option<StreamFrame>) {
    && readOffset <= |written| && delivered == written[..readOffset]
    && sorter.readPosition <= readOffset
    && (readOffset > sorter.readPosition ==> HeadOf(sorter).Some? && readOffset <= HeadOf(sorter).value.End())
    && (held.Some? ==> HeadOf(sorter).Some? && SameSpan(held.value, HeadOf(sorter).value))
  }

  /** The same bytes and FIN mark. */
  ghost predicate SameSpan(f: StreamFrame, g: StreamFrame) {
    f.offset == g.offset && f.data == g.data && f.fin == g.fin
  }

  ghost predicate Inv(w: World) {
    && SenderOk(w.streamID, w.send, w.wire, w.queue)
    && ReceiverOk(w.send, w.sorter)
    && ReaderOk(w.send.written, w.sorter, w.readOffset, w.delivered, w.held)
  }

  // ----- the sending side -----

  /** Writing only appends, what is sent stays sent, and nothing is written once a FIN is out. */
  ghost predicate Grows(s: SendState, t: SendState) {
    s.written <= t.written && s.writeOffset <= t.writeOffset && (s.finSent ==> t.finSent && t.written == s.written)
  }

  lemma {:induction false} WrittenGrows(s: SendState, ev: SendEvent)
    requires s.Ok()
    ensures Grows(s, Streams.Next(s, ev))
  {
    match ev {
      case Writing(p) =>
      case Visited(maxLen) =>
      case Closed =>
      case Cancelled =>
      case ReadToEnd =>
      case ResetLocally =>
      case ResetRemotely =>
    }
  }

  lemma {:induction false} SliceAfterWrite(f: StreamFrame, a: seq<byte>, b: seq<byte>)
    requires f.SliceOf(a) && a <= b
    ensures f.SliceOf(b)
  {
    assert b[f.offset..f.End()] == a[f.offset..f.End()];
  }

  lemma {:induction false} ExactPart(id: nat, send: SendState, p: StreamFrame, f: StreamFrame)
    requires FrameExact(id, send, f) && PartOf(p, f)
    ensures FrameExact(id, send, p)
  {
    PieceIsSlice(p, f, send.written);
  }

  /** The last frame of an exact log is an exact slice. */
  lemma {:induction false} EmittedExact(id: nat, send: SendState)
    requires send.Ok() && send.log != [] && send.log[|send.log| - 1].FrameOut?
    requires var e := send.log[|send.log| - 1]; |e.data| > 0 || e.fin
    ensures FrameExact(id, send, FrameFor(id, send.log[|send.log| - 1]))
  {
    var e := send.log[|send.log| - 1];
    assert e.data == send.written[e.offset..e.offset + |e.data|];
  }

  /** A step emits at most one frame, and never an empty one without a FIN. */
  lemma {:induction false} EmitsOne(s: SendState, ev: SendEvent)
    requires s.Ok()
    ensures Emits(s, Streams.Next(s, ev))
  {
    match ev {
      case Writing(p) =>
      case Visited(maxLen) =>
      case Closed =>
      case Cancelled =>
      case ReadToEnd =>
      case ResetLocally =>
      case ResetRemotely =>
    }
  }

  lemma {:induction false} StaysExact(id: nat, s: SendState, t: SendState, f: StreamFrame)
    requires FrameExact(id, s, f) && Grows(s, t)
    ensures FrameExact(id, t, f)
  {
    SliceAfterWrite(f, s.written, t.written);
  }

  /** What a step emits, next to what it leaves: at most one frame, which is not empty. */
  ghost predicate Emits(s: SendState, t: SendState) {
    |t.log| <= |s.log| + 1 && (|t.log| > |s.log| && t.log[|s.log|].FrameOut? ==> |t.log[|s.log|].data| > 0 || t.log[|s.log|].fin)
  }

  lemma {:induction false} GrowthKeepsSender(id: nat, s: SendState, t: SendState, wire: set<StreamFrame>, queue: seq<StreamFrame>)
    requires SenderOk(id, s, wire, queue) && t.Ok() && |t.written| < MAX_BYTE_COUNT && Grows(s, t) && Emits(s, t)
    ensures SenderOk(id, t, wire + NewFrames(id, s, t), queue)
  {
    forall f | f in wire || f in queue ensures FrameExact(id, t, f) {
      StaysExact(id, s, t, f);
    }
    forall f | f in NewFrames(id, s, t) ensures FrameExact(id, t, f) {
      NewIsExact(id, s, t, f);
    }
  }

  lemma {:induction false} NewIsExact(id: nat, s: SendState, t: SendState, f: StreamFrame)
    requires t.Ok() && Emits(s, t) && f in NewFrames(id, s, t)
    ensures FrameExact(id, t, f)
  {
    EmittedExact(id, t);
  }

  lemma {:induction false} SendKeepsSender(w: World, ev: SendEvent, v: World)
    requires Inv(w) && Next(w, Send(ev), v)
    ensures SenderOk(v.streamID, v.send, v.wire, v.queue)
  {
    NextKeepsOk(w.send, ev);
    WrittenGrows(w.send, ev);
    EmitsOne(w.send, ev);
    GrowthKeepsSender(w.streamID, w.send, v.send, w.wire, w.queue);
  }

  lemma {:induction false} SendKeepsReceiver(w: World, ev: SendEvent, v: World)
    requires Inv(w) && Next(w, Send(ev), v)
    ensures ReceiverOk(v.send, v.sorter)
    ensures ReaderOk(v.send.written, v.sorter, v.readOffset, v.delivered, v.held)
  {
    WrittenGrows(w.send, ev);
    GrowthKeepsReceiver(w.send, v.send, w.sorter);
    GrowthKeepsReader(w.send, v.send, w.sorter, w.readOffset, w.delivered, w.held);
  }

  lemma {:induction false} GrowthKeepsReceiver(s: SendState, t: SendState, sorter: SorterState)
    requires Grows(s, t) && ReceiverOk(s, sorter)
    requires forall k :: k in sorter.queued && |sorter.queued[k].data| == 0 ==> sorter.queued[k].fin
    ensures ReceiverOk(t, sorter)
  {
    forall k | k in sorter.queued ensures sorter.queued[k].SliceOf(t.written) {
      SliceAfterWrite(sorter.queued[k], s.written, t.written);
    }
  }

  lemma {:induction false} GrowthKeepsReader(s: SendState, t: SendState, sorter: SorterState, readOffset: nat, delivered: seq<byte>,
                                             held: Option<StreamFrame>)
    requires Grows(s, t) && ReaderOk(s.written, sorter, readOffset, delivered, held)
    ensures ReaderOk(t.written, sorter, readOffset, delivered, held)
  {
    assert t.written[..readOffset] == s.written[..readOffset];
  }

  lemma {:induction false} ResendKeepsInv(w: World, res: seq<StreamFrame>, v: World)
    requires Inv(w) && Next(w, Resend(res), v)
    ensures Inv(v)
  {
    var n, k :| PoppedAt(w.queue, res, v.queue, n, k);
    PoppedParts(w.queue, res, v.queue, n, k);
    forall f | f in res || f in v.queue
      ensures FrameExact(w.streamID, w.send, f)
    {
      PartsExact(w.streamID, w.send, w.queue, res + v.queue, f);
    }
  }

  lemma {:induction false} PartsExact(id: nat, send: SendState, queue: seq<StreamFrame>, parts: seq<StreamFrame>, f: StreamFrame)
    requires PartsOf(parts, queue) && f in parts
    requires forall g :: g in queue ==> FrameExact(id, send, g)
    ensures FrameExact(id, send, f)
  {
    var i :| 0 <= i < |parts| && parts[i] == f;
    var j :| 0 <= j < |queue| && PartOf(parts[i], queue[j]);
    ExactPart(id, send, f, queue[j]);
  }

  lemma {:induction false} LoseKeepsInv(w: World, f: StreamFrame, v: World)
    requires Inv(w) && Next(w, Lose(f), v)
    ensures Inv(v)
  {
    var g :| g in w.wire && PartOf(f, g);
    ExactPart(w.streamID, w.send, f, g);
  }

  // ----- the receiving side -----

  /** No frame on the wire overwrites data in the sorter, whenever it is delivered. */
  lemma {:induction false} WireOverwritesNothing(w: World, f: StreamFrame)
    requires Inv(w) && f in w.wire
    ensures !Overwrites(w.sorter, f) && f.End() < MAX_BYTE_COUNT
  {
    if Overwrites(w.sorter, f) {
      LinkedStarts(w.sorter);
      OnChainReceived(w.sorter.queued, w.sorter.readPosition, w.sorter.gaps, f.offset);
      assert Got(w.sorter, f.offset);
      assert false;
    }
  }

  /** When the read position has reached the end, every byte of every frame has been received. */
  lemma {:induction false} ReadAllGot(send: SendState, sorter: SorterState, f: StreamFrame)
    requires ReceiverOk(send, sorter) && f.SliceOf(send.written) && sorter.readPosition >= |send.written|
    requires |send.written| < MAX_BYTE_COUNT
    ensures AllGot(sorter, f)
  {
    LinkedStarts(sorter);
  }

  lemma {:induction false} DeliverKeepsReceiver(w: World, f: StreamFrame, r: PushResult, v: World)
    requires Inv(w) && Next(w, Deliver(f, r), v)
    ensures ReceiverOk(v.send, v.sorter)
  {
    WireOverwritesNothing(w, f);
    PushKeepsSlices(w.sorter, f, r, v.sorter, w.send.written);
    forall x | Got(v.sorter, x)
      ensures x < v.send.writeOffset
    {
      PushGot(w.sorter, f, r, v.sorter, x);
    }
  }

  lemma {:induction false} DeliverKeepsReader(w: World, f: StreamFrame, r: PushResult, v: World)
    requires Inv(w) && Next(w, Deliver(f, r), v)
    ensures ReaderOk(v.send.written, v.sorter, v.readOffset, v.delivered, v.held)
  {
    if r == Pushed && HeadOf(w.sorter).Some? {
      var h := HeadOf(w.sorter).value;
      HeadComplete(w.sorter);
      if |f.data| > 0 {
        if |h.data| == 0 {
          ReadAllGot(w.send, w.sorter, f);
          assert false;
        }
        assert HeadOf(v.sorter) == HeadOf(w.sorter);
      } else if h.offset == f.offset {
        assert |h.data| == 0;
      }
    }
  }

  lemma {:induction false} CopyKeepsReader(written: seq<byte>, sorter: SorterState, readOffset: nat, delivered: seq<byte>, f: StreamFrame, m: nat)
    requires ReaderOk(written, sorter, readOffset, delivered, Some(f)) && f.SliceOf(written)
    requires f.offset <= readOffset && readOffset + m <= f.End() && sorter.readPosition == f.offset
    ensures ReaderOk(written, sorter, readOffset + m, delivered + f.data[readOffset - f.offset..readOffset - f.offset + m], Some(f))
  {
    NextBytes(f, written, readOffset, m);
  }

  lemma {:induction false} ReadCopyKeepsReader(w: World, m: nat, v: World)
    requires QueuedSlices(w.sorter, w.send.written) && (forall k :: k in w.sorter.queued ==> w.sorter.queued[k].offset == k)
    requires ReaderOk(w.send.written, w.sorter, w.readOffset, w.delivered, w.held) && Copies(w, m, v)
    ensures ReaderOk(v.send.written, v.sorter, v.readOffset, v.delivered, v.held)
  {
    var h := HeadOf(w.sorter).value;
    assert h.SliceOf(w.send.written) && h.offset == w.sorter.readPosition;
    CopyKeepsReader(w.send.written, w.sorter, w.readOffset, w.delivered, w.held.value, m);
  }

  /** The frame popped is the frame Read has been copying from, whatever arrived in between, and the
  read position moves exactly to the read offset. */
  lemma {:induction false} PopsHeldFrame(w: World, r: Option<StreamFrame>, v: World)
    requires Inv(w) && Next(w, ReadPop(r), v)
    ensures r.Some? && SameSpan(r.value, w.held.value)
    ensures v.sorter.readPosition == w.readOffset
  {
  }

  lemma {:induction false} ReadPopKeepsReceiver(w: World, r: Option<StreamFrame>, v: World)
    requires Inv(w) && Next(w, ReadPop(r), v)
    ensures ReceiverOk(v.send, v.sorter)
  {
    PopKeepsValid(w.sorter, r, v.sorter);
    assert forall x :: Got(v.sorter, x) ==> Got(w.sorter, x);
  }

  // ----- every run -----

  lemma {:induction false} StepKeepsInv(w: World, a: Action, v: World)
    requires Inv(w) && Next(w, a, v)
    ensures Inv(v)
  {
    match a {
      case Send(ev) =>
        SendKeepsSender(w, ev, v);
        SendKeepsReceiver(w, ev, v);
      case Lose(f) =>
        LoseKeepsInv(w, f, v);
      case Resend(res) =>
        ResendKeepsInv(w, res, v);
      case Deliver(f, r) =>
        DeliverKeepsReceiver(w, f, r, v);
        DeliverKeepsReader(w, f, r, v);
      case ReadHead =>
      case ReadCopy(m) =>
        ReadCopyKeepsReader(w, m, v);
      case ReadPop(r) =>
        PopsHeldFrame(w, r, v);
        ReadPopKeepsReceiver(w, r, v);
      case ReadReturn =>
    }
  }

  /** The first i actions lead from a new stream through the first i + 1 worlds. */
  ghost predicate RunTo(worlds: seq<World>, actions: seq<Action>, i: nat, next: (World, Action, World) -> bool)
    requires |worlds| == |actions| + 1 && i <= |actions|
    decreases i
  {
    if i == 0 then worlds[0] == Init(worlds[0].streamID)
    else RunTo(worlds, actions, i - 1, next) && next(worlds[i - 1], actions[i - 1], worlds[i])
  }

  ghost predicate IsRun(worlds: seq<World>, actions: seq<Action>) {
    |worlds| == |actions| + 1 && RunTo(worlds, actions, |actions|, Next)
  }

  lemma {:induction false} InitInv(id: nat)
    ensures Inv(Init(id))
  {
    InitialValid();
  }

  /** Every allowed step keeps the property. */
  ghost predicate StepsKeep(next: (World, Action, World) -> bool, p: World -> bool, allowed: (World, Action) -> bool) {
    forall w, a, v :: p(w) && allowed(w, a) && next(w, a, v) ==> p(v)
  }

  /** A property that new streams have and that every allowed step keeps holds at the end of a run. */
  lemma {:induction false} RunInduction(worlds: seq<World>, actions: seq<Action>, i: nat, next: (World, Action, World) -> bool,
                                        p: World -> bool, allowed: (World, Action) -> bool)
    requires |worlds| == |actions| + 1 && i <= |actions| && RunTo(worlds, actions, i, next)
    requires forall j :: 0 <= j < i ==> allowed(worlds[j], actions[j])
    requires forall id :: p(Init(id))
    requires StepsKeep(next, p, allowed)
    ensures p(worlds[i])
    decreases i
  {
    if i > 0 {
      RunInduction(worlds, actions, i - 1, next, p, allowed);
      assert allowed(worlds[i - 1], actions[i - 1]);
    }
  }

  lemma {:induction false} RunKeepsInv(worlds: seq<World>, actions: seq<Action>)
    requires IsRun(worlds, actions)
    ensures Inv(worlds[|actions|])
  {
    var p := (w: World) => Inv(w);
    forall id ensures p(Init(id)) {
      InitInv(id);
    }
    var allowed := (w: World, a: Action) => true;
    forall w, a, v | p(w) && allowed(w, a) && Next(w, a, v) ensures p(v) {
      StepKeepsInv(w, a, v);
    }
    assert StepsKeep(Next, p, allowed);
    RunInduction(worlds, actions, |actions|, Next, p, allowed);
  }

  /** The reader is never ahead of what the sender has put into frames. */
  lemma {:induction false} ReadIsSent(w: World)
    requires Inv(w)
    ensures w.readOffset <= w.send.writeOffset
  {
    LinkedStarts(w.sorter);
    if w.readOffset > 0 {
      HeadReceived(w.sorter, w.readOffset);
      assert Got(w.sorter, w.readOffset - 1);
    }
  }

  /** All bytes before the end of the head frame have been received. */
  lemma {:induction false} HeadReceived(s: SorterState, readOffset: nat)
    requires Valid(s) && s.readPosition <= readOffset && 0 < readOffset
    requires readOffset > s.readPosition ==> HeadOf(s).Some? && readOffset <= HeadOf(s).value.End()
    ensures Got(s, readOffset - 1)
  {
    LinkedStarts(s);
    ChainBound(s.queued, s.readPosition, s.gaps[0].start);
  }

  /** End-to-end safety: in every run, the bytes handed out by Read are a prefix of the bytes taken
  by Write, and no more than the sender has put into frames, which is what its Writes report. */
  lemma {:induction false} DeliveredIsPrefixOfWritten(worlds: seq<World>, actions: seq<Action>)
    requires IsRun(worlds, actions)
    ensures var w := worlds[|actions|];
            w.delivered <= w.send.written && |w.delivered| <= w.send.writeOffset
  {
    RunKeepsInv(worlds, actions);
    ReadIsSent(worlds[|actions|]);
  }

  /** Delivery: when every written byte has arrived and the reader finds nothing more, all of them have
  been handed out. */
  lemma {:induction false} ArrivedMeansReadable(worlds: seq<World>, actions: seq<Action>)
    requires IsRun(worlds, actions)
    ensures var w := worlds[|actions|];
            HeadOf(w.sorter).None? && (forall x :: 0 <= x < |w.send.written| ==> Got(w.sorter, x)) ==> w.delivered == w.send.written
  {
    RunKeepsInv(worlds, actions);
    HeadComplete(worlds[|actions|].sorter);
  }

  // ----- the end of the stream -----

  /** A FIN data frame is stored without its tail: its last byte has been received before. */
  ghost predicate TailCut(w: World, a: Action) {
    a.Deliver? && a.result == Pushed && a.f.fin && |a.f.data| > 0 && Got(w.sorter, a.f.End() - 1)
  }

  /** Queued FIN marks sit at the final offset. */
  ghost predicate MarksAtEnd(send: SendState, sorter: SorterState) {
    forall k :: k in sorter.queued && sorter.queued[k].fin ==> sorter.queued[k].End() == |send.written|
  }

  /** The end is reported at the final offset only. */
  ghost predicate FinOk(w: World) {
    && MarksAtEnd(w.send, w.sorter)
    && (w.eof ==> w.send.finSent && w.readOffset == |w.send.written|)
  }

  lemma {:induction false} SendKeepsFinOk(w: World, ev: SendEvent, v: World)
    requires Inv(w) && FinOk(w) && Next(w, Send(ev), v)
    ensures FinOk(v)
  {
    WrittenGrows(w.send, ev);
    forall k | k in v.sorter.queued && v.sorter.queued[k].fin
      ensures v.sorter.queued[k].End() == |v.send.written|
    {
      assert QueuedMarks(w.send, k, w.sorter.queued[k]);
    }
  }

  lemma {:induction false} DeliverKeepsMarks(w: World, f: StreamFrame, r: PushResult, v: World)
    requires Inv(w) && FinOk(w) && Next(w, Deliver(f, r), v) && !TailCut(w, Deliver(f, r))
    ensures MarksAtEnd(v.send, v.sorter)
  {
    assert FrameExact(w.streamID, w.send, f);
    forall k | k in v.sorter.queued && v.sorter.queued[k].fin
      ensures v.sorter.queued[k].End() == |v.send.written|
    {
      if r == Pushed && |f.data| > 0 && !(k in w.sorter.queued && v.sorter.queued[k] == w.sorter.queued[k]) {
        assert Stored(w.sorter, f, k, v.sorter.queued[k]);
      }
    }
  }

  /** Exactly when a delivery puts a FIN mark in front of the end: a FIN frame with data is taken in
  whose last byte has been received before. */
  lemma {:induction false} MarkMovesExactly(w: World, f: StreamFrame, v: World)
    requires Inv(w) && FinOk(w) && Next(w, Deliver(f, Pushed), v)
    ensures MarksAtEnd(v.send, v.sorter) <==> !(f.fin && |f.data| > 0 && Got(w.sorter, f.End() - 1))
  {
    if TailCut(w, Deliver(f, Pushed)) {
      assert FrameExact(w.streamID, w.send, f);
      var k :| StoredAt(w.sorter, f, v.sorter, k);
      assert v.sorter.queued[k].End() != |v.send.written|;
    } else {
      DeliverKeepsMarks(w, f, Pushed, v);
    }
  }

  lemma {:induction false} StepKeepsFinOk(w: World, a: Action, v: World)
    requires Inv(w) && FinOk(w) && Next(w, a, v) && !TailCut(w, a)
    ensures FinOk(v)
  {
    match a {
      case Send(ev) =>
        SendKeepsFinOk(w, ev, v);
      case Deliver(f, r) =>
        DeliverKeepsMarks(w, f, r, v);
      case ReadPop(r) =>
        ReadPopKeepsFinOk(w, r, v);
      case ReadCopy(m) =>
        ReadCopyKeepsFinOk(w, m, v);
      case _ =>
    }
  }

  lemma {:induction false} ReadPopKeepsFinOk(w: World, r: Option<StreamFrame>, v: World)
    requires Inv(w) && FinOk(w) && Next(w, ReadPop(r), v)
    ensures FinOk(v)
  {
    PopsHeldFrame(w, r, v);
    var h := HeadOf(w.sorter).value;
    assert QueuedMarks(w.send, w.sorter.readPosition, h);
  }

  lemma {:induction false} ReadCopyKeepsFinOk(w: World, m: nat, v: World)
    requires Inv(w) && FinOk(w) && Copies(w, m, v)
    ensures FinOk(v)
  {
    assert HeadOf(w.sorter).value.SliceOf(w.send.written);
  }

  lemma {:induction false} RunKeepsFinOk(worlds: seq<World>, actions: seq<Action>)
    requires IsRun(worlds, actions)
    requires forall j :: 0 <= j < |actions| ==> !TailCut(worlds[j], actions[j])
    ensures Inv(worlds[|actions|]) && FinOk(worlds[|actions|])
  {
    var p := (w: World) => Inv(w) && FinOk(w);
    var allowed := (w: World, a: Action) => !TailCut(w, a);
    forall id ensures p(Init(id)) {
      InitInv(id);
    }
    forall w, a, v | p(w) && allowed(w, a) && Next(w, a, v) ensures p(v) {
      StepKeepsInv(w, a, v);
      StepKeepsFinOk(w, a, v);
    }
    assert StepsKeep(Next, p, allowed);
    RunInduction(worlds, actions, |actions|, Next, p, allowed);
  }

  /** Unless a FIN frame loses its tail, Read reports the end of the stream only after every written
  byte has been handed out. */
  lemma {:induction false} EndMeansEverything(worlds: seq<World>, actions: seq<Action>)
    requires IsRun(worlds, actions)
    requires forall j :: 0 <= j < |actions| ==> !TailCut(worlds[j], actions[j])
    ensures var w := worlds[|actions|]; w.eof ==> w.delivered == w.send.written
  {
    RunKeepsFinOk(worlds, actions);
  }

  /** Which FIN frames are cut: a frame at the read position whose first byte is missing and whose
  last byte is not becomes the head, with its FIN and without its tail. */
  lemma {:induction false} CutFrameKeepsFin(s: SorterState, f: StreamFrame, t: SorterState)
    requires Valid(s) && PushRel(s, f, Pushed, t) && |f.data| > 0
    requires f.offset == s.readPosition && !Got(s, f.offset) && Got(s, f.End() - 1)
    ensures HeadOf(t).Some? && HeadOf(t).value.fin == f.fin && HeadOf(t).value.End() < f.End()
    ensures |HeadOf(t).value.data| > 0
  {
    assert Got(t, f.offset);
    HeadComplete(t);
    HeadComplete(s);
    assert Stored(s, f, t.readPosition, t.queued[t.readPosition]);
  }

  /** A stream written and closed at once goes out as one frame with a FIN. */
  method SendWhole(written: seq<byte>) returns (original: StreamFrame)
    requires 1 < |written| < 1000
    ensures original == StreamFrame(5, 0, written, true, true)
  {
    var stream := new Stream(5);
    var waiting := stream.BeginWrite(written);
    stream.Close();
    WholeFrame(stream.State(), written);
    var whole := stream.TakeFrame(1000, true);
    original := FrameFor(5, whole.value);
  }

  lemma {:induction false} WholeFrame(s: SendState, written: seq<byte>)
    requires s == NEW_STREAM.(data := Some(written), written := written, finishedWriting := true) && |written| < 1000
    ensures s.NextFrame(1000) == FrameOut(0, written, true)
  {
    assert written[..|written|] == written;
  }

  lemma {:induction false} SplitsOneByte(f: StreamFrame, parts: seq<StreamFrame>, rest: seq<StreamFrame>, n: nat, k: nat)
    requires f == StreamFrame(5, 0, f.data, true, true) && |f.data| > 1
    requires PoppedAt([f], parts, rest, n, k) && TotalLen(parts) <= 5 && (k > 0 ==> TotalLen(parts) == 5)
    requires rest == [] || TotalLen(parts) + MinLength(Mark(rest[0])) >= 5
    ensures rest == [StreamFrame(5, 1, f.data[1..], true, true)]
  {
    if parts != [] {
      TotalLenAppend([], parts[0]);
      assert [] + [parts[0]] == parts;
    }
  }

  /** If that frame is declared lost while a packet has room for one byte, it is sent again in two
  parts, the second with the FIN. */
  method SendAgain(original: StreamFrame) returns (second: StreamFrame)
    requires original == StreamFrame(5, 0, original.data, true, true) && |original.data| > 1
    ensures second == StreamFrame(5, 1, original.data[1..], true, true)
  {
    var flow := new FlowControlManager(0, 0);
    var framer := new Framer(flow);
    framer.AddFrameForRetransmission(original);
    ghost var n, k;
    var parts, len;
    assert framer.retransmissionQueue == [original];
    parts, len, n, k := framer.MaybePopFramesForRetransmission(5);
    SplitsOneByte(original, parts, framer.retransmissionQueue, n, k);
    second := framer.retransmissionQueue[0];
  }

  /** The second part arrives first and the delayed original next. The original is cut to the missing
  first bytes but keeps its FIN. */
  method PushOutOfOrder(sorter: Sorter, written: seq<byte>, original: StreamFrame, second: StreamFrame)
    requires sorter.State() == InitialState() && 1 < |written| < MAX_BYTE_COUNT
    requires original == StreamFrame(5, 0, written, true, true) && second == StreamFrame(5, 1, written[1..], true, true)
    modifies sorter
    ensures Valid(sorter.State()) && QueuedSlices(sorter.State(), written) && sorter.readPosition == 0
    ensures HeadOf(sorter.State()).Some? && HeadOf(sorter.State()).value.fin && HeadOf(sorter.State()).value.End() == 1
  {
    InitInv(5);
    var r := sorter.Push(second);
    ghost var s1 := sorter.State();
    SecondAlone(written, second, r, s1);
    r := sorter.Push(original);
    OriginalIsCut(written, original, s1, r, sorter.State());
  }

  lemma {:induction false} OriginalIsCut(written: seq<byte>, original: StreamFrame, s: SorterState, r: PushResult, t: SorterState)
    requires 1 < |written| < MAX_BYTE_COUNT && original == StreamFrame(5, 0, written, true, true)
    requires Valid(s) && QueuedSlices(s, written) && s.readPosition == 0 && |s.gaps| <= 2 && !Got(s, 0) && Got(s, |written| - 1)
    requires forall k :: k in s.queued ==> k == 1
    requires PushRel(s, original, r, t)
    ensures Valid(t) && QueuedSlices(t, written) && t.readPosition == 0
    ensures HeadOf(t).Some? && HeadOf(t).value.fin && HeadOf(t).value.End() == 1
  {
    PushKeepsSlices(s, original, r, t, written);
    CutFrameKeepsFin(s, original, t);
    HeadEndsAtNext(written, original, s, t);
  }

  /** The chain from the head goes on at the only other entry. */
  lemma {:induction false} HeadEndsAtNext(written: seq<byte>, original: StreamFrame, s: SorterState, t: SorterState)
    requires original == StreamFrame(5, 0, written, true, true) && 1 < |written| < MAX_BYTE_COUNT
    requires Valid(t) && t.readPosition == 0 && HeadOf(t).Some? && 0 < HeadOf(t).value.End() < |written|
    requires (forall k :: k in s.queued ==> k == 1) && Absorbed(s, original, t)
    ensures HeadOf(t).value.End() == 1
  {
    var e := HeadOf(t).value.End();
    assert Got(t, 0) && Got(t, e);
    GapStartMissing(t, 0);
    assert Chain(t.queued, 0, t.gaps[0].start) && Chain(t.queued, e, t.gaps[0].start);
    var k :| StoredAt(s, original, t, k);
  }

  lemma {:induction false} SecondAlone(written: seq<byte>, second: StreamFrame, r: PushResult, s: SorterState)
    requires 1 < |written| < MAX_BYTE_COUNT && second == StreamFrame(5, 1, written[1..], true, true)
    requires PushRel(InitialState(), second, r, s)
    ensures Valid(s) && QueuedSlices(s, written) && s.readPosition == 0 && |s.gaps| <= 2
    ensures !Got(s, 0) && Got(s, |written| - 1)
    ensures forall k :: k in s.queued ==> k == 1
    ensures forall k :: k in s.queued ==> |s.queued[k].data| > 0
  {
    NothingGot();
    assert !Got(InitialState(), 1);
    PushKeepsSlices(InitialState(), second, r, s, written);
    FirstGapEnds(s, |written|);
    var k :| StoredAt(InitialState(), second, s, k);
  }

  /** When bytes 1 to n have been received, a frame is queued at 1. */
  lemma {:induction false} FirstGapEnds(s: SorterState, n: nat)
    requires Valid(s) && 1 < n < MAX_BYTE_COUNT && forall x :: Got(s, x) <==> 1 <= x < n
    ensures 1 in s.queued
  {
    assert !Got(s, 0) && Got(s, 1);
    assert s.gaps[0].start <= 0;
    assert !InGap(s.gaps, 1);
    assert s.gaps[0].end == 1;
    BlockHead(s.queued, s.readPosition, s.gaps, 0);
  }

  lemma {:induction false} NothingGot()
    ensures forall x :: !Got(InitialState(), x)
  {
    forall x
      ensures !Got(InitialState(), x)
    {
      var g := InitialState().gaps;
      assert 0 <= x < MAX_BYTE_COUNT ==> g[0].start <= x < g[0].end;
    }
  }

  /** So the hypothesis of EndMeansEverything is needed, even between two honest endpoints. */
  method PrematureEnd(written: seq<byte>) returns (delivered: seq<byte>, status: ReadStatus)
    requires 1 < |written| < 1000
    ensures status == EndOfStream && delivered == written[..1]
  {
    var original := SendWhole(written);
    var second := SendAgain(original);
    var sorter := new Sorter();
    var reader := new Reader(sorter);
    PushOutOfOrder(sorter, written, original, second);
    var buffer := new byte[|written|];
    var got;
    got, status := reader.Read(buffer, written);
    delivered := buffer[..got];
  }
}
