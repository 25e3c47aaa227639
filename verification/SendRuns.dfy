/** Whole runs of the sending side: streams are opened and removed, written, closed and reset, the framer
visits them in any order, and windows are negotiated and updated (stream_framer.go, flow_control_manager.go). */
module SendRuns {
  import opened Basics
  import opened Frames
  import opened Streams
  import opened FlowControl
  import opened StreamFramer

  /** All streams ever opened, those still open, flow control, and the first transmissions in order. */
  datatype World = World(streams: map<nat, SendState>, open: set<nat>, flow: FlowState, sent: seq<StreamFrame>)

  datatype Event =
    | Open(id: nat)
    | Remove(id: nat)
    | Happens(id: nat, ev: SendEvent)
    | Visit(id: nat, maxBytes: nat, currentLen: nat)
    | VisitCrypto(maxLen: nat)
    | WindowUpdate(id: nat, offset: nat)
    | Negotiate(forStreams: nat, forConn: nat)

  function NewWorld(forStreams: nat, forConn: nat): World {
    World(map[], {}, NewFlow(forStreams, forConn), [])
  }

  /** Stream ids are used once, visits go to open streams, and only visits emit frames. */
  predicate Enabled(w: World, e: Event) {
    match e
    case Open(id) => id != 0 && id !in w.streams
    case Remove(id) => id in w.open
    case Happens(id, ev) => id in w.streams && !ev.Visited?
    case Visit(id, _, _) => id in w.open && id in w.streams
    case VisitCrypto(n) => CRYPTO_STREAM in w.open && CRYPTO_STREAM in w.streams && n > 0
    case WindowUpdate(_, _) => true
    case Negotiate(_, _) => true
  }

  /** The state of the crypto stream after a visit that may take n bytes. */
  function CryptoSent(s: SendState, n: nat): SendState {
    if s.err || s.data.None? then s
    else s.Emit(FrameOut(s.writeOffset, s.Pending()[..Min(n, |s.Pending()|)], false))
  }

  /** One step; an event that cannot happen changes nothing. */
  function After(w: World, e: Event): World {
    if !Enabled(w, e) then w
    else
      match e
      case Open(id) =>
        w.(streams := w.streams[id := NEW_STREAM], open := w.open + {id}, flow := w.flow.NewStream(id, Contributes(id)))
      case Remove(id) => w.(open := w.open - {id}, flow := w.flow.RemoveStream(id))
      case Happens(id, ev) => w.(streams := w.streams[id := Next(w.streams[id], ev)])
      case Visit(id, maxBytes, currentLen) =>
        var s := w.streams[id];
        var maxLen := LimitFor(s, id, w.flow, maxBytes, currentLen);
        var frame := SentFrame(s, maxLen, id);
        w.(streams := w.streams[id := Next(s, Visited(maxLen))], flow := FlowAfter(w.flow, frame), sent := w.sent + Singleton(frame))
      case VisitCrypto(n) => w.(streams := w.streams[CRYPTO_STREAM := CryptoSent(w.streams[CRYPTO_STREAM], n)])
      case WindowUpdate(id, offset) => w.(flow := w.flow.UpdateWindow(id, offset))
      case Negotiate(s, c) => w.(flow := w.flow.Negotiate(s, c))
  }

  function Run(forStreams: nat, forConn: nat, es: seq<Event>): World {
    if es == [] then NewWorld(forStreams, forConn)
    else After(Run(forStreams, forConn, es[..|es| - 1]), es[|es| - 1])
  }

  /** The largest window that was ever advertised to a stream, by the parameters or by an update. */
  function Largest(forStreams: nat, es: seq<Event>, id: nat): nat {
    if es == [] then forStreams
    else
      var before, e := Largest(forStreams, es[..|es| - 1], id), es[|es| - 1];
      if e.WindowUpdate? && e.id == id then Max(before, e.offset)
      else if e.Negotiate? then Max(before, e.forStreams)
      else before
  }

  function LargestConn(forConn: nat, es: seq<Event>): nat {
    if es == [] then forConn
    else
      var before, e := LargestConn(forConn, es[..|es| - 1]), es[|es| - 1];
      if e.WindowUpdate? && e.id == 0 then Max(before, e.offset)
      else if e.Negotiate? then Max(before, e.forConn)
      else before
  }

  // ----- the invariant -----

  /** A stream: its log is exact, its frames are those sent, and it has not sent past limit. */
  ghost predicate StreamOk(w: World, id: nat, limit: nat)
    requires id in w.streams
  {
    var s := w.streams[id];
    && s.Ok()
    && (id in w.open ==> CountedAt(s, id, w.flow.streams, w.sent))
    && (id != CRYPTO_STREAM ==> FrameLog(s.log) == EmissionsOf(w.sent, id) && s.writeOffset <= limit)
  }

  /** Open streams are those with a flow controller. */
  ghost predicate Shaped(w: World) {
    w.open <= w.streams.Keys && w.flow.streams.Keys == w.open && Counts(w.flow, w.sent)
  }

  ghost predicate NoneFor(sent: seq<StreamFrame>, id: nat) {
    forall f :: f in sent ==> f.streamID != id
  }

  lemma {:induction false} NoEmissions(sent: seq<StreamFrame>, id: nat)
    requires NoneFor(sent, id)
    ensures EmissionsOf(sent, id) == []
    decreases |sent|
  {
    if sent != [] {
      assert sent[|sent| - 1] in sent;
      NoEmissions(sent[..|sent| - 1], id);
    }
  }

  /** Only visits emit frames. */
  lemma {:induction false} EventKeepsOk(s: SendState, ev: SendEvent)
    requires s.Ok() && !ev.Visited?
    ensures Next(s, ev).Ok() && FrameLog(Next(s, ev).log) == FrameLog(s.log) && Next(s, ev).writeOffset == s.writeOffset
  {
    NextKeepsOk(s, ev);
    if ev.ResetLocally? || ev.ResetRemotely? {
      FrameLogAppend(s.log, RstOut(s.writeOffset));
    }
  }

  /** An open stream's controller counts its bytes, so that it stays within the largest window. */
  lemma {:induction false} OpenBound(w: World, id: nat, limit: nat)
    requires Shaped(w) && id in w.open && CountedAt(w.streams[id], id, w.flow.streams, w.sent) && w.flow.advertised[id] <= limit
    ensures id != CRYPTO_STREAM ==> w.streams[id].writeOffset <= limit
  {
  }

  lemma {:induction false} VisitShaped(w: World, e: Event)
    requires Shaped(w) && e.Visit? && Enabled(w, e) && CountedAt(w.streams[e.id], e.id, w.flow.streams, w.sent)
    ensures var w' := After(w, e);
            && Shaped(w') && CountedAt(w'.streams[e.id], e.id, w'.flow.streams, w'.sent)
            && OthersSame(w.flow.streams, w'.flow.streams, e.id) && w'.flow.advertised == w.flow.advertised
  {
    var s := w.streams[e.id];
    VisitKeepsCounts(s, e.id, w.flow, w.sent, LimitFor(s, e.id, w.flow, e.maxBytes, e.currentLen));
  }

  /** A visit to the stream itself. */
  lemma {:induction false} VisitedOk(w: World, e: Event, limit: nat)
    requires Shaped(w) && e.Visit? && Enabled(w, e) && StreamOk(w, e.id, limit) && w.flow.advertised[e.id] <= limit
    ensures StreamOk(After(w, e), e.id, limit)
  {
    VisitShaped(w, e);
    OpenBound(After(w, e), e.id, limit);
  }

  /** A visit to another stream. */
  lemma {:induction false} OtherVisitOk(w: World, e: Event, id: nat, limit: nat)
    requires Shaped(w) && e.Visit? && Enabled(w, e) && CountedAt(w.streams[e.id], e.id, w.flow.streams, w.sent)
    requires id in w.streams && id != e.id && StreamOk(w, id, limit)
    ensures StreamOk(After(w, e), id, limit)
  {
    VisitShaped(w, e);
    var s := w.streams[e.id];
    var frame := SentFrame(s, LimitFor(s, e.id, w.flow, e.maxBytes, e.currentLen), e.id);
    if id in w.open {
      CountedOthers(w.streams[id], id, w.flow.streams, After(w, e).flow.streams, w.sent, e.id, frame);
    }
    if frame.Some? {
      EmissionsAppend(w.sent, frame.value, id);
    } else {
      assert w.sent + Singleton(frame) == w.sent;
    }
  }

  lemma {:induction false} CryptoKeepsOk(s: SendState, n: nat)
    requires s.Ok() && n > 0
    ensures CryptoSent(s, n).Ok()
  {
    if !s.err && s.data.Some? {
      DataKeepsOk(s, Min(n, |s.Pending()|));
    }
  }

  /** Events that are no visits keep a stream as it should be. */
  lemma {:induction false} QuietOk(w: World, e: Event, id: nat, limit: nat)
    requires Shaped(w) && Enabled(w, e) && !e.Visit? && id in w.streams && StreamOk(w, id, limit)
    ensures StreamOk(After(w, e), id, limit)
  {
    match e {
      case Happens(i, ev) =>
        if i == id {
          EventKeepsOk(w.streams[id], ev);
        }
      case VisitCrypto(n) =>
        if id == CRYPTO_STREAM {
          CryptoKeepsOk(w.streams[id], n);
        }
      case _ =>
    }
  }

  lemma {:induction false} OpenedOk(w: World, e: Event, limit: nat)
    requires Shaped(w) && e.Open? && Enabled(w, e) && NoneFor(w.sent, e.id)
    ensures StreamOk(After(w, e), e.id, limit)
  {
    NoEmissions(w.sent, e.id);
  }

  lemma {:induction false} QuietShaped(w: World, e: Event)
    requires Shaped(w) && Enabled(w, e) && !e.Visit?
    ensures Shaped(After(w, e))
  {
    match e {
      case Open(id) => StreamsKeepCounts(w.flow, w.sent, id);
      case Remove(id) => StreamsKeepCounts(w.flow, w.sent, id);
      case WindowUpdate(id, offset) => WindowsKeepCounts(w.flow, w.sent, id, offset, 0, 0);
      case Negotiate(s, c) => WindowsKeepCounts(w.flow, w.sent, 0, 0, s, c);
      case _ =>
    }
  }

  // ----- every run -----

  /** What holds after a run: every stream is as it should be, against the windows advertised so far. */
  ghost predicate RunOk(w: World, forStreams: nat, forConn: nat, es: seq<Event>) {
    && Shaped(w)
    && (forall id :: id in w.streams ==> StreamOk(w, id, Largest(forStreams, es, id)))
    && (forall f :: f in w.sent ==> f.streamID in w.streams)
    && WindowsOk(w.flow, forStreams, forConn, es)
  }

  /** The books of flow control hold no window that was not advertised. */
  ghost predicate WindowsOk(flow: FlowState, forStreams: nat, forConn: nat, es: seq<Event>) {
    && (forall id :: id in flow.advertised ==> flow.advertised[id] <= Largest(forStreams, es, id))
    && (forall id :: flow.negotiated <= Largest(forStreams, es, id))
    && flow.connAdvertised <= LargestConn(forConn, es)
  }

  lemma {:induction false} LargestStep(forStreams: nat, es: seq<Event>, e: Event, id: nat)
    ensures Largest(forStreams, es + [e], id)
         == Max(Largest(forStreams, es, id), if e.WindowUpdate? && e.id == id then e.offset else if e.Negotiate? then e.forStreams else 0)
  {
    assert (es + [e])[..|es|] == es;
  }

  lemma {:induction false} LargestConnStep(forConn: nat, es: seq<Event>, e: Event)
    ensures LargestConn(forConn, es + [e])
         == Max(LargestConn(forConn, es), if e.WindowUpdate? && e.id == 0 then e.offset else if e.Negotiate? then e.forConn else 0)
  {
    assert (es + [e])[..|es|] == es;
  }

  lemma {:induction false} StepKeepsWindows(w: World, forStreams: nat, forConn: nat, es: seq<Event>, e: Event)
    requires WindowsOk(w.flow, forStreams, forConn, es)
    ensures WindowsOk(After(w, e).flow, forStreams, forConn, es + [e])
  {
    LargestConnStep(forConn, es, e);
    forall id ensures Largest(forStreams, es + [e], id)
         == Max(Largest(forStreams, es, id), if e.WindowUpdate? && e.id == id then e.offset else if e.Negotiate? then e.forStreams else 0) {
      LargestStep(forStreams, es, e, id);
    }
  }

  lemma {:induction false} StepKeepsStream(w: World, forStreams: nat, forConn: nat, es: seq<Event>, e: Event, id: nat)
    requires RunOk(w, forStreams, forConn, es) && Enabled(w, e) && id in After(w, e).streams
    ensures StreamOk(After(w, e), id, Largest(forStreams, es + [e], id))
  {
    LargestStep(forStreams, es, e, id);
    var limit := Largest(forStreams, es, id);
    if id !in w.streams {
      OpenedOk(w, e, limit);
    } else if !e.Visit? {
      QuietOk(w, e, id, limit);
    } else if e.id == id {
      VisitedOk(w, e, limit);
    } else {
      assert StreamOk(w, e.id, Largest(forStreams, es, e.id));
      OtherVisitOk(w, e, id, limit);
    }
  }

  lemma {:induction false} StepKeepsShape(w: World, forStreams: nat, forConn: nat, es: seq<Event>, e: Event)
    requires RunOk(w, forStreams, forConn, es) && Enabled(w, e)
    ensures Shaped(After(w, e)) && forall f :: f in After(w, e).sent ==> f.streamID in After(w, e).streams
  {
    if e.Visit? {
      assert StreamOk(w, e.id, Largest(forStreams, es, e.id));
      VisitShaped(w, e);
    } else {
      QuietShaped(w, e);
    }
  }

  lemma {:induction false} StepKeepsRunOk(w: World, forStreams: nat, forConn: nat, es: seq<Event>, e: Event)
    requires RunOk(w, forStreams, forConn, es)
    ensures RunOk(After(w, e), forStreams, forConn, es + [e])
  {
    StepKeepsWindows(w, forStreams, forConn, es, e);
    if Enabled(w, e) {
      StepKeepsShape(w, forStreams, forConn, es, e);
      forall id | id in After(w, e).streams ensures StreamOk(After(w, e), id, Largest(forStreams, es + [e], id)) {
        StepKeepsStream(w, forStreams, forConn, es, e, id);
      }
    } else {
      forall id | id in w.streams ensures StreamOk(w, id, Largest(forStreams, es + [e], id)) {
        LargestStep(forStreams, es, e, id);
      }
    }
  }

  lemma {:induction false} EveryRunIsOk(forStreams: nat, forConn: nat, es: seq<Event>)
    ensures RunOk(Run(forStreams, forConn, es), forStreams, forConn, es)
    decreases |es|
  {
    if es != [] {
      var before, e := es[..|es| - 1], es[|es| - 1];
      assert es == before + [e];
      EveryRunIsOk(forStreams, forConn, before);
      LastStep(Run(forStreams, forConn, before), Run(forStreams, forConn, es), forStreams, forConn, before, e, es);
    }
  }

  lemma {:induction false} LastStep(w: World, w': World, forStreams: nat, forConn: nat, before: seq<Event>, e: Event, es: seq<Event>)
    requires RunOk(w, forStreams, forConn, before) && w' == After(w, e) && es == before + [e]
    ensures RunOk(w', forStreams, forConn, es)
  {
    StepKeepsRunOk(w, forStreams, forConn, before, e);
  }

  // ----- windows in force -----

  /** The largest update received for an open stream, or for the connection. */
  function Received(forStreams: nat, forConn: nat, es: seq<Event>, id: nat): nat {
    if es == [] then 0
    else
      var before, e := es[..|es| - 1], es[|es| - 1];
      var most := Received(forStreams, forConn, before, id);
      if e.WindowUpdate? && e.id == id && (id == 0 || id in Run(forStreams, forConn, before).open) then Max(most, e.offset) else most
  }

  /** The windows negotiated last, for streams and for the connection. */
  function Negotiated(forStreams: nat, forConn: nat, es: seq<Event>): (nat, nat) {
    if es == [] then (forStreams, forConn)
    else
      var e := es[|es| - 1];
      if e.Negotiate? then (e.forStreams, e.forConn) else Negotiated(forStreams, forConn, es[..|es| - 1])
  }

  ghost predicate InForce(w: World, forStreams: nat, forConn: nat, es: seq<Event>) {
    && 0 !in w.open && w.flow.streams.Keys == w.open == w.flow.advertised.Keys && w.open <= w.streams.Keys
    && w.flow.negotiated == Negotiated(forStreams, forConn, es).0
    && w.flow.conn.negotiated == Negotiated(forStreams, forConn, es).1 && w.flow.conn.sendWindow == Received(forStreams, forConn, es, 0)
    && forall id :: id != 0 ==> ForceAt(w, forStreams, forConn, es, id)
  }

  /** The controller of an open stream has the largest update received and the window negotiated last. */
  ghost predicate ForceAt(w: World, forStreams: nat, forConn: nat, es: seq<Event>, id: nat) {
    && (id !in w.streams ==> Received(forStreams, forConn, es, id) == 0)
    && (id in w.flow.streams ==>
          && w.flow.streams[id].sendWindow == Received(forStreams, forConn, es, id)
          && w.flow.streams[id].negotiated == Negotiated(forStreams, forConn, es).0)
  }

  lemma {:induction false} ReceivedStep(forStreams: nat, forConn: nat, before: seq<Event>, e: Event, id: nat)
    ensures var most := Received(forStreams, forConn, before, id);
            Received(forStreams, forConn, before + [e], id) ==
            if e.WindowUpdate? && e.id == id && (id == 0 || id in Run(forStreams, forConn, before).open) then Max(most, e.offset) else most
    ensures Negotiated(forStreams, forConn, before + [e]) ==
            if e.Negotiate? then (e.forStreams, e.forConn) else Negotiated(forStreams, forConn, before)
  {
    assert (before + [e])[..|before|] == before;
  }

  lemma {:induction false} KeysKept(w: World, e: Event)
    requires w.flow.streams.Keys == w.open == w.flow.advertised.Keys && w.open <= w.streams.Keys
    ensures var v := After(w, e); v.flow.streams.Keys == v.open == v.flow.advertised.Keys && v.open <= v.streams.Keys
  {
    if Enabled(w, e) && e.Visit? {
      var s := w.streams[e.id];
      FlowKeys(w.flow, SentFrame(s, LimitFor(s, e.id, w.flow, e.maxBytes, e.currentLen), e.id));
    }
  }

  lemma {:induction false} ForceAtNext(w: World, forStreams: nat, forConn: nat, before: seq<Event>, e: Event, id: nat)
    requires w == Run(forStreams, forConn, before) && InForce(w, forStreams, forConn, before) && id != 0
    ensures ForceAt(After(w, e), forStreams, forConn, before + [e], id)
  {
    ReceivedStep(forStreams, forConn, before, e, id);
    assert ForceAt(w, forStreams, forConn, before, id);
  }

  lemma {:induction false} InForceNext(w: World, forStreams: nat, forConn: nat, before: seq<Event>, e: Event, es: seq<Event>)
    requires w == Run(forStreams, forConn, before) && es == before + [e] && InForce(w, forStreams, forConn, before)
    ensures InForce(After(w, e), forStreams, forConn, es)
  {
    KeysKept(w, e);
    ReceivedStep(forStreams, forConn, before, e, 0);
    forall id | id != 0 ensures ForceAt(After(w, e), forStreams, forConn, es, id) {
      ForceAtNext(w, forStreams, forConn, before, e, id);
    }
  }

  lemma {:induction false} EveryRunInForce(forStreams: nat, forConn: nat, es: seq<Event>)
    ensures InForce(Run(forStreams, forConn, es), forStreams, forConn, es)
    decreases |es|
  {
    if es != [] {
      var before, e := es[..|es| - 1], es[|es| - 1];
      EveryRunInForce(forStreams, forConn, before);
      InForceNext(Run(forStreams, forConn, before), forStreams, forConn, before, e, es);
    }
  }

  /** Over every run, a stream may send exactly what fits the largest update it has received, or the window negotiated
  last while there was none; and so for the connection. */
  lemma {:induction false} WindowsInForce(forStreams: nat, forConn: nat, es: seq<Event>, id: nat, n: nat)
    requires id in Run(forStreams, forConn, es).open && n > 0
    ensures var w := Run(forStreams, forConn, es);
            var own, all := Received(forStreams, forConn, es, id), Received(forStreams, forConn, es, 0);
            && id in w.flow.streams
            && (n <= w.flow.SendWindowSize(id) <==>
                && w.flow.streams[id].bytesSent + n <= (if own > 0 then own else Negotiated(forStreams, forConn, es).0)
                && (id != 1 && id != 3 ==> w.flow.conn.bytesSent + n <= (if all > 0 then all else Negotiated(forStreams, forConn, es).1)))
  {
    EveryRunInForce(forStreams, forConn, es);
    EveryRunIsOk(forStreams, forConn, es);
    var w := Run(forStreams, forConn, es);
    assert ForceAt(w, forStreams, forConn, es, id);
    SendWindowExactly(w.flow, id, n);
  }

  /** Dropping the reset of a log drops no data. */
  lemma {:induction false} FrameLogTiles(log: seq<Emission>)
    requires Tiles(log)
    ensures Tiles(FrameLog(log)) && Sent(FrameLog(log)) == Sent(log)
    decreases |log|
  {
    if log != [] {
      var before, e := log[..|log| - 1], log[|log| - 1];
      FrameLogTiles(before);
      if e.FrameOut? {
        assert (FrameLog(before) + [e])[..|FrameLog(before)|] == FrameLog(before);
      } else {
        assert FrameLog(before) + [] == FrameLog(before) && Sent(before) + [] == Sent(before);
      }
    }
  }

  /** Over every run, and whatever order streams are visited in: the first transmissions of a stream are
  its written bytes from offset 0 on, contiguous and in order, and never pass the largest window that was
  advertised to it; together, those of the streams that count never pass the largest one of the connection. */
  lemma {:induction false} SendsWithinWindows(forStreams: nat, forConn: nat, es: seq<Event>, id: nat)
    requires id in Run(forStreams, forConn, es).streams && id != CRYPTO_STREAM
    ensures var w := Run(forStreams, forConn, es);
            var s, firsts := w.streams[id], EmissionsOf(w.sent, id);
            && Tiles(firsts) && s.writeOffset <= |s.written| && Sent(firsts) == s.written[..s.writeOffset]
            && |Sent(firsts)| <= Largest(forStreams, es, id)
            && ConnBytes(w.sent) <= LargestConn(forConn, es)
  {
    EveryRunIsOk(forStreams, forConn, es);
    var w := Run(forStreams, forConn, es);
    var s := w.streams[id];
    assert StreamOk(w, id, Largest(forStreams, es, id));
    LogMeaning(s.log, s.writeOffset, s.written);
    FrameLogTiles(s.log);
  }
}
