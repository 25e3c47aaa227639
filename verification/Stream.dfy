/** The sending half of a stream (stream.go): data handed over by Write, the frames and resets
emitted for it, and the flags that end it.

Every method runs under the stream's mutex, so each is one atomic step; an invariant kept by every
method holds in every run. Write blocks until its data is taken, so a new Write starts only when
the last one has ended. Write deadlines are not modelled. Errors given to Reset, Cancel and
RegisterRemoteError are non-nil.
*/
module Streams {
  import opened Basics
  import opened Frames

  /** What a stream has put out for the first time: a STREAM frame or a RST_STREAM. */
  datatype Emission = FrameOut(offset: nat, data: seq<byte>, fin: bool) | RstOut(offset: nat)

  datatype WriteStatus = Refused | NothingToWrite | Waiting

  function DataOf(e: Emission): seq<byte> {
    if e.FrameOut? then e.data else []
  }

  /** The emission that fixes the stream's final offset. */
  predicate Final(e: Emission) {
    e.RstOut? || e.fin
  }

  /** All data emitted, in order. */
  function Sent(log: seq<Emission>): seq<byte> {
    if log == [] then [] else Sent(log[..|log| - 1]) + DataOf(log[|log| - 1])
  }

  /** Every emission starts where the data before it ended. */
  ghost predicate Tiles(log: seq<Emission>) {
    log == [] || (Tiles(log[..|log| - 1]) && log[|log| - 1].offset == |Sent(log[..|log| - 1])|)
  }

  lemma {:induction false} TilesAt(log: seq<Emission>, i: nat)
    requires Tiles(log) && i < |log|
    ensures log[i].offset == |Sent(log[..i])|
    decreases |log|
  {
    if i < |log| - 1 {
      TilesAt(log[..|log| - 1], i);
      assert log[..|log| - 1][..i] == log[..i];
    }
  }

  /** Nothing follows a FIN or RST. */
  ghost predicate FinalIsLast(log: seq<Emission>) {
    forall i :: 0 <= i < |log| && Final(log[i]) ==> i == |log| - 1
  }

  predicate Ended(log: seq<Emission>) {
    |log| > 0 && Final(log[|log| - 1])
  }

  /** s holds data at offset. */
  ghost predicate At(s: seq<byte>, offset: nat, data: seq<byte>) {
    offset + |data| <= |s| && forall i :: 0 <= i < |data| ==> data[i] == s[offset + i]
  }

  /** The log is exact up to offset: taking emissions back one by one, each carries the written
  bytes from the offset reached before it, and none follows a final one. */
  ghost predicate LogOk(log: seq<Emission>, offset: nat, written: seq<byte>)
    decreases |log|
  {
    if log == [] then
      offset == 0
    else
      var before, e := log[..|log| - 1], log[|log| - 1];
      && e.offset + |DataOf(e)| == offset && At(written, e.offset, DataOf(e))
      && !Ended(before) && LogOk(before, e.offset, written)
  }

  /** Emitting the next written bytes keeps the log exact. */
  lemma {:induction false} EmitKeepsLog(log: seq<Emission>, offset: nat, written: seq<byte>, e: Emission)
    requires LogOk(log, offset, written) && !Ended(log)
    requires e.offset == offset && At(written, offset, DataOf(e))
    ensures LogOk(log + [e], offset + |DataOf(e)|, written)
  {
    assert (log + [e])[..|log|] == log;
  }

  lemma {:induction false} WriteKeepsLog(log: seq<Emission>, offset: nat, written: seq<byte>, p: seq<byte>)
    requires LogOk(log, offset, written) && offset <= |written|
    ensures LogOk(log, offset, written + p)
    decreases |log|
  {
    if log != [] {
      var e := log[|log| - 1];
      WriteKeepsLog(log[..|log| - 1], e.offset, written, p);
    }
  }

  /** What an exact log means: the data emitted is the first offset bytes written, cut into
  contiguous ranges, and at most one FIN or RST was emitted, last and at that offset. */
  lemma {:induction false} LogMeaning(log: seq<Emission>, offset: nat, written: seq<byte>)
    requires LogOk(log, offset, written) && offset <= |written|
    ensures Sent(log) == written[..offset]
    ensures Tiles(log) && FinalIsLast(log)
    ensures forall i :: 0 <= i < |log| && Final(log[i]) ==> log[i].offset + |DataOf(log[i])| == offset
    decreases |log|
  {
    if log != [] {
      var e := log[|log| - 1];
      LogMeaning(log[..|log| - 1], e.offset, written);
      AtExtends(written, e.offset, DataOf(e));
    }
  }

  lemma {:induction false} AtExtends(s: seq<byte>, offset: nat, data: seq<byte>)
    requires At(s, offset, data)
    ensures s[..offset] + data == s[..offset + |data|]
  {
  }

  lemma {:induction false} AtParts(s: seq<byte>, offset: nat, data: seq<byte>, n: nat)
    requires At(s, offset, data) && n <= |data|
    ensures At(s, offset, data[..n]) && At(s, offset + n, data[n..])
  {
    forall i | 0 <= i < |data| - n ensures data[n..][i] == s[offset + n + i] {
      assert data[n + i] == s[offset + (n + i)];
    }
  }

  predicate Holds(e: Emission, x: int) {
    e.offset <= x < e.offset + |DataOf(e)|
  }

  /** Emissions with contiguous offsets carry every sent byte exactly once: the byte at offset x
  is in one emission only, and it is byte x of the data sent. */
  lemma {:induction false} TilesCover(log: seq<Emission>, i: nat, x: nat)
    requires Tiles(log) && i < |log| && Holds(log[i], x)
    ensures x < |Sent(log)| && DataOf(log[i])[x - log[i].offset] == Sent(log)[x]
    ensures forall j :: 0 <= j < |log| && j != i ==> !Holds(log[j], x)
  {
    TilesHold(log, i, x);
    forall j | 0 <= j < |log| && j != i
      ensures !Holds(log[j], x)
    {
      if j < i {
        TilesOrdered(log, j, i);
      } else {
        TilesOrdered(log, i, j);
      }
    }
  }

  lemma {:induction false} TilesHold(log: seq<Emission>, i: nat, x: nat)
    requires Tiles(log) && i < |log| && Holds(log[i], x)
    ensures x < |Sent(log)| && DataOf(log[i])[x - log[i].offset] == Sent(log)[x]
  {
    SentPrefix(log, i + 1);
    TilesAt(log, i);
    SentThrough(log, i);
    var before, data := Sent(log[..i]), DataOf(log[i]);
    assert (before + data)[x] == data[x - |before|];
  }

  lemma {:induction false} SentThrough(log: seq<Emission>, i: nat)
    requires i < |log|
    ensures Sent(log[..i + 1]) == Sent(log[..i]) + DataOf(log[i])
  {
    assert log[..i + 1][..i] == log[..i];
  }

  lemma {:induction false} TilesOrdered(log: seq<Emission>, i: nat, j: nat)
    requires Tiles(log) && i < j < |log|
    ensures log[i].offset + |DataOf(log[i])| <= log[j].offset
  {
    SentPrefix(log[..j], i + 1);
    TilesAt(log, i);
    TilesAt(log, j);
    assert log[..j][..i + 1] == log[..i + 1] && log[..i + 1][..i] == log[..i];
  }

  lemma {:induction false} SentPrefix(log: seq<Emission>, n: nat)
    requires n <= |log|
    ensures Sent(log[..n]) <= Sent(log)
    decreases |log| - n
  {
    if n == |log| {
      assert log[..n] == log;
    } else {
      SentPrefix(log, n + 1);
      assert log[..n + 1][..n] == log[..n];
    }
  }

  // ----- the state of a sending stream -----

  /** The stream's fields, with all bytes Write has taken over and all that was emitted. */
  datatype SendState = SendState(
    data: Option<seq<byte>>,
    writeOffset: nat,
    err: bool,
    cancelled: bool,
    finishedReading: bool,
    finishedWriting: bool,
    resetLocally: bool,
    resetRemotely: bool,
    finSent: bool,
    rstSent: bool,
    written: seq<byte>,
    log: seq<Emission>
  ) {
    function Pending(): seq<byte> {
      if data.Some? then data.value else []
    }

    predicate ShouldSendFin() {
      finishedWriting && !finSent && !err && data.None?
    }

    predicate ShouldSendReset() {
      !rstSent && (resetLocally || resetRemotely) && !(finishedWriting && finSent)
    }

    predicate Finished() {
      || cancelled
      || (finishedReading && finishedWriting && finSent)
      || (resetRemotely && rstSent)
      || (finishedReading && rstSent)
      || (finishedWriting && finSent && resetRemotely)
    }

    /** Emitted data is exactly the first writeOffset written bytes, cut into contiguous ranges, and
    the pending data is the rest. */
    ghost predicate DataOk() {
      && LogOk(log, writeOffset, written)
      && At(written, writeOffset, Pending()) && writeOffset + |Pending()| == |written|
      && (data.Some? ==> |data.value| > 0)
    }

    /** A FIN or RST is emitted at most once and comes last; the flags say which one it was. */
    predicate FlagsOk() {
      && (Ended(log) <==> finSent || rstSent)
      && (finSent ==> finishedWriting && data.None? && !rstSent && log[|log| - 1].FrameOut?)
      && (rstSent ==> err && log[|log| - 1].RstOut?)
      && (resetLocally || resetRemotely ==> err)
    }

    ghost predicate Ok() {
      DataOk() && FlagsOk()
    }

    /** The state when n pending bytes have been taken. */
    function Advance(n: nat): SendState
      requires n <= |Pending()|
    {
      this.(data := if n == |Pending()| then None else Some(Pending()[n..]), writeOffset := writeOffset + n)
    }

    /** The frame a visit emits when it may take up to maxLen bytes. */
    function NextFrame(maxLen: nat): Emission {
      var n := if |Pending()| > maxLen then maxLen else |Pending()|;
      FrameOut(writeOffset, Pending()[..n], Advance(n).ShouldSendFin())
    }

    function Emit(e: Emission): SendState
      requires e.FrameOut? ==> |e.data| <= |Pending()|
    {
      if e.FrameOut? then
        Advance(|e.data|).(finSent := finSent || e.fin, log := log + [e])
      else
        this.(rstSent := true, log := log + [e])
    }
  }

  /** Emitting the next n pending bytes. */
  lemma {:induction false} EmitKeepsData(s: SendState, n: nat, fin: bool)
    requires s.DataOk() && !Ended(s.log) && n <= |s.Pending()|
    ensures s.Emit(FrameOut(s.writeOffset, s.Pending()[..n], fin)).DataOk()
  {
    var e := FrameOut(s.writeOffset, s.Pending()[..n], fin);
    AtParts(s.written, s.writeOffset, s.Pending(), n);
    EmitKeepsLog(s.log, s.writeOffset, s.written, e);
    var t := s.Emit(e);
    assert t.Pending() == s.Pending()[n..] && t.writeOffset == s.writeOffset + n && t.log == s.log + [e];
  }

  lemma {:induction false} EmitKeepsFlags(s: SendState, n: nat, fin: bool)
    requires s.FlagsOk() && !Ended(s.log) && n <= |s.Pending()|
    requires fin ==> s.finishedWriting && n == |s.Pending()|
    ensures s.Emit(FrameOut(s.writeOffset, s.Pending()[..n], fin)).FlagsOk()
  {
    LastOf(s.log, FrameOut(s.writeOffset, s.Pending()[..n], fin));
  }

  lemma {:induction false} LastOf(log: seq<Emission>, e: Emission)
    ensures (log + [e])[|log + [e]| - 1] == e && Ended(log + [e]) == Final(e)
  {
  }

  lemma {:induction false} FrameKeepsOk(s: SendState, maxLen: nat)
    requires s.Ok() && !s.err && maxLen > 0 && (s.data.Some? || s.ShouldSendFin())
    ensures s.Emit(s.NextFrame(maxLen)).Ok()
  {
    var n := |s.NextFrame(maxLen).data|;
    EmitKeepsData(s, n, s.NextFrame(maxLen).fin);
    EmitKeepsFlags(s, n, s.NextFrame(maxLen).fin);
  }

  lemma {:induction false} DataKeepsOk(s: SendState, n: nat)
    requires s.Ok() && !s.err && 0 < n <= |s.Pending()|
    ensures s.Emit(FrameOut(s.writeOffset, s.Pending()[..n], false)).Ok()
  {
    EmitKeepsData(s, n, false);
    EmitKeepsFlags(s, n, false);
  }

  lemma {:induction false} ResetKeepsOk(s: SendState)
    requires s.Ok() && s.ShouldSendReset()
    ensures s.Emit(RstOut(s.writeOffset)).Ok()
  {
    EmitKeepsLog(s.log, s.writeOffset, s.written, RstOut(s.writeOffset));
  }

  lemma {:induction false} WriteKeepsOk(s: SendState, p: seq<byte>)
    requires s.Ok() && s.data.None? && !s.finishedWriting && !s.err && |p| > 0
    ensures s.(data := Some(p), written := s.written + p).Ok()
  {
    WriteKeepsLog(s.log, s.writeOffset, s.written, p);
  }

  /** What can happen to a sending stream. */
  datatype SendEvent =
    | Writing(p: seq<byte>)
    | Visited(maxLen: nat)
    | Closed
    | Cancelled
    | ReadToEnd
    | ResetLocally
    | ResetRemotely

  /** Marks the stream as broken and resets it unless its end has been sent. */
  function MaybeReset(s: SendState): SendState {
    if s.ShouldSendReset() then s.Emit(RstOut(s.writeOffset)) else s
  }

  /** Each event is one atomic step; a Write starts only when the last one has ended. */
  function Next(s: SendState, ev: SendEvent): SendState {
    match ev
    case Writing(p) =>
      if s.resetLocally || s.err || s.finishedWriting || p == [] || s.data.Some? then s
      else s.(data := Some(p), written := s.written + p)
    case Visited(maxLen) =>
      if maxLen > 0 && !s.err && (s.data.Some? || s.ShouldSendFin()) then s.Emit(s.NextFrame(maxLen)) else s
    case Closed => s.(finishedWriting := true)
    case Cancelled => s.(cancelled := true, err := true)
    case ReadToEnd => s.(finishedReading := true)
    case ResetLocally =>
      if s.resetLocally then s else MaybeReset(s.(resetLocally := true, err := true))
    case ResetRemotely =>
      if s.resetRemotely then s else MaybeReset(s.(resetRemotely := true, err := true))
  }

  function Run(s: SendState, evs: seq<SendEvent>): SendState
    decreases |evs|
  {
    if evs == [] then s else Run(Next(s, evs[0]), evs[1..])
  }

  const NEW_STREAM := SendState(None, 0, false, false, false, false, false, false, false, false, [], [])

  lemma {:induction false} WritingKeepsOk(s: SendState, p: seq<byte>)
    requires s.Ok()
    ensures Next(s, Writing(p)).Ok()
  {
    if !s.resetLocally && !s.err && !s.finishedWriting && p != [] && s.data.None? {
      WriteKeepsOk(s, p);
    }
  }

  lemma {:induction false} VisitKeepsOk(s: SendState, maxLen: nat)
    requires s.Ok()
    ensures Next(s, Visited(maxLen)).Ok()
  {
    if maxLen > 0 && !s.err && (s.data.Some? || s.ShouldSendFin()) {
      FrameKeepsOk(s, maxLen);
    }
  }

  /** Closing, cancelling and reading to the end only set flags. */
  lemma {:induction false} FlagsKeepOk(s: SendState)
    requires s.Ok()
    ensures s.(finishedWriting := true).Ok() && s.(cancelled := true, err := true).Ok() && s.(finishedReading := true).Ok()
  {
  }

  lemma {:induction false} BrokenKeepsOk(s: SendState)
    requires s.Ok() && s.err
    ensures MaybeReset(s).Ok()
  {
    if s.ShouldSendReset() {
      ResetKeepsOk(s);
    }
  }

  lemma {:induction false} NextKeepsOk(s: SendState, ev: SendEvent)
    requires s.Ok()
    ensures Next(s, ev).Ok()
  {
    match ev {
      case Writing(p) => WritingKeepsOk(s, p);
      case Visited(maxLen) => VisitKeepsOk(s, maxLen);
      case Closed => FlagsKeepOk(s);
      case Cancelled => FlagsKeepOk(s);
      case ReadToEnd => FlagsKeepOk(s);
      case ResetLocally => BrokenKeepsOk(s.(resetLocally := true, err := true));
      case ResetRemotely => BrokenKeepsOk(s.(resetRemotely := true, err := true));
    }
  }

  /** One step never takes an emission back, adds nothing behind a final one, and never makes a
  finished stream unfinished. */
  lemma {:induction false} NextOnlyGrows(s: SendState, ev: SendEvent)
    requires s.Ok()
    ensures s.log <= Next(s, ev).log && s.written <= Next(s, ev).written
    ensures Ended(s.log) ==> Next(s, ev).log == s.log && Next(s, ev).writeOffset == s.writeOffset
    ensures s.Finished() ==> Next(s, ev).Finished()
  {
    match ev {
      case Writing(p) =>
      case Visited(maxLen) =>
      case Closed =>
      case Cancelled =>
      case ReadToEnd =>
      case ResetLocally =>
      case ResetRemotely =>
    }
  }

  /** In every run the emitted data is the first writeOffset written bytes in contiguous ranges,
  and at most one FIN or RST is emitted, as the last emission and at writeOffset. */
  lemma {:induction false} EveryRunIsExact(evs: seq<SendEvent>)
    ensures
      var s := Run(NEW_STREAM, evs);
      && s.writeOffset <= |s.written| && Sent(s.log) == s.written[..s.writeOffset]
      && Tiles(s.log) && FinalIsLast(s.log)
      && (forall i :: 0 <= i < |s.log| && Final(s.log[i]) ==> s.log[i].offset + |DataOf(s.log[i])| == s.writeOffset)
  {
    RunKeepsOk(NEW_STREAM, evs);
    var s := Run(NEW_STREAM, evs);
    LogMeaning(s.log, s.writeOffset, s.written);
  }

  lemma {:induction false} RunKeepsOk(s: SendState, evs: seq<SendEvent>)
    requires s.Ok()
    ensures Run(s, evs).Ok()
    decreases |evs|
  {
    if evs != [] {
      NextKeepsOk(s, evs[0]);
      RunKeepsOk(Next(s, evs[0]), evs[1..]);
    }
  }

  /** Once a FIN or RST is out, no continuation emits anything more or moves the final offset;
  and a finished stream stays finished. */
  lemma {:induction false} FinalOffsetIsFinal(s: SendState, more: seq<SendEvent>)
    requires s.Ok()
    ensures s.log <= Run(s, more).log
    ensures Ended(s.log) ==> Run(s, more).log == s.log && Run(s, more).writeOffset == s.writeOffset
    ensures s.Finished() ==> Run(s, more).Finished()
    decreases |more|
  {
    if more != [] {
      NextKeepsOk(s, more[0]);
      NextOnlyGrows(s, more[0]);
      FinalOffsetIsFinal(Next(s, more[0]), more[1..]);
    }
  }

  // ----- what the flags mean, over the events -----

  /** Something has broken the stream. */
  predicate Broken(evs: seq<SendEvent>) {
    Cancelled in evs || ResetLocally in evs || ResetRemotely in evs
  }

  /** The flags record which events have happened, and nothing else. */
  ghost predicate FlagsRecord(s: SendState, evs: seq<SendEvent>) {
    && (s.finishedWriting <==> Closed in evs) && (s.finishedReading <==> ReadToEnd in evs)
    && (s.cancelled <==> Cancelled in evs) && (s.resetLocally <==> ResetLocally in evs)
    && (s.resetRemotely <==> ResetRemotely in evs) && (s.err <==> Broken(evs))
  }

  lemma {:induction false} NextRecords(s: SendState, evs: seq<SendEvent>, ev: SendEvent)
    requires FlagsRecord(s, evs)
    ensures FlagsRecord(Next(s, ev), evs + [ev])
  {
  }

  lemma {:induction false} RunAppend(s: SendState, evs: seq<SendEvent>, ev: SendEvent)
    ensures Run(s, evs + [ev]) == Next(Run(s, evs), ev)
    decreases |evs|
  {
    if evs == [] {
      assert (evs + [ev])[1..] == [];
    } else {
      assert (evs + [ev])[0] == evs[0] && (evs + [ev])[1..] == evs[1..] + [ev];
      RunAppend(Next(s, evs[0]), evs[1..], ev);
    }
  }

  lemma {:induction false} RunRecords(evs: seq<SendEvent>)
    ensures FlagsRecord(Run(NEW_STREAM, evs), evs) && Run(NEW_STREAM, evs).Ok()
    decreases |evs|
  {
    RunKeepsOk(NEW_STREAM, evs);
    if evs != [] {
      var before, ev := evs[..|evs| - 1], evs[|evs| - 1];
      assert evs == before + [ev];
      RunRecords(before);
      RunAppend(NEW_STREAM, before, ev);
      NextRecords(Run(NEW_STREAM, before), before, ev);
    }
  }

  /** Exactly what a visit emits, in any run: nothing if the stream is broken, or if there is neither data left nor
  an end to tell; else the next bytes written, as many as allowed, with a FIN exactly if the stream was closed and
  these are the last ones. */
  lemma {:induction false} VisitEmits(evs: seq<SendEvent>, maxLen: nat)
    requires maxLen > 0
    ensures var s := Run(NEW_STREAM, evs);
            var left := |s.written| - s.writeOffset;
            var n := if left > maxLen then maxLen else left;
            && left >= 0
            && Run(NEW_STREAM, evs + [Visited(maxLen)]).log ==
               s.log + if Broken(evs) || (left == 0 && (Closed !in evs || Ended(s.log))) then []
                       else [FrameOut(s.writeOffset, s.written[s.writeOffset..s.writeOffset + n], Closed in evs && n == left)]
  {
    RunRecords(evs);
    RunAppend(NEW_STREAM, evs, Visited(maxLen));
    var s := Run(NEW_STREAM, evs);
    PendingIsRest(s);
    VisitAppends(s, maxLen);
  }

  lemma {:induction false} VisitAppends(s: SendState, maxLen: nat)
    requires s.Ok() && maxLen > 0 && s.Pending() == s.written[s.writeOffset..]
    ensures var left := |s.written| - s.writeOffset;
            var n := if left > maxLen then maxLen else left;
            Next(s, Visited(maxLen)).log ==
            s.log + if s.err || (left == 0 && (!s.finishedWriting || Ended(s.log))) then []
                    else [FrameOut(s.writeOffset, s.written[s.writeOffset..s.writeOffset + n], s.finishedWriting && n == left)]
  {
    var left := |s.written| - s.writeOffset;
    var n := if left > maxLen then maxLen else left;
    assert s.Pending()[..n] == s.written[s.writeOffset..s.writeOffset + n];
    assert s.log + [] == s.log;
  }

  lemma {:induction false} PendingIsRest(s: SendState)
    requires s.DataOk()
    ensures s.Pending() == s.written[s.writeOffset..] && (s.data.None? <==> s.writeOffset == |s.written|)
  {
  }

  /** Once a stream is closed and all its data is out, the next visit ends it. */
  lemma {:induction false} ClosedStreamsEnd(evs: seq<SendEvent>, maxLen: nat)
    requires Closed in evs && !Broken(evs) && maxLen > 0
    ensures var s := Run(NEW_STREAM, evs);
            s.writeOffset + maxLen >= |s.written| ==> Ended(Run(NEW_STREAM, evs + [Visited(maxLen)]).log)
  {
    VisitEmits(evs, maxLen);
  }

  /** Writing takes bytes over exactly if the stream is neither broken nor closed and the last Write has ended. */
  lemma {:induction false} WritingTakes(evs: seq<SendEvent>, p: seq<byte>)
    ensures var s, t := Run(NEW_STREAM, evs), Run(NEW_STREAM, evs + [Writing(p)]);
            && t.log == s.log && t.writeOffset == s.writeOffset
            && t.written == if Broken(evs) || Closed in evs || s.writeOffset < |s.written| then s.written else s.written + p
  {
    RunRecords(evs);
    RunAppend(NEW_STREAM, evs, Writing(p));
    PendingIsRest(Run(NEW_STREAM, evs));
  }

  /** A reset emits an RST exactly if it is the first of its kind and the end was not told before. Nothing else does. */
  lemma {:induction false} ResetsEmit(evs: seq<SendEvent>, ev: SendEvent)
    requires !ev.Visited? && !ev.Writing?
    ensures var s, t := Run(NEW_STREAM, evs), Run(NEW_STREAM, evs + [ev]);
            && t.written == s.written && t.writeOffset == s.writeOffset
            && t.log == s.log + if (ev.ResetLocally? || ev.ResetRemotely?) && ev !in evs && !Ended(s.log)
                                then [RstOut(s.writeOffset)] else []
  {
    RunRecords(evs);
    RunAppend(NEW_STREAM, evs, ev);
    var s := Run(NEW_STREAM, evs);
    assert s.log + [] == s.log;
    if ev.ResetLocally? {
      ResetAppends(s.(resetLocally := true, err := true));
    } else if ev.ResetRemotely? {
      ResetAppends(s.(resetRemotely := true, err := true));
    }
  }

  lemma {:induction false} ResetAppends(s: SendState)
    requires s.FlagsOk() && (s.resetLocally || s.resetRemotely)
    ensures MaybeReset(s).written == s.written && MaybeReset(s).writeOffset == s.writeOffset
    ensures MaybeReset(s).log == if Ended(s.log) then s.log else s.log + [RstOut(s.writeOffset)]
  {
  }

  /** A broken stream takes nothing over and sends no data, whatever follows. */
  lemma {:induction false} BrokenRefuses(evs: seq<SendEvent>, more: seq<SendEvent>)
    requires Broken(evs)
    ensures var s, t := Run(NEW_STREAM, evs), Run(NEW_STREAM, evs + more);
            t.written == s.written && t.writeOffset == s.writeOffset && Sent(t.log) == Sent(s.log)
    decreases |more|
  {
    if more == [] {
      assert evs + more == evs;
    } else {
      var ev := more[0];
      assert evs + more == (evs + [ev]) + more[1..];
      BrokenStep(evs, ev);
      BrokenRefuses(evs + [ev], more[1..]);
    }
  }

  lemma {:induction false} BrokenStep(evs: seq<SendEvent>, ev: SendEvent)
    requires Broken(evs)
    ensures var s, t := Run(NEW_STREAM, evs), Run(NEW_STREAM, evs + [ev]);
            t.written == s.written && t.writeOffset == s.writeOffset && Sent(t.log) == Sent(s.log)
  {
    RunRecords(evs);
    RunAppend(NEW_STREAM, evs, ev);
    var s := Run(NEW_STREAM, evs);
    if ev.ResetLocally? || ev.ResetRemotely? {
      ResetsEmit(evs, ev);
      assert (s.log + [RstOut(s.writeOffset)])[..|s.log|] == s.log && Sent(s.log) + [] == Sent(s.log);
    }
  }

  /** A stream is finished exactly if it was cancelled, or its end was sent and the other side ended too. */
  lemma {:induction false} FinishedExactly(evs: seq<SendEvent>)
    ensures Run(NEW_STREAM, evs).Finished() <==>
            Cancelled in evs || (Ended(Run(NEW_STREAM, evs).log) && (ReadToEnd in evs || ResetRemotely in evs))
  {
    RunRecords(evs);
  }

  class Stream {
    const streamID: nat
    var dataForWriting: Option<seq<byte>>
    var writeOffset: nat
    var err: bool
    var cancelled: bool
    var finishedReading: bool
    var finishedWriting: bool
    var resetLocally: bool
    var resetRemotely: bool
    var finSent: bool
    var rstSent: bool

    /** All bytes Write has taken over. */
    ghost var written: seq<byte>
    ghost var log: seq<Emission>

    ghost function State(): SendState
      reads this
    {
      SendState(dataForWriting, writeOffset, err, cancelled, finishedReading, finishedWriting,
                resetLocally, resetRemotely, finSent, rstSent, written, log)
    }

    constructor (id: nat)
      ensures streamID == id
      ensures State() == NEW_STREAM
    {
      streamID := id;
      dataForWriting, writeOffset, written, log := None, 0, [], [];
      err, cancelled, finishedReading, finishedWriting := false, false, false, false;
      resetLocally, resetRemotely, finSent, rstSent := false, false, false, false;
    }

    /** Write up to the point where it waits for its data to be taken. */
    method BeginWrite(p: seq<byte>) returns (status: WriteStatus)
      requires State().Ok() && (dataForWriting.None? || err)
      modifies this
      ensures State().Ok()
      ensures status == Refused <==> old(resetLocally || err || finishedWriting)
      ensures status == NothingToWrite ==> |p| == 0
      ensures status != Waiting ==> State() == old(State())
      ensures State() == Next(old(State()), Writing(p))
    {
      if resetLocally || err {
        return Refused;
      }
      if finishedWriting {
        return Refused;
      }
      if |p| == 0 {
        return NothingToWrite;
      }
      WriteKeepsOk(State(), p);
      dataForWriting := Some(p);
      written := written + p;
      return Waiting;
    }

    /** What a Write of n bytes returns once it wakes up: the bytes of it that were sent. */
    method EndWrite(n: nat) returns (accepted: nat)
      requires State().Ok() && (dataForWriting.None? || err)
      requires n <= |written| && |State().Pending()| <= n
      ensures accepted <= n && written[..|written| - n + accepted] == Sent(log)
    {
      LogMeaning(log, writeOffset, written);
      accepted := if err && dataForWriting.Some? then n - |dataForWriting.value| else n;
    }

    method LenOfDataForWriting() returns (n: nat)
      ensures n == if err then 0 else |State().Pending()|
    {
      n := if err || dataForWriting.None? then 0 else |dataForWriting.value|;
    }

    /** Takes up to maxBytes of the pending data. */
    method GetDataForWriting(maxBytes: nat) returns (data: Option<seq<byte>>)
      modifies this`dataForWriting, this`writeOffset
      ensures data.Some? <==> !err && old(dataForWriting).Some?
      ensures data.None? ==> State() == old(State())
      ensures data.Some? ==> data.value == old(State()).NextFrame(maxBytes).data
      ensures data.Some? ==> State() == old(State()).Advance(|data.value|)
    {
      if err || dataForWriting.None? {
        return None;
      }
      var d := dataForWriting.value;
      if |d| > maxBytes {
        data, dataForWriting := Some(d[..maxBytes]), Some(d[maxBytes..]);
      } else {
        data, dataForWriting := Some(d), None;
      }
      writeOffset := writeOffset + |data.value|;
    }

    method ShouldSendFin() returns (b: bool)
      ensures b == State().ShouldSendFin()
    {
      b := finishedWriting && !finSent && !err && dataForWriting.None?;
    }

    /** The stream's part of a framer visit, one atomic step: takes data if there was some, adds the
    FIN if that was all, and logs the frame. */
    method TakeFrame(maxLen: nat, hasData: bool) returns (out: Option<Emission>)
      requires State().Ok() && maxLen > 0 && (hasData <==> !err && dataForWriting.Some?)
      modifies this
      ensures State().Ok()
      ensures out.Some? <==> hasData || old(State()).ShouldSendFin()
      ensures out.Some? ==> out.value == old(State()).NextFrame(maxLen)
      ensures State() == Next(old(State()), Visited(maxLen))
    {
      VisitKeepsOk(State(), maxLen);
      out := EmitNext(maxLen, hasData);
    }

    method EmitNext(maxLen: nat, hasData: bool) returns (out: Option<Emission>)
      requires maxLen > 0 && (hasData <==> !err && dataForWriting.Some?)
      modifies this`dataForWriting, this`writeOffset, this`finSent, this`log
      ensures out.Some? <==> hasData || old(State()).ShouldSendFin()
      ensures out.Some? ==> out.value == old(State()).NextFrame(maxLen)
      ensures State() == Next(old(State()), Visited(maxLen))
    {
      out := None;
      var offset, data := writeOffset, None;
      if hasData {
        data := GetDataForWriting(maxLen);
      }
      var fin := ShouldSendFin();
      if data.Some? || fin {
        if fin {
          finSent := true;
        }
        var e := FrameOut(offset, if data.Some? then data.value else [], fin);
        log := log + [e];
        out := Some(e);
        assert e.data == old(State()).NextFrame(maxLen).data;
      }
    }

    method Close()
      requires State().Ok()
      modifies this
      ensures State().Ok() && State() == Next(old(State()), Closed)
    {
      finishedWriting := true;
    }

    method Cancel()
      requires State().Ok()
      modifies this
      ensures State().Ok() && State() == Next(old(State()), Cancelled)
    {
      cancelled, err := true, true;
    }

    /** Read has returned the end of the stream. */
    method FinishReading()
      requires State().Ok()
      modifies this
      ensures State().Ok() && State() == Next(old(State()), ReadToEnd)
    {
      finishedReading := true;
    }

    /** Reset by the local application. Returns the offset of the RST_STREAM sent, if any. */
    method Reset() returns (rst: Option<nat>)
      requires State().Ok()
      modifies this
      ensures State().Ok()
      ensures rst.Some? <==> !old(resetLocally) && !Ended(old(log))
      ensures rst.Some? ==> rst.value == writeOffset
      ensures State() == Next(old(State()), ResetLocally)
    {
      if resetLocally {
        return None;
      }
      ghost var s := State();
      resetLocally, err := true, true;
      rst := MaybeSendReset();
      assert State() == Next(s, ResetLocally);
      NextKeepsOk(s, ResetLocally);
    }

    /** A RST_STREAM or an error was received from the peer. */
    method RegisterRemoteError() returns (rst: Option<nat>)
      requires State().Ok()
      modifies this
      ensures State().Ok()
      ensures rst.Some? <==> !old(resetRemotely) && !Ended(old(log))
      ensures rst.Some? ==> rst.value == writeOffset
      ensures State() == Next(old(State()), ResetRemotely)
    {
      if resetRemotely {
        return None;
      }
      ghost var s := State();
      resetRemotely, err := true, true;
      rst := MaybeSendReset();
      assert State() == Next(s, ResetRemotely);
      NextKeepsOk(s, ResetRemotely);
    }

    method MaybeSendReset() returns (rst: Option<nat>)
      requires (resetLocally || resetRemotely) && (finSent ==> finishedWriting) && (Ended(log) <==> finSent || rstSent)
      modifies this
      ensures State() == MaybeReset(old(State()))
      ensures rst.Some? <==> !Ended(old(log))
      ensures rst.Some? ==> rst.value == writeOffset
    {
      if rstSent || (finishedWriting && finSent) {
        return None;
      }
      rst, rstSent, log := Some(writeOffset), true, log + [RstOut(writeOffset)];
    }
  }
}
