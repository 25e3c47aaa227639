/** Packing frames into packets (packet_packer.go). */
module PacketPacker {
  import opened Basics
  import opened Frames
  import opened Streams
  import opened StreamFramer
  import opened PacketNumbers

  const MAX_PACKET_SIZE: nat := 1350
  const NON_FORWARD_SECURE_REDUCTION: nat := 50

  datatype EncryptionLevel = Unencrypted | Secure | ForwardSecure

  datatype Perspective = Client | Server

  /** A frame of a packet. A control frame has a declared length and the length it really takes. */
  datatype Frame = StreamData(f: StreamFrame) | Ping | Blocked(streamID: nat) | Control(declared: nat, taken: nat)

  /** Control frames never take more than they declare. */
  predicate FrameOk(f: Frame) {
    f.Control? ==> f.taken <= f.declared
  }

  function DeclaredLen(f: Frame): nat {
    match f
    case StreamData(s) => WireLen(s)
    case Ping => 1
    case Blocked(_) => 5
    case Control(declared, _) => declared
  }

  function WrittenLen(f: Frame): nat {
    if f.Control? then f.taken else DeclaredLen(f)
  }

  function Declared(fs: seq<Frame>): nat {
    if fs == [] then 0 else Declared(fs[..|fs| - 1]) + DeclaredLen(fs[|fs| - 1])
  }

  function Written(fs: seq<Frame>): nat {
    if fs == [] then 0 else Written(fs[..|fs| - 1]) + WrittenLen(fs[|fs| - 1])
  }

  ghost predicate FramesOk(fs: seq<Frame>) {
    forall f :: f in fs ==> FrameOk(f)
  }

  lemma {:induction false} WrittenBound(fs: seq<Frame>)
    requires FramesOk(fs)
    ensures Written(fs) <= Declared(fs)
    decreases |fs|
  {
    if fs != [] {
      assert fs[|fs| - 1] in fs;
      WrittenBound(fs[..|fs| - 1]);
    }
  }

  lemma {:induction false} DeclaredAppend(fs: seq<Frame>, f: Frame)
    ensures Declared(fs + [f]) == Declared(fs) + DeclaredLen(f)
  {
    assert (fs + [f])[..|fs|] == fs;
  }

  // ----- public headers -----

  datatype PublicHeader = PublicHeader(
    packetNumber: nat,
    packetNumberLen: nat,
    truncateConnectionID: bool,
    versionFlag: bool,
    nonceLen: nat,
    multipathFlag: bool
  )

  /** The header of a packet sent by this side. */
  function PublicHeaderFor(pers: Perspective, level: EncryptionLevel, number: nat, numberLen: nat, truncate: bool, multipath: bool): PublicHeader {
    PublicHeader(number, numberLen, truncate && !multipath,
                 pers == Client && level != ForwardSecure,
                 if pers == Server && level == Secure then 32 else 0,
                 multipath)
  }

  function HeaderLength(h: PublicHeader): nat {
    1 + h.packetNumberLen + (if h.truncateConnectionID then 0 else 8) + (if h.versionFlag then 4 else 0)
    + h.nonceLen + (if h.multipathFlag then 1 else 0)
  }

  /** What PublicHeader.Write emits: the version only when the client writes it. */
  function HeaderWritten(h: PublicHeader, pers: Perspective): nat {
    1 + (if !h.truncateConnectionID then 8 else 0) + (if h.versionFlag && pers == Client then 4 else 0)
    + h.nonceLen + (if h.multipathFlag then 1 else 0)
    + (if h.versionFlag && pers == Server then 0 else h.packetNumberLen)
  }

  /** The header is as long as computed in advance: flags and packet number; a connection id unless it is truncated, with a
  path id behind it on multipath connections; and the version while the client is not sure of it, or the server's nonce. */
  lemma HeaderFits(pers: Perspective, level: EncryptionLevel, number: nat, numberLen: nat, truncate: bool, multipath: bool)
    requires numberLen in {1, 2, 4, 6}
    ensures
      var h := PublicHeaderFor(pers, level, number, numberLen, truncate, multipath);
      && HeaderWritten(h, pers) == HeaderLength(h) <= 48
      && HeaderLength(h) == 1 + numberLen + (if multipath then 9 else if truncate then 0 else 8)
                            + (match pers
                               case Client => if level == ForwardSecure then 0 else 4
                               case Server => if level == Secure then 32 else 0)
  {
  }

  datatype Outcome = Packet(number: nat, frames: seq<Frame>, size: nat) | NoPacket | PayloadTooLarge | PacketTooLarge | NumbersDiffer

  datatype Kind = StopWaiting | Ack | Other

  /** What a packet is sealed with: the sender, its encryption level, the header fields and the
  length of the AEAD tag. */
  datatype Sealing = Sealing(
    pers: Perspective,
    level: EncryptionLevel,
    number: nat,
    numberLen: nat,
    truncate: bool,
    multipath: bool,
    overhead: nat
  ) {
    predicate Ok() {
      overhead <= 16 && numberLen in {1, 2, 4, 6}
    }

    function Header(): PublicHeader {
      PublicHeaderFor(pers, level, number, numberLen, truncate, multipath)
    }

    /** What header and tag leave for the payload. */
    function Room(): (n: nat)
      requires Ok()
      ensures n + overhead + HeaderWritten(Header(), pers) == MAX_PACKET_SIZE && n >= 1286
    {
      HeaderFits(pers, level, number, numberLen, truncate, multipath);
      MAX_PACKET_SIZE - overhead - HeaderLength(Header())
    }

    function Size(frames: seq<Frame>): nat {
      HeaderWritten(Header(), pers) + Written(frames) + overhead
    }

    predicate CanSendData() {
      if pers == Client then level != Unencrypted else level == ForwardSecure
    }
  }

  datatype Payload = Payload(frames: seq<Frame>) | TooLarge

  /** The stream frames of a packet; the last one needs no length field. */
  function Wrapped(fs: seq<StreamFrame>): seq<Frame> {
    if fs == [] then []
    else Plain(fs[..|fs| - 1]) + [StreamData(fs[|fs| - 1].(dataLenPresent := false))]
  }

  function Plain(fs: seq<StreamFrame>): seq<Frame> {
    if fs == [] then [] else Plain(fs[..|fs| - 1]) + [StreamData(fs[|fs| - 1])]
  }

  lemma {:induction false} PlainLen(payload: seq<Frame>, fs: seq<StreamFrame>)
    ensures Declared(payload + Plain(fs)) == Declared(payload) + TotalLen(fs)
    decreases |fs|
  {
    if fs == [] {
      assert payload + Plain(fs) == payload;
    } else {
      var n := |fs| - 1;
      PlainLen(payload, fs[..n]);
      assert payload + Plain(fs) == (payload + Plain(fs[..n])) + [StreamData(fs[n])];
      DeclaredAppend(payload + Plain(fs[..n]), StreamData(fs[n]));
    }
  }

  /** Dropping the last length field saves exactly the two bytes granted in advance. */
  lemma {:induction false} WrappedLen(payload: seq<Frame>, fs: seq<StreamFrame>)
    requires forall f :: f in fs ==> f.dataLenPresent
    ensures Declared(payload + Wrapped(fs)) + (if fs == [] then 0 else 2) == Declared(payload) + TotalLen(fs)
  {
    if fs == [] {
      assert payload + Wrapped(fs) == payload;
    } else {
      var n := |fs| - 1;
      var last := StreamData(fs[n].(dataLenPresent := false));
      assert fs[n] in fs;
      PlainLen(payload, fs[..n]);
      assert payload + Wrapped(fs) == (payload + Plain(fs[..n])) + [last];
      DeclaredAppend(payload + Plain(fs[..n]), last);
    }
  }

  lemma {:induction false} StreamFramesOk(fs: seq<StreamFrame>)
    ensures forall f :: f in Plain(fs) ==> f.StreamData?
    ensures forall f :: f in Wrapped(fs) ==> f.StreamData?
    decreases |fs|
  {
    if fs != [] {
      StreamFramesOk(fs[..|fs| - 1]);
    }
  }

  function Reversed(fs: seq<Frame>): seq<Frame> {
    if fs == [] then [] else Reversed(fs[1..]) + [fs[0]]
  }

  lemma {:induction false} ReversedPush(fs: seq<Frame>, n: nat)
    requires 0 < n <= |fs|
    ensures Reversed(fs[n - 1..]) == Reversed(fs[n..]) + [fs[n - 1]]
  {
    assert fs[n - 1..][1..] == fs[n..];
  }

  lemma {:induction false} ReversedOk(fs: seq<Frame>)
    ensures forall f :: f in Reversed(fs) <==> f in fs
    ensures multiset(Reversed(fs)) == multiset(fs)
    decreases |fs|
  {
    if fs != [] {
      ReversedOk(fs[1..]);
      assert fs == [fs[0]] + fs[1..];
    }
  }

  function BlockedFrames(ids: seq<nat>): seq<Frame> {
    if ids == [] then [] else [Blocked(ids[0])] + BlockedFrames(ids[1..])
  }

  lemma {:induction false} BlockedOk(ids: seq<nat>)
    ensures forall f :: f in BlockedFrames(ids) ==> f.Blocked?
    decreases |ids|
  {
    if ids != [] {
      BlockedOk(ids[1..]);
    }
  }

  // ----- what a payload is made of -----

  /** The queues that payloads are taken from: control frames, the streams, and frames to be sent again. */
  datatype Stock = Stock(control: seq<Frame>, x: Moment, queue: seq<StreamFrame>)

  function FramesOf(g: Option<Popping>): seq<StreamFrame> {
    if g.None? then [] else g.value.Frames()
  }

  /** Stream frames were popped from a, and led to b. Windows that were used up are announced next time. */
  ghost predicate StreamsPopped(a: Stock, b: Stock, ids: seq<nat>, p: Popping) {
    var blocked := a.x.blocked + p.w.blocked;
    && PoppedBy(p, a.x, b.x.(blocked := blocked), ids, a.queue, b.queue)
    && b.x.blocked == [] && b.control == a.control + BlockedFrames(blocked)
  }

  /** The control frames from n on are taken, newest first: they fit, and the next one would not. */
  ghost predicate ControlTaken(first: seq<Frame>, control: seq<Frame>, n: nat, max: nat) {
    && n <= |control|
    && (Declared(first + Reversed(control[n..])) <= max || n == |control|)
    && (n > 0 ==> Declared(first + Reversed(control[n - 1..])) > max)
  }

  /** A payload composed from a, leaving b. The stream frames in it are exactly those popped, and none is popped
  if there may be none or the payload is refused. */
  ghost predicate Composed(a: Stock, b: Stock, ids: seq<nat>, first: seq<Frame>, max: nat, can: bool, r: Payload, n: nat, g: Option<Popping>) {
    && ControlTaken(first, a.control, n, max)
    && (r == TooLarge <==> Declared(first) > max) && (r == TooLarge ==> n == |a.control|)
    && (g.Some? <==> r.Payload? && can)
    && (r.Payload? ==> r.frames == first + Reversed(a.control[n..]) + Wrapped(FramesOf(g)) && Declared(r.frames) <= max)
    && var left := a.(control := a.control[..n]);
       if g.None? then b == left
       else Declared(first + Reversed(a.control[n..])) + g.value.maxLen == max + 2 && StreamsPopped(left, b, ids, g.value)
  }

  /** A payload taken from a, leaving b: a PING that is first in the queue goes alone. */
  ghost predicate Taken(a: Stock, b: Stock, ids: seq<nat>, first: seq<Frame>, max: nat, can: bool, r: Payload, n: nat, g: Option<Popping>) {
    if PingFirst(a.control) then r == Payload([Ping]) && g.None? && b == a.(control := a.control[1..])
    else Composed(a, b, ids, first, max, can, r, n, g)
  }

  /** Where a packet came from: the crypto stream, or the queues. */
  datatype Taking = FromCrypto(f: StreamFrame) | FromQueues(r: Payload, n: nat, g: Option<Popping>)

  /** The crypto stream gave f: all its data, or as much as fits. */
  ghost predicate CryptoTaken(s: SendState, t: SendState, f: StreamFrame, maxLen: nat) {
    && |f.data| > 0 && |f.data| <= |s.Pending()| && f.streamID == CRYPTO_STREAM && t == s.Emit(EmissionOf(f))
    && (|t.Pending()| == 0 || WireLen(f) == maxLen)
  }

  /** A packet is made of every payload but an empty one and a lone frame on a path with a STOP_WAITING. */
  function OutcomeOf(c: Sealing, r: Payload, stops: bool): Outcome {
    if r.TooLarge? then PayloadTooLarge
    else if r.frames == [] || (|r.frames| == 1 && stops) then NoPacket
    else Packet(c.number, r.frames, c.Size(r.frames))
  }

  /** The frames that go first on a path. */
  datatype Heads = Heads(stop: Option<Frame>, ack: Option<Frame>) {
    function First(): seq<Frame> {
      Listed(stop) + Listed(ack)
    }
  }

  function Listed(f: Option<Frame>): seq<Frame> {
    if f.Some? then [f.value] else []
  }

  /** The outcome o of packing from a, leaving b. */
  ghost predicate Packed(a: Stock, b: Stock, ids: seq<nat>, h: Heads, c: Sealing, o: Outcome, t: Taking)
    requires c.Ok()
  {
    t.FromQueues? && Taken(a, b, ids, h.First(), c.Room(), c.CanSendData(), t.r, t.n, t.g) && o == OutcomeOf(c, t.r, h.stop.Some?)
  }

  lemma {:induction false} PackedIs(a: Stock, b: Stock, ids: seq<nat>, h: Heads, first: seq<Frame>, room: nat, can: bool, c: Sealing, o: Outcome, r: Payload,
                                    n: nat, g: Option<Popping>)
    requires c.Ok() && Taken(a, b, ids, first, room, can, r, n, g)
    requires first == h.First() && room == c.Room() && can == c.CanSendData() && o == OutcomeOf(c, r, h.stop.Some?)
    ensures Packed(a, b, ids, h, c, o, FromQueues(r, n, g))
  {
  }

  predicate PingFirst(control: seq<Frame>) {
    |control| > 0 && control[0] == Ping
  }

  lemma {:induction false} ControlTakenIs(first: seq<Frame>, control: seq<Frame>, n: nat, max: nat)
    requires n <= |control| && (Declared(first + Reversed(control[n..])) <= max || n == |control|)
    requires n > 0 ==> Declared(first + Reversed(control[n..])) + DeclaredLen(control[n - 1]) > max
    ensures ControlTaken(first, control, n, max)
  {
    if n > 0 {
      ReversedPush(control, n);
      var part := first + Reversed(control[n..]);
      DeclaredAppend(part, control[n - 1]);
      assert first + Reversed(control[n - 1..]) == part + [control[n - 1]];
    }
  }

  /** Popped frames have their length fields, and leave the room that the last one does not need. */
  lemma {:induction false} PoppedLen(p: Popping, x: Moment, y: Moment, ids: seq<nat>, queue: seq<StreamFrame>, rest: seq<StreamFrame>,
                                     payload: seq<Frame>)
    requires PoppedBy(p, x, y, ids, queue, rest) && TotalLen(p.Frames()) <= p.maxLen && p.maxLen >= 2
    ensures Declared(payload + Wrapped(p.Frames())) + 2 <= Declared(payload) + p.maxLen
  {
    AllPresent(p.resent, p.w.frames);
    WrappedLen(payload, p.Frames());
  }

  /** Streams were popped, and their BLOCKED frames queued. */
  lemma {:induction false} PoppedIs(a: Stock, b: Stock, ids: seq<nat>, p: Popping, y: Moment, rest: seq<StreamFrame>)
    requires PoppedBy(p, a.x, y, ids, a.queue, rest)
    requires b == Stock(a.control + BlockedFrames(y.blocked), y.(blocked := []), rest)
    ensures StreamsPopped(a, b, ids, p) && MomentOk(b.x, ids)
  {
  }

  /** Stream frames were added to a payload that takes len bytes, if there may be some and the payload fits. */
  ghost predicate Added(left: Stock, b: Stock, ids: seq<nat>, payload: seq<Frame>, len: nat, max: nat, can: bool, r: Payload, g: Option<Popping>) {
    && (r == TooLarge <==> len > max) && (g.Some? <==> r.Payload? && can)
    && (r.Payload? ==> r.frames == payload + Wrapped(FramesOf(g)) && Declared(r.frames) <= max)
    && if g.None? then b == left else len + g.value.maxLen == max + 2 && StreamsPopped(left, b, ids, g.value)
  }

  lemma {:induction false} ComposedIs(a: Stock, left: Stock, b: Stock, ids: seq<nat>, first: seq<Frame>, payload: seq<Frame>, len: nat, max: nat, can: bool,
                                      r: Payload, n: nat, g: Option<Popping>)
    requires ControlTaken(first, a.control, n, max) && left == a.(control := a.control[..n])
    requires payload == first + Reversed(a.control[n..]) && len == Declared(payload)
    requires (len > max <==> Declared(first) > max) && (len > max ==> n == |a.control|)
    requires Added(left, b, ids, payload, len, max, can, r, g)
    ensures Composed(a, b, ids, first, max, can, r, n, g)
  {
  }

  function Entry(frames: map<nat, Frame>, path: nat): Option<Frame> {
    if path in frames then Some(frames[path]) else None
  }

  // ----- what packing means -----

  lemma {:induction false} Lengths(fs: seq<Frame>, ss: seq<StreamFrame>)
    ensures |Reversed(fs)| == |fs| && |Plain(ss)| == |ss| && |Wrapped(ss)| == |ss|
    decreases |fs| + |ss|
  {
    if fs != [] {
      Lengths(fs[1..], ss);
    } else if ss != [] {
      Lengths(fs, ss[..|ss| - 1]);
    }
  }

  /** When no packet is made: a PING is first and the path has a STOP_WAITING; or there is nothing but, at most, that
  STOP_WAITING: no ACK, no control frame that fits, and no stream frame. */
  lemma {:induction false} NoPacketExactly(a: Stock, b: Stock, ids: seq<nat>, h: Heads, c: Sealing,
                                           o: Outcome, t: Taking)
    requires c.Ok() && Packed(a, b, ids, h, c, o, t)
    ensures o.NoPacket? <==>
            if PingFirst(a.control) then h.stop.Some?
            else !o.PayloadTooLarge? && h.ack.None? && t.n == |a.control| && FramesOf(t.g) == []
  {
    if !PingFirst(a.control) && !o.PayloadTooLarge? {
      Lengths(a.control[t.n..], FramesOf(t.g));
    }
  }

  /** Frames are lost by no packet but a PING on a path with a STOP_WAITING: control frames go out or stay queued,
  if and only if that does not happen. */
  lemma {:induction false} ControlKeptExactly(a: Stock, b: Stock, ids: seq<nat>, h: Heads, c: Sealing,
                                              o: Outcome, t: Taking)
    requires c.Ok() && Packed(a, b, ids, h, c, o, t)
    ensures multiset(a.control) <= multiset(b.control) + multiset(if o.Packet? then o.frames else [])
            <==> !(PingFirst(a.control) && h.stop.Some?)
  {
    NoPacketExactly(a, b, ids, h, c, o, t);
    if PingFirst(a.control) {
      PingGoes(a.control, b.control);
    } else {
      ComposedKept(a, b, ids, h.First(), c.Room(), c.CanSendData(), t.r, t.n, t.g, if o.Packet? then o.frames else []);
    }
  }

  lemma {:induction false} ComposedKept(a: Stock, b: Stock, ids: seq<nat>, first: seq<Frame>, max: nat, can: bool, r: Payload, n: nat, g: Option<Popping>,
                                        frames: seq<Frame>)
    requires Composed(a, b, ids, first, max, can, r, n, g) && (n == |a.control| || (r.Payload? && frames == r.frames))
    ensures multiset(a.control) <= multiset(b.control) + multiset(frames)
  {
    ComposedKeeps(a, b, ids, first, max, can, r, n, g);
    KeptOrSent(a.control, n, b.control, frames);
  }

  lemma {:induction false} KeptOrSent(xs: seq<Frame>, n: nat, ys: seq<Frame>, zs: seq<Frame>)
    requires n <= |xs| && multiset(xs[..n]) <= multiset(ys) && (n == |xs| || multiset(xs[n..]) <= multiset(zs))
    ensures multiset(xs) <= multiset(ys) + multiset(zs)
  {
    if n == |xs| {
      assert xs[..n] == xs;
    } else {
      Sublists(xs, n, ys, zs);
    }
  }

  lemma {:induction false} PingGoes(a: seq<Frame>, b: seq<Frame>)
    requires PingFirst(a) && b == a[1..]
    ensures multiset(a) == multiset(b) + multiset([Ping]) && !(multiset(a) <= multiset(b) + multiset([]))
  {
    assert a == [Ping] + b;
    assert multiset(a)[Ping] == multiset(b)[Ping] + 1;
  }

  lemma {:induction false} Sublists(xs: seq<Frame>, n: nat, ys: seq<Frame>, zs: seq<Frame>)
    requires n <= |xs| && multiset(xs[..n]) <= multiset(ys) && multiset(xs[n..]) <= multiset(zs)
    ensures multiset(xs) <= multiset(ys) + multiset(zs)
  {
    assert xs == xs[..n] + xs[n..];
  }

  lemma {:induction false} ComposedKeeps(a: Stock, b: Stock, ids: seq<nat>, first: seq<Frame>, max: nat, can: bool, r: Payload, n: nat, g: Option<Popping>)
    requires Composed(a, b, ids, first, max, can, r, n, g)
    ensures n <= |a.control| && multiset(a.control[..n]) <= multiset(b.control)
    ensures r.Payload? ==> multiset(a.control[n..]) <= multiset(r.frames)
  {
    ReversedOk(a.control[n..]);
    if r.Payload? {
      Middle(first, Reversed(a.control[n..]), Wrapped(FramesOf(g)));
    }
  }

  lemma {:induction false} Middle(x: seq<Frame>, y: seq<Frame>, z: seq<Frame>)
    ensures multiset(y) <= multiset(x + y + z)
  {
    assert multiset(x + y + z) == multiset(x) + multiset(y) + multiset(z);
  }

  /** The stream frames of a packet, which come last; the very last one has no length field. */
  ghost predicate Carried(o: Outcome, fs: seq<StreamFrame>) {
    if o.Packet? then
      && |fs| <= |o.frames|
      && forall i :: 0 <= i < |fs| ==> o.frames[|o.frames| - |fs| + i] == StreamData(fs[i].(dataLenPresent := i + 1 < |fs|))
    else fs == []
  }

  lemma {:induction false} PlainIs(fs: seq<StreamFrame>)
    ensures |Plain(fs)| == |fs| && forall i :: 0 <= i < |fs| ==> Plain(fs)[i] == StreamData(fs[i])
    decreases |fs|
  {
    if fs != [] {
      PlainIs(fs[..|fs| - 1]);
    }
  }

  lemma {:induction false} WrappedIs(x: seq<Frame>, fs: seq<StreamFrame>, o: Outcome)
    requires (forall f :: f in fs ==> f.dataLenPresent) && o.Packet? && o.frames == x + Wrapped(fs)
    ensures Carried(o, fs)
  {
    Lengths([], fs);
    if fs != [] {
      PlainIs(fs[..|fs| - 1]);
      forall i | 0 <= i < |fs| ensures o.frames[|o.frames| - |fs| + i] == StreamData(fs[i].(dataLenPresent := i + 1 < |fs|)) {
        assert o.frames[|x| + i] == Wrapped(fs)[i] && fs[i] in fs;
      }
    }
  }

  lemma {:induction false} PacketCarries(a: Stock, b: Stock, ids: seq<nat>, h: Heads, c: Sealing,
                                         o: Outcome, t: Taking)
    requires c.Ok() && Packed(a, b, ids, h, c, o, t)
    ensures Carried(o, FramesOf(t.g))
  {
    NoPacketExactly(a, b, ids, h, c, o, t);
    if o.Packet? && !PingFirst(a.control) {
      if t.g.Some? {
        AllPresent(t.g.value.resent, t.g.value.w.frames);
      }
      WrappedIs(h.First() + Reversed(a.control[t.n..]), FramesOf(t.g), o);
    }
  }

  /** STOP_WAITING and ACK frames go out with every packet but a PING. */
  lemma {:induction false} HeadsGo(a: Stock, b: Stock, ids: seq<nat>, h: Heads, c: Sealing, o: Outcome, t: Taking)
    requires c.Ok() && Packed(a, b, ids, h, c, o, t) && o.Packet? && !PingFirst(a.control)
    ensures (h.stop.Some? ==> h.stop.value in o.frames) && (h.ack.Some? ==> h.ack.value in o.frames)
  {
    HeadsIn(h, Reversed(a.control[t.n..]), Wrapped(FramesOf(t.g)));
  }

  /** An ACK that a packet clears is lost exactly if a PING is first. */
  lemma {:induction false} AckLostExactly(a: Stock, b: Stock, ids: seq<nat>, h: Heads, c: Sealing, o: Outcome, t: Taking)
    requires c.Ok() && Packed(a, b, ids, h, c, o, t) && o.Packet? && h.ack.Some? && h.ack.value != Ping
    ensures h.ack.value in o.frames <==> !PingFirst(a.control)
  {
    if !PingFirst(a.control) {
      HeadsGo(a, b, ids, h, c, o, t);
    }
  }

  lemma {:induction false} HeadsIn(h: Heads, x: seq<Frame>, y: seq<Frame>)
    ensures var frames := h.First() + x + y;
            (h.stop.Some? ==> h.stop.value in frames) && (h.ack.Some? ==> h.ack.value in frames)
  {
    var frames := h.First() + x + y;
    if h.stop.Some? {
      assert frames[0] == h.stop.value;
    }
    if h.ack.Some? {
      assert frames[|Listed(h.stop)|] == h.ack.value;
    }
  }

  /** What was popped, and what is left to be sent again, carry exactly what was to be sent again and what was sent for
  the first time. */
  ghost predicate Balanced(queue: seq<StreamFrame>, sent: seq<StreamFrame>, queue': seq<StreamFrame>, sent': seq<StreamFrame>, fs: seq<StreamFrame>) {
    && sent <= sent'
    && multiset(Content(fs)) + multiset(Content(queue')) == multiset(Content(queue)) + multiset(Content(sent'[|sent|..]))
  }

  lemma {:induction false} PackedBalances(a: Stock, b: Stock, ids: seq<nat>, h: Heads, c: Sealing, o: Outcome, t: Taking)
    requires c.Ok() && Packed(a, b, ids, h, c, o, t)
    ensures Balanced(a.queue, a.x.sent, b.queue, b.x.sent, FramesOf(t.g))
  {
    if t.g.Some? {
      var p := t.g.value;
      PoppedBalances(a.queue, a.x.sent, b.queue, p.resent, p.w.frames);
    } else {
      NothingBalances(a.queue, a.x.sent);
    }
  }

  lemma {:induction false} PoppedBalances(queue: seq<StreamFrame>, sent: seq<StreamFrame>, rest: seq<StreamFrame>, resent: seq<StreamFrame>,
                                          firsts: seq<StreamFrame>)
    requires Content(resent) + Content(rest) == Content(queue)
    ensures Balanced(queue, sent, rest, sent + firsts, resent + firsts)
  {
    ContentConcat(resent, firsts);
    assert (sent + firsts)[|sent|..] == firsts;
    assert multiset(Content(queue)) == multiset(Content(resent)) + multiset(Content(rest));
  }

  lemma {:induction false} NothingBalances(queue: seq<StreamFrame>, sent: seq<StreamFrame>)
    ensures Balanced(queue, sent, queue, sent, [])
  {
    assert sent[|sent|..] == [];
  }

  lemma {:induction false} Sums(a1: multiset<Atom>, b1: multiset<Atom>, c: multiset<Atom>, d1: multiset<Atom>, a2: multiset<Atom>, b2: multiset<Atom>, d2: multiset<Atom>)
    requires a1 + b1 == c + d1 && a2 + b2 == b1 + d2
    ensures a1 + a2 + b2 == c + (d1 + d2)
  {
    forall x ensures (a1 + a2 + b2)[x] == (c + (d1 + d2))[x] {
      assert (a1 + b1)[x] == (c + d1)[x] && (a2 + b2)[x] == (b1 + d2)[x];
    }
  }

  lemma {:induction false} BalancedSteps(q0: seq<StreamFrame>, s0: seq<StreamFrame>, q1: seq<StreamFrame>, s1: seq<StreamFrame>, fs: seq<StreamFrame>,
                                         q2: seq<StreamFrame>, s2: seq<StreamFrame>, gs: seq<StreamFrame>)
    requires Balanced(q0, s0, q1, s1, fs) && Balanced(q1, s1, q2, s2, gs)
    ensures Balanced(q0, s0, q2, s2, fs + gs)
  {
    var d1, d2 := s1[|s0|..], s2[|s1|..];
    assert s2[|s0|..] == d1 + d2;
    ContentConcat(fs, gs);
    ContentConcat(d1, d2);
    Sums(multiset(Content(fs)), multiset(Content(q1)), multiset(Content(q0)), multiset(Content(d1)), multiset(Content(gs)), multiset(Content(q2)), multiset(Content(d2)));
    assert multiset(Content(fs + gs)) == multiset(Content(fs)) + multiset(Content(gs));
    assert multiset(Content(d1 + d2)) == multiset(Content(d1)) + multiset(Content(d2));
  }

  /** The frames of data streams in a packet. */
  function StreamFramesOf(t: Taking): seq<StreamFrame> {
    if t.FromQueues? then FramesOf(t.g) else []
  }

  lemma {:induction false} CryptoMeans(o: Outcome, queue: seq<StreamFrame>, sent: seq<StreamFrame>)
    requires o.Packet?
    ensures Carried(o, []) && Balanced(queue, sent, queue, sent, [])
  {
    NothingBalances(queue, sent);
  }

  /** What an outcome means. A packet ends with exactly the stream frames popped, and starts with the STOP_WAITING and the
  ACK of its path. No packet is made in the cases of NoPacketExactly, and then no stream frame was popped. Control frames
  are lost in the case of ControlKeptExactly only. Where stream data may be sent, nothing is left that would fit. */
  ghost predicate Meaning(a: Stock, b: Stock, ids: seq<nat>, h: Heads, c: Sealing, o: Outcome, t: Taking) {
    && t.FromQueues? && Carried(o, StreamFramesOf(t)) && Balanced(a.queue, a.x.sent, b.queue, b.x.sent, StreamFramesOf(t))
    && (o.NoPacket? <==>
        if PingFirst(a.control) then h.stop.Some?
        else !o.PayloadTooLarge? && h.ack.None? && t.n == |a.control| && FramesOf(t.g) == [])
    && (!o.Packet? ==> b.queue == a.queue && b.x.sent == a.x.sent && b.x.states == a.x.states)
    && (multiset(a.control) <= multiset(b.control) + multiset(if o.Packet? then o.frames else [])
        <==> !(PingFirst(a.control) && h.stop.Some?))
    && (o.Packet? && !PingFirst(a.control) ==> (h.stop.Some? ==> h.stop.value in o.frames) && (h.ack.Some? ==> h.ack.value in o.frames))
    && (t.g.Some? <==> !PingFirst(a.control) && !o.PayloadTooLarge? && if c.pers == Client then c.level != Unencrypted else c.level == ForwardSecure)
    && (t.g.Some? ==> UsedUp(b, ids, t.g.value))
  }

  /** What was popped has left no room, or nothing to send: neither on the streams nor to be sent again. */
  ghost predicate UsedUp(b: Stock, ids: seq<nat>, p: Popping) {
    && |b.x.states| == |ids| && NothingLeft(b.x.states, ids, b.x.flow, TotalLen(p.w.frames), p.room)
    && (b.queue == [] || TotalLen(p.resent) + MinLength(Mark(b.queue[0])) >= p.maxLen)
  }

  lemma {:induction false} PackedUsesUp(a: Stock, b: Stock, ids: seq<nat>, h: Heads, c: Sealing, o: Outcome, t: Taking)
    requires c.Ok() && Packed(a, b, ids, h, c, o, t)
    ensures t.g.Some? <==> !PingFirst(a.control) && !o.PayloadTooLarge? && if c.pers == Client then c.level != Unencrypted else c.level == ForwardSecure
    ensures t.g.Some? ==> UsedUp(b, ids, t.g.value)
  {
  }

  lemma {:induction false} PackedMeans(a: Stock, b: Stock, ids: seq<nat>, h: Heads, c: Sealing, o: Outcome, t: Taking)
    requires c.Ok() && Packed(a, b, ids, h, c, o, t)
    ensures Meaning(a, b, ids, h, c, o, t)
  {
    PackedUsesUp(a, b, ids, h, c, o, t);
    if o.Packet? && !PingFirst(a.control) {
      HeadsGo(a, b, ids, h, c, o, t);
    }
    PacketCarries(a, b, ids, h, c, o, t);
    PackedBalances(a, b, ids, h, c, o, t);
    NoPacketExactly(a, b, ids, h, c, o, t);
    ControlKeptExactly(a, b, ids, h, c, o, t);
    if !o.Packet? {
      NothingPopped(a, b, ids, h, c, o, t);
    }
  }

  /** Where no packet is made, no stream frame is popped: streams and frames to be sent again stay as they are. */
  lemma {:induction false} NothingPopped(a: Stock, b: Stock, ids: seq<nat>, h: Heads, c: Sealing,
                                         o: Outcome, t: Taking)
    requires c.Ok() && Packed(a, b, ids, h, c, o, t) && !o.Packet?
    ensures b.queue == a.queue && b.x.sent == a.x.sent && b.x.states == a.x.states
  {
    NoPacketExactly(a, b, ids, h, c, o, t);
    if t.g.Some? {
      IdlePopping(a.(control := a.control[..t.n]), b, ids, t.g.value);
    }
  }

  lemma {:induction false} IdlePopping(a: Stock, b: Stock, ids: seq<nat>, p: Popping)
    requires StreamsPopped(a, b, ids, p) && p.Frames() == []
    ensures b.queue == a.queue && b.x.sent == a.x.sent && b.x.states == a.x.states
  {
    IdleDone(a.x, b.x.(blocked := a.x.blocked + p.w.blocked), ids, p.room, p.w);
  }

  class Packer {
    const framer: Framer
    var controlFrames: seq<Frame>
    var stopWaiting: map<nat, Frame>
    var ackFrame: map<nat, Frame>

    constructor (framer: Framer)
      ensures this.framer == framer && controlFrames == [] && stopWaiting == map[] && ackFrame == map[]
    {
      this.framer := framer;
      controlFrames, stopWaiting, ackFrame := [], map[], map[];
    }

    ghost predicate QueuesOk()
      reads this
    {
      && FramesOk(controlFrames)
      && (forall p :: p in stopWaiting ==> FrameOk(stopWaiting[p]))
      && (forall p :: p in ackFrame ==> FrameOk(ackFrame[p]))
    }

    /** The STOP_WAITING and ACK frames that go first on a path. */
    function First(path: nat): seq<Frame>
      reads this`stopWaiting, this`ackFrame
    {
      HeadsOf(path).First()
    }

    function HeadsOf(path: nat): Heads
      reads this`stopWaiting, this`ackFrame
    {
      Heads(Entry(stopWaiting, path), Entry(ackFrame, path))
    }

    /** Moves control frames into the payload, the newest first, while they fit. */
    method TakeControlFrames(payload: seq<Frame>, maxFrameSize: nat) returns (res: seq<Frame>, len: nat, ghost n: nat)
      modifies this`controlFrames
      ensures n <= |old(controlFrames)| && controlFrames == old(controlFrames)[..n]
      ensures res == payload + Reversed(old(controlFrames)[n..]) && len == Declared(res)
      ensures len > maxFrameSize <==> Declared(payload) > maxFrameSize
      ensures len > maxFrameSize ==> n == |old(controlFrames)|
      ensures n > 0 ==> len + DeclaredLen(old(controlFrames)[n - 1]) > maxFrameSize
    {
      ghost var queue := controlFrames;
      res, len, n := payload, Declared(payload), |controlFrames|;
      while |controlFrames| > 0
        invariant n <= |queue| && controlFrames == queue[..n]
        invariant res == payload + Reversed(queue[n..]) && len == Declared(res)
        invariant Declared(payload) <= len && (len <= maxFrameSize || (n == |queue| && len == Declared(payload)))
      {
        var frame := controlFrames[|controlFrames| - 1];
        if len + DeclaredLen(frame) > maxFrameSize {
          return;
        }
        DeclaredAppend(res, frame);
        ReversedPush(queue, n);
        res := res + [frame];
        len := len + DeclaredLen(frame);
        controlFrames := controlFrames[..|controlFrames| - 1];
        n := n - 1;
      }
    }

    /** The BLOCKED frames queued meanwhile go out with the next packet. */
    method QueueBlockedFrames()
      modifies this`controlFrames, framer`blockedQueue
      ensures controlFrames == old(controlFrames) + BlockedFrames(old(framer.blockedQueue)) && framer.blockedQueue == []
    {
      ghost var was, ids := controlFrames, framer.blockedQueue;
      var id := framer.PopBlockedFrame();
      while id.Some?
        invariant ids == [] ==> id.None?
        invariant controlFrames + (if id.Some? then [Blocked(id.value)] else []) + BlockedFrames(framer.blockedQueue) == was + BlockedFrames(ids)
        invariant id.None? ==> framer.blockedQueue == []
        decreases |framer.blockedQueue| + if id.Some? then 1 else 0
      {
        controlFrames := controlFrames + [Blocked(id.value)];
        id := framer.PopBlockedFrame();
      }
    }

    ghost function StockOf(order: seq<Stream>): Stock
      reads this`controlFrames, framer, framer.flow, order
    {
      Stock(controlFrames, framer.Now(order), framer.retransmissionQueue)
    }

    /** The frames of the next packet: STOP_WAITING and ACK, control frames, then stream data. The
    control frames taken are the last ones queued, newest first; the others stay queued. */
    method ComposeNextPacket(ghost a: Stock, maxFrameSize: nat, canSendStreamFrames: bool, path: nat, order: seq<Stream>)
      returns (r: Payload, ghost n: nat, ghost g: Option<Popping>)
      requires framer.Consistent(order) && a == StockOf(order)
      modifies this`controlFrames, framer, framer.flow, order
      ensures framer.Consistent(order)
      ensures Composed(a, StockOf(order), Ids(order), old(First(path)), maxFrameSize, canSendStreamFrames, r, n, g)
    {
      var first, payload, len := First(path), [], 0;
      ghost var left;
      payload, len, n, left := TakeControl(a, first, maxFrameSize, order);
      r, g := AddIfAllowed(left, payload, len, maxFrameSize, canSendStreamFrames, order);
      ComposedIs(a, left, StockOf(order), Ids(order), first, payload, len, maxFrameSize, canSendStreamFrames, r, n, g);
    }

    /** The control frames that fit; the streams stay as they are. */
    method TakeControl(ghost a: Stock, first: seq<Frame>, max: nat, ghost order: seq<Stream>)
      returns (payload: seq<Frame>, len: nat, ghost n: nat, ghost left: Stock)
      requires a == StockOf(order)
      modifies this`controlFrames
      ensures ControlTaken(first, a.control, n, max) && StockOf(order) == left == a.(control := a.control[..n])
      ensures payload == first + Reversed(a.control[n..]) && len == Declared(payload)
      ensures (len > max <==> Declared(first) > max) && (len > max ==> n == |a.control|)
    {
      payload, len, n := TakeControlFrames(first, max);
      ControlTakenIs(first, a.control, n, max);
      left := StockOf(order);
    }

    method AddIfAllowed(ghost left: Stock, payload: seq<Frame>, len: nat, maxFrameSize: nat, canSendStreamFrames: bool, order: seq<Stream>)
      returns (r: Payload, ghost g: Option<Popping>)
      requires framer.Consistent(order) && left == StockOf(order) && len == Declared(payload)
      modifies this`controlFrames, framer, framer.flow, order
      ensures framer.Consistent(order)
      ensures Added(left, StockOf(order), Ids(order), payload, len, maxFrameSize, canSendStreamFrames, r, g)
    {
      g := None;
      if len > maxFrameSize {
        r := TooLarge;
      } else if !canSendStreamFrames {
        assert payload + Wrapped([]) == payload;
        r := Payload(payload);
      } else {
        // two more bytes for now: the last stream frame will drop its length field
        var room := maxFrameSize + 2 - len;
        ghost var p;
        var fs;
        fs, p := AddStreamFrames(left, payload, room, order);
        g := Some(p);
        r := Payload(payload + Wrapped(fs));
      }
    }

    /** Queues the BLOCKED frames; the streams stay as they are. */
    method AnnounceBlocked(ghost y: Moment, ghost order: seq<Stream>)
      requires y == framer.Now(order)
      modifies this`controlFrames, framer`blockedQueue
      ensures framer.Now(order) == y.(blocked := []) && framer.retransmissionQueue == old(framer.retransmissionQueue)
      ensures controlFrames == old(controlFrames) + BlockedFrames(y.blocked)
    {
      QueueBlockedFrames();
      assert States(order) == y.states;
    }

    method AddStreamFrames(ghost a: Stock, ghost payload: seq<Frame>, maxLen: nat, order: seq<Stream>)
      returns (fs: seq<StreamFrame>, ghost p: Popping)
      requires framer.Consistent(order) && maxLen >= 2 && a == StockOf(order)
      modifies this`controlFrames, framer, framer.flow, order
      ensures framer.Consistent(order) && fs == p.Frames() && p.maxLen == maxLen
      ensures StreamsPopped(a, StockOf(order), Ids(order), p)
      ensures Declared(payload + Wrapped(fs)) + 2 <= Declared(payload) + maxLen
    {
      fs, p := framer.PopStreamFrames(order, maxLen);
      ghost var y, rest := framer.Now(order), framer.retransmissionQueue;
      PoppedLen(p, a.x, y, Ids(order), a.queue, rest, payload);
      AnnounceBlocked(y, order);
      PoppedIs(a, StockOf(order), Ids(order), p, y, rest);
    }

    method QueueControlFrame(frame: Frame, kind: Kind, path: nat)
      requires QueuesOk() && FrameOk(frame)
      modifies this
      ensures QueuesOk()
      ensures stopWaiting == if kind == StopWaiting then old(stopWaiting)[path := frame] else old(stopWaiting)
      ensures ackFrame == if kind == Ack then old(ackFrame)[path := frame] else old(ackFrame)
      ensures controlFrames == old(controlFrames) + if kind == Other then [frame] else []
    {
      match kind {
        case StopWaiting => stopWaiting := stopWaiting[path := frame];
        case Ack => ackFrame := ackFrame[path := frame];
        case Other => controlFrames := controlFrames + [frame];
      }
    }

    /** Writes a packet and takes its number; refuses packets that are too large. */
    method WriteAndSealPacket(c: Sealing, frames: seq<Frame>, gen: Generator, distance: Option<uint64>) returns (o: Outcome)
      modifies gen
      ensures
        if c.Size(frames) > MAX_PACKET_SIZE then o == PacketTooLarge && gen.State() == old(gen.State())
        else
          && o == (if old(gen.next) == c.number then Packet(c.number, frames, c.Size(frames)) else NumbersDiffer)
          && gen.State() == AfterPop(old(gen.State()), distance)
    {
      if c.Size(frames) > MAX_PACKET_SIZE {
        o := PacketTooLarge;
      } else {
        var num := gen.Pop(distance);
        o := if num != c.number then NumbersDiffer else Packet(num, frames, c.Size(frames));
      }
    }

    /** A packet with data of the crypto stream only. */
    method PackCryptoPacket(c: Sealing, crypto: Stream, gen: Generator, distance: Option<uint64>) returns (o: Outcome, ghost f: StreamFrame)
      requires c.Ok() && c.number == gen.next
      requires crypto.streamID == CRYPTO_STREAM && crypto.State().Ok() && !crypto.err && crypto.dataForWriting.Some?
      modifies crypto, gen
      ensures crypto.State().Ok()
      ensures o.Packet? && o.size + NON_FORWARD_SECURE_REDUCTION <= MAX_PACKET_SIZE && o.number == old(gen.next)
      ensures o.frames == [StreamData(f)] && CryptoTaken(old(crypto.State()), crypto.State(), f, c.Room() - NON_FORWARD_SECURE_REDUCTION)
      ensures gen.State() == AfterPop(old(gen.State()), distance)
    {
      var maxLen := c.Room() - NON_FORWARD_SECURE_REDUCTION;
      var frame := framer.PopCryptoStreamFrame(crypto, maxLen);
      f := frame.value;
      var frames := [StreamData(frame.value)];
      LoneFrameLen(frames[0]);
      o := WriteAndSealPacket(c, frames, gen, distance);
    }

    /** The next packet of a path. It never fails because of its size: either it fits, or the ACK and
    STOP_WAITING frames alone are too long and nothing is taken. */
    method PackPacket(ghost a: Stock, ghost h: Heads, c: Sealing, path: nat, crypto: Stream, order: seq<Stream>, gen: Generator, distance: Option<uint64>)
      returns (o: Outcome, ghost t: Taking)
      requires c.Ok() && c.number == gen.next && Ready(crypto, order) && a == StockOf(order) && h == HeadsOf(path)
      modifies this, framer, framer.flow, order, crypto, gen
      ensures Ready(crypto, order)
      ensures FineOne(o) && (o.Packet? ==> o.number == old(gen.next))
      ensures gen.State() == if o.Packet? then AfterPop(old(gen.State()), distance) else old(gen.State())
      ensures t.FromCrypto? <==> old(!crypto.err && crypto.dataForWriting.Some?)
      ensures t.FromCrypto? ==>
                && o.Packet? && o.frames == [StreamData(t.f)]
                && CryptoTaken(old(crypto.State()), crypto.State(), t.f, c.Room() - NON_FORWARD_SECURE_REDUCTION)
                && controlFrames == old(controlFrames) && stopWaiting == old(stopWaiting) && ackFrame == old(ackFrame)
                && framer.sent == old(framer.sent) && framer.retransmissionQueue == old(framer.retransmissionQueue)
      ensures Carried(o, StreamFramesOf(t))
      ensures Balanced(old(framer.retransmissionQueue), old(framer.sent), framer.retransmissionQueue, framer.sent, StreamFramesOf(t))
      ensures t.FromQueues? ==>
                && Packed(a, StockOf(order), Ids(order), h, c, o, t) && Meaning(a, StockOf(order), Ids(order), h, c, o, t)
                && stopWaiting == (if o.Packet? then old(stopWaiting) - {path} else old(stopWaiting))
                && ackFrame == (if o.Packet? then old(ackFrame) - {path} else old(ackFrame))
    {
      if !crypto.err && crypto.dataForWriting.Some? {
        o, t := PackFromCrypto(c, crypto, order, gen, distance);
        CryptoMeans(o, framer.retransmissionQueue, framer.sent);
      } else {
        o, t := PackFromQueues(a, h, c, path, crypto, order, gen, distance);
      }
    }

    /** A packet from the queues: its outcome, what that means, and what it leaves. */
    method PackFromQueues(ghost a: Stock, ghost h: Heads, c: Sealing, path: nat, ghost crypto: Stream, order: seq<Stream>, gen: Generator,
                          distance: Option<uint64>) returns (o: Outcome, ghost t: Taking)
      requires c.Ok() && c.number == gen.next && Ready(crypto, order) && a == StockOf(order) && h == HeadsOf(path)
      modifies this, framer, framer.flow, order, gen
      ensures Ready(crypto, order) && t.FromQueues?
      ensures FineOne(o) && (o.Packet? ==> o.number == old(gen.next))
      ensures gen.State() == if o.Packet? then AfterPop(old(gen.State()), distance) else old(gen.State())
      ensures Packed(a, StockOf(order), Ids(order), h, c, o, t) && Meaning(a, StockOf(order), Ids(order), h, c, o, t)
      ensures o.Packet? && !PingFirst(a.control) ==>
                && (path in old(stopWaiting) ==> old(stopWaiting)[path] in o.frames)
                && (path in old(ackFrame) ==> old(ackFrame)[path] in o.frames)
      ensures stopWaiting == (if o.Packet? then old(stopWaiting) - {path} else old(stopWaiting))
      ensures ackFrame == (if o.Packet? then old(ackFrame) - {path} else old(ackFrame))
    {
      o, t := PackPayload(a, h, c, path, order, gen, distance);
      CryptoOk(crypto, order);
      PackedMeans(a, StockOf(order), Ids(order), h, c, o, t);
    }

    lemma {:induction false} CryptoOk(crypto: Stream, order: seq<Stream>)
      requires framer.Consistent(order) && (crypto !in order ==> crypto.State().Ok())
      ensures crypto.State().Ok()
    {
      if crypto in order {
        var i :| 0 <= i < |order| && order[i] == crypto;
        assert States(order)[i].Ok();
      }
    }

    method PackFromCrypto(c: Sealing, crypto: Stream, ghost order: seq<Stream>, gen: Generator, distance: Option<uint64>)
      returns (o: Outcome, ghost t: Taking)
      requires c.Ok() && c.number == gen.next && Ready(crypto, order) && !crypto.err && crypto.dataForWriting.Some?
      modifies crypto, gen
      ensures framer.Consistent(order) && crypto.State().Ok() && t.FromCrypto?
      ensures o.Packet? && o.frames == [StreamData(t.f)] && o.size <= MAX_PACKET_SIZE && o.number == old(gen.next)
      ensures CryptoTaken(old(crypto.State()), crypto.State(), t.f, c.Room() - NON_FORWARD_SECURE_REDUCTION)
      ensures gen.State() == AfterPop(old(gen.State()), distance)
    {
      ghost var f;
      ghost var x := framer.Now(order);
      o, f := PackCryptoPacket(c, crypto, gen, distance);
      t := FromCrypto(f);
      forall i | 0 <= i < |order| && order[i] != crypto ensures framer.Now(order).states[i] == x.states[i] {
        assert order[i].State() == old(order[i].State());
      }
      CryptoKeepsConsistent(x, framer.Now(order), order, crypto);
    }

    /** A visit to the crypto stream counts nothing. */
    lemma {:induction false} CryptoKeepsConsistent(x: Moment, y: Moment, order: seq<Stream>, crypto: Stream)
      requires SameByID(order) && MomentOk(x, Ids(order)) && y == framer.Now(order) && x.flow == y.flow && x.sent == y.sent
      requires crypto.streamID == CRYPTO_STREAM && crypto.State().Ok()
      requires |x.states| == |y.states| && forall i :: 0 <= i < |order| && order[i] != crypto ==> y.states[i] == x.states[i]
      ensures framer.Consistent(order)
    {
      var ids := Ids(order);
      forall i | 0 <= i < |ids| ensures CountedAt(y.states[i], ids[i], y.flow.streams, y.sent) {
        assert CountedAt(x.states[i], ids[i], x.flow.streams, x.sent);
      }
    }

    /** What the packer, the framer and the streams must keep from packet to packet. */
    ghost predicate Ready(crypto: Stream, order: seq<Stream>)
      reads this, framer, framer.flow, order, crypto
    {
      framer.Consistent(order) && QueuesOk() && crypto.streamID == CRYPTO_STREAM && crypto.State().Ok()
    }

    /** The next packet, with the number the generator has ready. */
    method PackNext(c: Sealing, path: nat, crypto: Stream, order: seq<Stream>, gen: Generator, distance: Option<uint64>)
      returns (o: Outcome, ghost fs: seq<StreamFrame>)
      requires c.Ok() && gen.next + 2 < TWO_64 && Ready(crypto, order)
      modifies this, framer, framer.flow, order, crypto, gen
      ensures Ready(crypto, order) && FineOne(o) && Carried(o, fs)
      ensures Balanced(old(framer.retransmissionQueue), old(framer.sent), framer.retransmissionQueue, framer.sent, fs)
      ensures old(gen.next) <= gen.next <= old(gen.next) + 2 && (o.Packet? ==> o.number == old(gen.next) < gen.next)
    {
      var number := gen.Peek();
      PopGrows(gen.State(), distance);
      ghost var t;
      o, t := PackPacket(StockOf(order), HeadsOf(path), c.(number := number), path, crypto, order, gen, distance);
      fs := StreamFramesOf(t);
    }

    /** Packets of a path, one after the other, whatever is queued for them: none is too large, each has a larger number
    than the ones before it, and every byte taken for sending is in exactly one of them. */
    method PackPackets(cs: seq<Sealing>, path: nat, crypto: Stream, order: seq<Stream>, gen: Generator, distances: seq<Option<uint64>>)
      returns (os: seq<Outcome>, ghost fss: seq<seq<StreamFrame>>)
      requires |distances| == |cs| && (forall i :: 0 <= i < |cs| ==> cs[i].Ok()) && gen.next + 2 * |cs| < TWO_64
      requires Ready(crypto, order)
      modifies this, framer, framer.flow, order, crypto, gen
      ensures Ready(crypto, order)
      ensures |os| == |cs| && Series(os, fss, gen.next, old(framer.retransmissionQueue), old(framer.sent), framer.retransmissionQueue, framer.sent)
    {
      os, fss := [], [];
      var i := 0;
      ghost var queue, before := framer.retransmissionQueue, framer.sent;
      NothingBalances(queue, before);
      while i < |cs|
        invariant 0 <= i == |os| <= |cs| && gen.next + 2 * (|cs| - i) < TWO_64
        invariant Ready(crypto, order)
        invariant Series(os, fss, gen.next, queue, before, framer.retransmissionQueue, framer.sent)
      {
        ghost var number, q, sent, fs := gen.next, framer.retransmissionQueue, framer.sent, [];
        var o;
        o, fs := PackNext(cs[i], path, crypto, order, gen, distances[i]);
        SeriesNext(os, fss, o, fs, number, gen.next, queue, before, q, sent, framer.retransmissionQueue, framer.sent);
        os, fss, i := os + [o], fss + [fs], i + 1;
      }
    }

    /** A packet without data of the crypto stream. */
    method PackPayload(ghost a: Stock, ghost h: Heads, c: Sealing, path: nat, order: seq<Stream>, gen: Generator, distance: Option<uint64>)
      returns (o: Outcome, ghost t: Taking)
      requires c.Ok() && c.number == gen.next && framer.Consistent(order) && QueuesOk() && a == StockOf(order) && h == HeadsOf(path)
      modifies this, framer, framer.flow, order, gen
      ensures framer.Consistent(order) && QueuesOk() && t.FromQueues?
      ensures Packed(a, StockOf(order), Ids(order), h, c, o, t) && (o.Packet? ==> o.size <= MAX_PACKET_SIZE)
      ensures stopWaiting == if o.Packet? then old(stopWaiting) - {path} else old(stopWaiting)
      ensures ackFrame == if o.Packet? then old(ackFrame) - {path} else old(ackFrame)
      ensures gen.State() == if o.Packet? then AfterPop(old(gen.State()), distance) else old(gen.State())
    {
      var payload;
      ghost var n, g;
      var room, can := c.Room(), c.CanSendData();
      payload, n, g := NextPayload(a, room, can, path, order);
      t := FromQueues(payload, n, g);
      ghost var b := StockOf(order);
      o := SealPayload(c, payload, path, gen, distance);
      assert StockOf(order) == b;
      PackedIs(a, StockOf(order), Ids(order), h, h.First(), room, can, c, o, payload, n, g);
    }

    /** Writes the packet, if there are enough frames for one. */
    method SealPayload(c: Sealing, payload: Payload, path: nat, gen: Generator, distance: Option<uint64>) returns (o: Outcome)
      requires c.Ok() && c.number == gen.next && QueuesOk() && (payload.Payload? ==> Written(payload.frames) <= c.Room())
      modifies this`stopWaiting, this`ackFrame, gen
      ensures QueuesOk()
      ensures o == OutcomeOf(c, payload, path in old(stopWaiting)) && (o.Packet? ==> o.size <= MAX_PACKET_SIZE)
      ensures stopWaiting == if o.Packet? then old(stopWaiting) - {path} else old(stopWaiting)
      ensures ackFrame == if o.Packet? then old(ackFrame) - {path} else old(ackFrame)
      ensures gen.State() == if o.Packet? then AfterPop(old(gen.State()), distance) else old(gen.State())
    {
      if payload.TooLarge? {
        o := PayloadTooLarge;
      } else if payload.frames == [] || (|payload.frames| == 1 && path in stopWaiting) {
        o := NoPacket;
      } else {
        stopWaiting, ackFrame := stopWaiting - {path}, ackFrame - {path};
        o := WriteAndSealPacket(c, payload.frames, gen, distance);
      }
    }

    /** A PING queued first goes alone; otherwise the packet is composed. */
    method NextPayload(ghost a: Stock, room: nat, canSendData: bool, path: nat, order: seq<Stream>)
      returns (payload: Payload, ghost n: nat, ghost g: Option<Popping>)
      requires framer.Consistent(order) && QueuesOk() && room > 0 && a == StockOf(order)
      modifies this`controlFrames, framer, framer.flow, order
      ensures framer.Consistent(order) && QueuesOk()
      ensures payload.Payload? ==> Written(payload.frames) <= room
      ensures Taken(a, StockOf(order), Ids(order), old(First(path)), room, canSendData, payload, n, g)
    {
      if |controlFrames| > 0 && controlFrames[0] == Ping {
        controlFrames := controlFrames[1..];
        PingLen();
        payload, n, g := Payload([Ping]), 0, None;
      } else {
        payload, n, g := ComposedPayload(a, room, canSendData, path, order);
      }
    }

    lemma {:induction false} FirstOk(path: nat)
      requires QueuesOk()
      ensures FramesOk(First(path)) && FramesOk(controlFrames)
    {
    }

    method ComposedPayload(ghost a: Stock, room: nat, canSendData: bool, path: nat, order: seq<Stream>)
      returns (payload: Payload, ghost n: nat, ghost g: Option<Popping>)
      requires framer.Consistent(order) && QueuesOk() && a == StockOf(order)
      modifies this`controlFrames, framer, framer.flow, order
      ensures framer.Consistent(order) && QueuesOk()
      ensures payload.Payload? ==> Written(payload.frames) <= room
      ensures Composed(a, StockOf(order), Ids(order), old(First(path)), room, canSendData, payload, n, g)
    {
      ghost var first := First(path);
      FirstOk(path);
      payload, n, g := ComposeNextPacket(a, room, canSendData, path, order);
      ComposedOk(a, StockOf(order), Ids(order), first, room, canSendData, payload, n, g);
    }
  }

  /** A composed payload takes no more than it declares, and what is left in the queue is as it should be. */
  lemma {:induction false} ComposedOk(a: Stock, b: Stock, ids: seq<nat>, first: seq<Frame>, max: nat, can: bool, r: Payload, n: nat, g: Option<Popping>)
    requires Composed(a, b, ids, first, max, can, r, n, g) && FramesOk(first) && FramesOk(a.control)
    ensures FramesOk(b.control) && (r.Payload? ==> Written(r.frames) <= max)
  {
    ComposedBound(first, a.control, n, FramesOf(g), r);
    if g.Some? {
      var blocked := a.x.blocked + g.value.w.blocked;
      BlockedOk(blocked);
      LeftOk(a.control, n, BlockedFrames(blocked));
    }
  }

  lemma {:induction false} ComposedBound(first: seq<Frame>, queue: seq<Frame>, n: nat, fs: seq<StreamFrame>, payload: Payload)
    requires FramesOk(first) && FramesOk(queue) && n <= |queue|
    requires payload.Payload? ==> payload.frames == first + Reversed(queue[n..]) + Wrapped(fs)
    ensures payload.Payload? ==> Written(payload.frames) <= Declared(payload.frames)
  {
    if payload.Payload? {
      PayloadOk(first, queue, n, fs);
      WrittenBound(payload.frames);
    }
  }

  function Flat(fss: seq<seq<StreamFrame>>): seq<StreamFrame> {
    if fss == [] then [] else Flat(fss[..|fss| - 1]) + fss[|fss| - 1]
  }

  lemma {:induction false} FlatAppend(fss: seq<seq<StreamFrame>>, fs: seq<StreamFrame>)
    ensures Flat(fss + [fs]) == Flat(fss) + fs
  {
    assert (fss + [fs])[..|fss|] == fss;
  }

  /** Packets that were made fit; none was refused for its size or its number. */
  ghost predicate Fine(os: seq<Outcome>) {
    forall i :: 0 <= i < |os| ==> FineOne(os[i])
  }

  predicate FineOne(o: Outcome) {
    (o.Packet? || o.NoPacket? || o.PayloadTooLarge?) && (o.Packet? ==> o.size <= MAX_PACKET_SIZE && o.frames != [])
  }

  /** Packet numbers grow, and are below the next one. */
  ghost predicate NumbersGrow(os: seq<Outcome>, next: nat) {
    && (forall i :: 0 <= i < |os| && os[i].Packet? ==> os[i].number < next)
    && forall i, j :: 0 <= i < j < |os| && os[i].Packet? && os[j].Packet? ==> os[i].number < os[j].number
  }

  /** A series of packets: all fit, their numbers grow, and every byte taken for sending is in exactly one of them. */
  ghost predicate Series(os: seq<Outcome>, fss: seq<seq<StreamFrame>>, next: nat, queue: seq<StreamFrame>, sent: seq<StreamFrame>,
                         queue': seq<StreamFrame>, sent': seq<StreamFrame>) {
    && Fine(os) && NumbersGrow(os, next)
    && |fss| == |os| && (forall i :: 0 <= i < |os| ==> Carried(os[i], fss[i]))
    && Balanced(queue, sent, queue', sent', Flat(fss))
  }

  lemma {:induction false} SeriesNext(os: seq<Outcome>, fss: seq<seq<StreamFrame>>, o: Outcome, fs: seq<StreamFrame>, number: nat, next: nat,
                                      q0: seq<StreamFrame>, s0: seq<StreamFrame>, q1: seq<StreamFrame>, s1: seq<StreamFrame>,
                                      q2: seq<StreamFrame>, s2: seq<StreamFrame>)
    requires Series(os, fss, number, q0, s0, q1, s1) && FineOne(o) && Carried(o, fs) && Balanced(q1, s1, q2, s2, fs)
    requires number <= next && (o.Packet? ==> o.number == number < next)
    ensures Series(os + [o], fss + [fs], next, q0, s0, q2, s2)
  {
    OneMore(os, o, number, next);
    BalancedSteps(q0, s0, q1, s1, Flat(fss), q2, s2, fs);
    FlatAppend(fss, fs);
    CarriedMore(os, fss, o, fs);
  }

  lemma {:induction false} CarriedMore(os: seq<Outcome>, fss: seq<seq<StreamFrame>>, o: Outcome, fs: seq<StreamFrame>)
    requires |fss| == |os| && (forall i :: 0 <= i < |os| ==> Carried(os[i], fss[i])) && Carried(o, fs)
    ensures forall i :: 0 <= i < |os + [o]| ==> Carried((os + [o])[i], (fss + [fs])[i])
  {
  }

  lemma {:induction false} OneMore(os: seq<Outcome>, o: Outcome, number: nat, next: nat)
    requires Fine(os) && FineOne(o) && NumbersGrow(os, number) && number <= next
    requires o.Packet? ==> o.number == number < next
    ensures Fine(os + [o]) && NumbersGrow(os + [o], next)
  {
  }

  lemma {:induction false} PopGrows(g: Numbering, distance: Option<uint64>)
    requires g.next + 2 < TWO_64
    ensures g.next < AfterPop(g, distance).next <= g.next + 2
  {
    SkipsOneAtMost(g, distance);
  }

  lemma {:induction false} LeftOk(queue: seq<Frame>, n: nat, blocked: seq<Frame>)
    requires FramesOk(queue) && n <= |queue| && forall f :: f in blocked ==> f.Blocked?
    ensures FramesOk(queue[..n] + blocked)
  {
  }

  lemma {:induction false} LoneFrameLen(f: Frame)
    requires f.StreamData?
    ensures Written([f]) <= Declared([f]) == WireLen(f.f)
  {
    DeclaredAppend([], f);
    assert [] + [f] == [f];
    WrittenBound([f]);
  }

  lemma {:induction false} PingLen()
    ensures Written([Ping]) == 1
  {
    assert [Ping][..0] == [];
  }

  lemma {:induction false} PayloadOk(first: seq<Frame>, queue: seq<Frame>, n: nat, fs: seq<StreamFrame>)
    requires FramesOk(first) && FramesOk(queue) && n <= |queue|
    ensures FramesOk(first + Reversed(queue[n..]) + Wrapped(fs))
  {
    ReversedOk(queue[n..]);
    StreamFramesOk(fs);
  }

  lemma {:induction false} AllPresent(resent: seq<StreamFrame>, firsts: seq<StreamFrame>)
    requires AllNew(firsts) && forall i :: 0 <= i < |resent| ==> resent[i].dataLenPresent
    ensures forall f :: f in resent + firsts ==> f.dataLenPresent
  {
  }
}
