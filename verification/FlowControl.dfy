/** Send-side flow control (internal/flowcontrol/flow_controller.go and flow_control_manager.go). */
module FlowControl {

  function Min(a: nat, b: nat): nat {
    if a < b then a else b
  }

  function Max(a: nat, b: nat): nat {
    if a < b then b else a
  }

  /** One controller. The window is the negotiated one until the first update arrives. */
  datatype FlowController = FlowController(
    contributes: bool,
    negotiated: nat,
    bytesSent: nat,
    sendWindow: nat
  ) {
    function Window(): nat {
      if sendWindow == 0 then negotiated else sendWindow
    }

    function SendWindowSize(): nat {
      if bytesSent > Window() then 0 else Window() - bytesSent
    }

    function AddBytesSent(n: nat): FlowController {
      this.(bytesSent := bytesSent + n)
    }

    function UpdateSendWindow(newOffset: nat): FlowController {
      if newOffset > sendWindow then this.(sendWindow := newOffset) else this
    }
  }

  /** An update can shrink the window, exactly when it is the first one and lies below the
  negotiated window: the stored value it is compared with is still zero. */
  lemma WindowShrinksExactly(c: FlowController, newOffset: nat)
    ensures c.UpdateSendWindow(newOffset).Window() < c.Window()
            <==> c.sendWindow == 0 && 0 < newOffset < c.negotiated
  {
  }

  /** Once one update has been applied the window only grows. */
  lemma {:induction false} WindowGrowsAfterUpdate(c: FlowController, updates: seq<nat>)
    requires c.sendWindow > 0
    ensures ApplyUpdates(c, updates).Window() >= c.Window()
    decreases |updates|
  {
    if updates != [] {
      WindowGrowsAfterUpdate(c.UpdateSendWindow(updates[0]), updates[1..]);
    }
  }

  function ApplyUpdates(c: FlowController, updates: seq<nat>): FlowController
    decreases |updates|
  {
    if updates == [] then c else ApplyUpdates(c.UpdateSendWindow(updates[0]), updates[1..])
  }

  /** The largest of some offsets. */
  function Highest(updates: seq<nat>): nat {
    if updates == [] then 0 else Max(updates[0], Highest(updates[1..]))
  }

  /** The window is the largest offset received, in whatever order, or the negotiated one while there is none. */
  lemma {:induction false} WindowIsHighest(c: FlowController, updates: seq<nat>)
    ensures ApplyUpdates(c, updates) == c.(sendWindow := Max(c.sendWindow, Highest(updates)))
    ensures c.sendWindow == 0 ==> ApplyUpdates(c, updates).Window() == if Highest(updates) == 0 then c.negotiated else Highest(updates)
    decreases |updates|
  {
    if updates != [] {
      WindowIsHighest(c.UpdateSendWindow(updates[0]), updates[1..]);
    }
  }

  /** All controllers, the window negotiated for streams, and the largest window ever in force, per stream
  and for the connection. */
  datatype FlowState = FlowState(
    streams: map<nat, FlowController>,
    conn: FlowController,
    negotiated: nat,
    advertised: map<nat, nat>,
    connAdvertised: nat
  ) {
    /** Nobody has sent past the largest window advertised to it. */
    ghost predicate Ok() {
      && streams.Keys == advertised.Keys
      && (forall id :: id in streams ==> WithinWindow(streams[id], advertised[id]) && streams[id].negotiated == negotiated)
      && WithinWindow(conn, connAdvertised)
    }

    /** What a stream may still send: its own window, and the connection's if it counts there. */
    function SendWindowSize(id: nat): (n: nat)
      ensures id in streams ==> n <= streams[id].SendWindowSize()
      ensures id in streams && streams[id].contributes ==> n <= conn.SendWindowSize()
    {
      if id !in streams then 0
      else if streams[id].contributes then Min(streams[id].SendWindowSize(), conn.SendWindowSize())
      else streams[id].SendWindowSize()
    }

    function AddBytesSent(id: nat, n: nat): FlowState {
      if id !in streams then this
      else
        this.(streams := streams[id := streams[id].AddBytesSent(n)],
              conn := if streams[id].contributes then conn.AddBytesSent(n) else conn)
    }

    /** Stream 0 stands for the connection, and is known from the start. */
    function NewStream(id: nat, contributes: bool): FlowState {
      if id == 0 || id in streams then this
      else
        this.(streams := streams[id := FlowController(contributes, negotiated, 0, 0)], advertised := advertised[id := negotiated])
    }

    function RemoveStream(id: nat): FlowState {
      this.(streams := streams - {id}, advertised := advertised - {id})
    }

    /** A WINDOW_UPDATE; stream 0 stands for the connection, and unknown streams are refused. */
    function UpdateWindow(id: nat, offset: nat): FlowState {
      if id == 0 then this.(conn := conn.UpdateSendWindow(offset), connAdvertised := Max(connAdvertised, offset))
      else if id !in streams || id !in advertised then this
      else
        this.(streams := streams[id := streams[id].UpdateSendWindow(offset)],
              advertised := advertised[id := Max(advertised[id], offset)])
    }

    /** The connection parameters change; every controller reads them whenever it has had no update. */
    function Negotiate(forStreams: nat, forConn: nat): FlowState {
      this.(negotiated := forStreams,
            streams := map id | id in streams :: streams[id].(negotiated := forStreams),
            advertised := map id | id in advertised :: Max(advertised[id], forStreams),
            conn := conn.(negotiated := forConn),
            connAdvertised := Max(connAdvertised, forConn))
    }
  }

  predicate WithinWindow(c: FlowController, largest: nat) {
    c.bytesSent <= largest && c.Window() <= largest
  }

  function NewFlow(forStreams: nat, forConn: nat): FlowState {
    FlowState(map[], FlowController(false, forConn, 0, 0), forStreams, map[], forConn)
  }

  /** A stream may send exactly the bytes that fit its window and, if it counts there, that of the connection. */
  lemma {:induction false} SendWindowExactly(f: FlowState, id: nat, n: nat)
    requires n > 0
    ensures n <= f.SendWindowSize(id) <==>
            && id in f.streams && f.streams[id].bytesSent + n <= f.streams[id].Window()
            && (f.streams[id].contributes ==> f.conn.bytesSent + n <= f.conn.Window())
  {
  }

  /** Sending what the send window allows stays within the largest windows. */
  lemma {:induction false} SendKeepsOk(f: FlowState, id: nat, n: nat)
    requires f.Ok() && (n == 0 || n <= f.SendWindowSize(id))
    ensures f.AddBytesSent(id, n).Ok()
  {
  }

  /** Opening and removing streams keeps the books. */
  lemma {:induction false} StreamsKeepOk(f: FlowState, id: nat, contributes: bool)
    requires f.Ok()
    ensures f.NewStream(id, contributes).Ok() && f.RemoveStream(id).Ok()
  {
  }

  /** So do window updates. */
  lemma {:induction false} UpdateKeepsOk(f: FlowState, id: nat, offset: nat)
    requires f.Ok()
    ensures f.UpdateWindow(id, offset).Ok()
  {
  }

  /** So does a change of the parameters. */
  lemma {:induction false} NegotiateKeepsOk(f: FlowState, forStreams: nat, forConn: nat)
    requires f.Ok()
    ensures f.Negotiate(forStreams, forConn).Ok()
  {
  }

  class FlowControlManager {
    var streams: map<nat, FlowController>
    var conn: FlowController
    // the window that the connection parameters give for streams
    var negotiated: nat

    ghost var advertised: map<nat, nat>
    ghost var connAdvertised: nat

    ghost function State(): FlowState
      reads this
    {
      FlowState(streams, conn, negotiated, advertised, connAdvertised)
    }

    constructor (forStreams: nat, forConn: nat)
      ensures State() == NewFlow(forStreams, forConn) && State().Ok()
    {
      streams, advertised, negotiated := map[], map[], forStreams;
      conn, connAdvertised := FlowController(false, forConn, 0, 0), forConn;
    }

    method NewStream(id: nat, contributes: bool)
      modifies this`streams, this`advertised
      ensures State() == old(State()).NewStream(id, contributes)
    {
      if id != 0 && id !in streams {
        streams := streams[id := FlowController(contributes, negotiated, 0, 0)];
        advertised := advertised[id := negotiated];
      }
    }

    method RemoveStream(id: nat)
      modifies this`streams, this`advertised
      ensures State() == old(State()).RemoveStream(id)
    {
      streams, advertised := streams - {id}, advertised - {id};
    }

    method SendWindowSize(id: nat) returns (n: nat)
      ensures n == State().SendWindowSize(id)
    {
      if id !in streams {
        return 0;
      }
      n := streams[id].SendWindowSize();
      if streams[id].contributes {
        n := Min(n, conn.SendWindowSize());
      }
    }

    method AddBytesSent(id: nat, n: nat)
      modifies this`streams, this`conn
      ensures State() == old(State()).AddBytesSent(id, n)
    {
      if id in streams {
        if streams[id].contributes {
          conn := conn.AddBytesSent(n);
        }
        streams := streams[id := streams[id].AddBytesSent(n)];
      }
    }

    /** A WINDOW_UPDATE was received; stream 0 stands for the connection. */
    method UpdateWindow(id: nat, offset: nat) returns (ok: bool)
      requires State().Ok()
      modifies this`streams, this`conn, this`advertised, this`connAdvertised
      ensures ok <==> id == 0 || id in old(streams)
      ensures State() == old(State()).UpdateWindow(id, offset)
    {
      ok := true;
      if id == 0 {
        conn := conn.UpdateSendWindow(offset);
        connAdvertised := Max(connAdvertised, offset);
      } else if id in streams {
        streams := streams[id := streams[id].UpdateSendWindow(offset)];
        advertised := advertised[id := Max(advertised[id], offset)];
      } else {
        ok := false;
      }
    }

    /** The parameters of the peer arrive; every controller without an update reads them from now on. */
    method Negotiate(forStreams: nat, forConn: nat)
      modifies this
      ensures State() == old(State()).Negotiate(forStreams, forConn)
    {
      negotiated := forStreams;
      streams := map id | id in streams :: streams[id].(negotiated := forStreams);
      advertised := map id | id in advertised :: Max(advertised[id], forStreams);
      conn, connAdvertised := conn.(negotiated := forConn), Max(connAdvertised, forConn);
    }
  }
}
