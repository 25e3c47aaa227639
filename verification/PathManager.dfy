/** Path creation by the two endpoints of a connection (path_manager.go). Path ids are 8 bits wide. */
module PathManagers {
  import opened Basics

  type PathID = x: nat | x < 0x100

  const INITIAL_PATH: PathID := 0

  datatype Addr = Addr(four: bool, text: string)

  datatype Path = Path(local: Addr, remote: Addr)

  /** One endpoint. made counts the paths it created itself. */
  datatype Endpoint = Endpoint(client: bool, next: PathID, paths: map<PathID, Path>, made: nat)

  function First(client: bool): PathID {
    if client then 1 else 2
  }

  /** Ids that an endpoint can give out before they wrap. */
  function Limit(client: bool): nat {
    if client then 128 else 127
  }

  function NewEndpoint(client: bool, initial: Path): Endpoint {
    Endpoint(client, First(client), map[INITIAL_PATH := initial], 0)
  }

  predicate Exists(e: Endpoint, p: Path) {
    exists id :: id in e.paths && e.paths[id] == p
  }

  function Add(e: Endpoint, p: Path): Endpoint {
    e.(paths := e.paths[e.next := p], next := (e.next + 2) % 0x100, made := e.made + 1)
  }

  /** createPath */
  function Create(e: Endpoint, p: Path): Endpoint {
    if Exists(e, p) then e else Add(e, p)
  }

  datatype Refusal = AlreadyExists | WrongParity

  datatype Accepted = Accepted(e: Endpoint) | Refused(why: Refusal)

  /** createPathFromRemote */
  function Accept(e: Endpoint, id: PathID, p: Path): Accepted {
    if id in e.paths then Refused(AlreadyExists)
    else if e.client && id % 2 != 0 then Refused(WrongParity)
    else if !e.client && id % 2 == 0 then Refused(WrongParity)
    else Accepted(e.(paths := e.paths[id := p]))
  }

  // ----- one endpoint -----

  /** The endpoint created the path itself. */
  predicate Local(e: Endpoint, id: PathID) {
    id % 2 == First(e.client) % 2 && First(e.client) <= id < First(e.client) + 2 * e.made
  }

  /** Paths with ids of the endpoint's own kind are those it created, with distinct addresses. */
  ghost predicate Valid(e: Endpoint) {
    && e.made <= Limit(e.client) && e.next == (First(e.client) + 2 * e.made) % 0x100
    && INITIAL_PATH in e.paths
    && (forall id :: id in e.paths && id != INITIAL_PATH && id % 2 == First(e.client) % 2 ==> Local(e, id))
    && (forall id :: Local(e, id) ==> id in e.paths)
    && forall i, j :: Local(e, i) && Local(e, j) && i != j ==> e.paths[i] != e.paths[j]
  }

  /** The endpoint keeps all its paths. */
  ghost predicate Keeps(e: Endpoint, e': Endpoint) {
    forall id :: id in e.paths ==> id in e'.paths && e'.paths[id] == e.paths[id]
  }

  /** A new path takes the place of another one exactly when the ids have wrapped. */
  lemma {:induction false} OverwritesExactly(e: Endpoint)
    requires Valid(e)
    ensures e.next in e.paths <==> e.made == Limit(e.client)
  {
    if e.made < Limit(e.client) {
      assert e.next == First(e.client) + 2 * e.made;
      assert !Local(e, e.next);
    } else if e.client {
      assert e.next == 1 && Local(e, 1);
    } else {
      assert e.next == 0;
    }
  }

  lemma {:induction false} CreateKeeps(e: Endpoint, p: Path)
    requires Valid(e) && Create(e, p).made <= Limit(e.client)
    ensures Valid(Create(e, p))
    ensures Keeps(e, Create(e, p)) && exists id :: id in Create(e, p).paths && Create(e, p).paths[id] == p
    ensures forall id :: Local(e, id) ==> Local(Create(e, p), id)
    ensures forall id :: id in Create(e, p).paths && id !in e.paths ==> Local(Create(e, p), id)
  {
    OverwritesExactly(e);
    if !Exists(e, p) {
      var e' := Add(e, p);
      assert e.next == First(e.client) + 2 * e.made;
      forall id: PathID ensures Local(e', id) <==> Local(e, id) || id == e.next {
      }
      assert e'.paths[e.next] == p;
    }
  }

  /** A path of the peer does not disturb the endpoint's own paths. */
  lemma {:induction false} AcceptKeeps(e: Endpoint, id: PathID, p: Path)
    requires Valid(e)
    ensures match Accept(e, id, p)
            case Accepted(e') => Valid(e') && id !in e.paths && id % 2 != First(e.client) % 2 && e' == e.(paths := e.paths[id := p])
            case Refused(why) => if why == AlreadyExists then id in e.paths else id !in e.paths && id % 2 == First(e.client) % 2
  {
  }

  // ----- creating all paths -----

  function CreateAll(e: Endpoint, ps: seq<Path>): Endpoint
    decreases |ps|
  {
    if ps == [] then e else CreateAll(Create(e, ps[0]), ps[1..])
  }

  lemma {:induction false} CreateAllCounts(e: Endpoint, ps: seq<Path>)
    ensures CreateAll(e, ps).made >= e.made && CreateAll(e, ps).client == e.client
    decreases |ps|
  {
    if ps != [] {
      CreateAllCounts(Create(e, ps[0]), ps[1..]);
    }
  }

  lemma {:induction false} CreateAllConcat(e: Endpoint, ps: seq<Path>, qs: seq<Path>)
    ensures CreateAll(e, ps + qs) == CreateAll(CreateAll(e, ps), qs)
    decreases |ps|
  {
    if ps == [] {
      assert ps + qs == qs;
    } else {
      CreateAllConcat(Create(e, ps[0]), ps[1..], qs);
      assert (ps + qs)[0] == ps[0] && (ps + qs)[1..] == ps[1..] + qs;
    }
  }

  /** Unless ids wrap, every wanted path exists afterwards, and nothing that existed is lost. */
  lemma {:induction false} CreateAllCompletes(e: Endpoint, ps: seq<Path>)
    requires Valid(e) && CreateAll(e, ps).made <= Limit(e.client)
    ensures var e' := CreateAll(e, ps);
            && Valid(e')
            && (forall i :: 0 <= i < |ps| ==> exists id :: id in e'.paths && e'.paths[id] == ps[i])
            && Keeps(e, e')
    decreases |ps|
  {
    if ps != [] {
      var e1, e' := Create(e, ps[0]), CreateAll(e, ps);
      CreateAllCounts(e1, ps[1..]);
      CreateKeeps(e, ps[0]);
      CreateAllCompletes(e1, ps[1..]);
      forall i | 0 <= i < |ps| ensures exists id :: id in e'.paths && e'.paths[id] == ps[i] {
        if i > 0 {
          assert ps[i] == ps[1..][i - 1];
        } else {
          var id :| id in e1.paths && e1.paths[id] == ps[0];
          assert e'.paths[id] == ps[0];
        }
      }
    }
  }

  /** Whether the ping on a new path could be sent. */
  datatype Outcome = Done | PingFailed

  /** Creates the paths until a ping on a new one fails. */
  function CreateUntil(e: Endpoint, ps: seq<Path>, pingOk: PathID -> bool): (Endpoint, Outcome)
    decreases |ps|
  {
    if ps == [] then (e, Done)
    else if Exists(e, ps[0]) || pingOk(e.next) then CreateUntil(Create(e, ps[0]), ps[1..], pingOk)
    else (Create(e, ps[0]), PingFailed)
  }

  /** What is created until a ping fails: everything if none does; else the paths up to the one whose ping failed. */
  lemma {:induction false} CreateUntilIs(e: Endpoint, ps: seq<Path>, pingOk: PathID -> bool) returns (n: nat)
    ensures var (e', r) := CreateUntil(e, ps, pingOk);
            && n <= |ps| && e' == CreateAll(e, ps[..n]) && (r == Done ==> n == |ps|)
            && (r == PingFailed ==> n > 0 && var was := CreateAll(e, ps[..n - 1]); !Exists(was, ps[n - 1]) && !pingOk(was.next))
    decreases |ps|
  {
    if ps == [] {
      n := 0;
    } else if Exists(e, ps[0]) || pingOk(e.next) {
      var m := CreateUntilIs(Create(e, ps[0]), ps[1..], pingOk);
      n := m + 1;
      assert ps[..n][0] == ps[0] && ps[..n][1..] == ps[1..][..m];
      if m > 0 {
        assert ps[..m][0] == ps[0] && ps[..m][1..] == ps[1..][..m - 1] && ps[1..][m - 1] == ps[m];
      }
    } else {
      n := 1;
      assert ps[..1] == [ps[0]] && ps[..1][1..] == [] && ps[..0] == [];
    }
  }

  /** No ping fails, no creation does. */
  lemma {:induction false} PingsSucceed(e: Endpoint, ps: seq<Path>, pingOk: PathID -> bool)
    requires forall id :: pingOk(id)
    ensures CreateUntil(e, ps, pingOk) == (CreateAll(e, ps), Done)
    decreases |ps|
  {
    if ps != [] {
      PingsSucceed(Create(e, ps[0]), ps[1..], pingOk);
    }
  }

  lemma {:induction false} CreateUntilConcat(e: Endpoint, ps: seq<Path>, qs: seq<Path>, pingOk: PathID -> bool)
    ensures var (e1, r) := CreateUntil(e, ps, pingOk);
            CreateUntil(e, ps + qs, pingOk) == if r == Done then CreateUntil(e1, qs, pingOk) else (e1, r)
    decreases |ps|
  {
    if ps == [] {
      assert ps + qs == qs;
    } else {
      assert (ps + qs)[0] == ps[0] && (ps + qs)[1..] == ps[1..] + qs;
      CreateUntilConcat(Create(e, ps[0]), ps[1..], qs, pingOk);
    }
  }

  /** The paths from a local address to remote ones. */
  function Row(local: Addr, remotes: seq<Addr>): seq<Path> {
    if remotes == [] then []
    else
      var n := |remotes| - 1;
      Row(local, remotes[..n]) + [Path(local, remotes[n])]
  }

  /** All pairs of a local and a remote address of the same IP version. */
  function Wanted(locals: seq<Addr>, remotes4: seq<Addr>, remotes6: seq<Addr>): seq<Path> {
    if locals == [] then []
    else
      var n := |locals| - 1;
      Wanted(locals[..n], remotes4, remotes6) + Row(locals[n], if locals[n].four then remotes4 else remotes6)
  }

  lemma {:induction false} RowHas(local: Addr, remotes: seq<Addr>, r: Addr)
    requires r in remotes
    ensures Path(local, r) in Row(local, remotes)
    decreases |remotes|
  {
    var n := |remotes| - 1;
    if r != remotes[n] {
      RowHas(local, remotes[..n], r);
    }
  }

  lemma {:induction false} WantedHas(locals: seq<Addr>, remotes4: seq<Addr>, remotes6: seq<Addr>, l: Addr, r: Addr)
    requires l in locals && r in if l.four then remotes4 else remotes6
    ensures Path(l, r) in Wanted(locals, remotes4, remotes6)
    decreases |locals|
  {
    var n := |locals| - 1;
    if l == locals[n] {
      RowHas(l, if l.four then remotes4 else remotes6, r);
    } else {
      WantedHas(locals[..n], remotes4, remotes6, l, r);
    }
  }

  lemma {:induction false} RowOnly(local: Addr, remotes: seq<Addr>, p: Path)
    requires p in Row(local, remotes)
    ensures p.local == local && p.remote in remotes
    decreases |remotes|
  {
    var n := |remotes| - 1;
    if p != Path(local, remotes[n]) {
      RowOnly(local, remotes[..n], p);
    }
  }

  /** Only pairs of addresses of one IP version are wanted. */
  lemma {:induction false} WantedOnly(locals: seq<Addr>, remotes4: seq<Addr>, remotes6: seq<Addr>, p: Path)
    requires p in Wanted(locals, remotes4, remotes6)
    ensures p.local in locals && p.remote in if p.local.four then remotes4 else remotes6
    decreases |locals|
  {
    var n := |locals| - 1;
    var row := Row(locals[n], if locals[n].four then remotes4 else remotes6);
    if p in row {
      RowOnly(locals[n], if locals[n].four then remotes4 else remotes6, p);
    } else {
      WantedOnly(locals[..n], remotes4, remotes6, p);
    }
  }

  /** Nothing is created but what is wanted. */
  lemma {:induction false} CreatesOnlyWanted(e: Endpoint, ps: seq<Path>, id: PathID)
    requires id in CreateAll(e, ps).paths
    ensures (id in e.paths && CreateAll(e, ps).paths[id] == e.paths[id]) || CreateAll(e, ps).paths[id] in ps
    decreases |ps|
  {
    if ps != [] {
      CreatesOnlyWanted(Create(e, ps[0]), ps[1..], id);
      assert forall p :: p in ps[1..] ==> p in ps;
    }
  }

  /** The endpoint has a path for every pair of addresses of the same IP version. */
  ghost predicate Connected(e: Endpoint, locals: seq<Addr>, remotes4: seq<Addr>, remotes6: seq<Addr>) {
    forall l, r :: l in locals && (r in if l.four then remotes4 else remotes6) ==> exists id :: id in e.paths && e.paths[id] == Path(l, r)
  }

  lemma {:induction false} WantedConnects(e: Endpoint, locals: seq<Addr>, remotes4: seq<Addr>, remotes6: seq<Addr>)
    requires Valid(e) && CreateAll(e, Wanted(locals, remotes4, remotes6)).made <= Limit(e.client)
    ensures Connected(CreateAll(e, Wanted(locals, remotes4, remotes6)), locals, remotes4, remotes6)
  {
    var ps := Wanted(locals, remotes4, remotes6);
    CreateAllCompletes(e, ps);
    forall l, r | l in locals && (r in if l.four then remotes4 else remotes6)
      ensures exists id :: id in CreateAll(e, ps).paths && CreateAll(e, ps).paths[id] == Path(l, r)
    {
      WantedHas(locals, remotes4, remotes6, l, r);
      var i :| 0 <= i < |ps| && ps[i] == Path(l, r);
    }
  }

  // ----- both endpoints -----

  datatype World = World(client: Endpoint, server: Endpoint)

  datatype Event =
    | Creates(atClient: bool, p: Path)
    | Arrives(atClient: bool, id: PathID, p: Path)

  function At(w: World, client: bool): Endpoint {
    if client then w.client else w.server
  }

  function With(w: World, client: bool, e: Endpoint): World {
    if client then w.(client := e) else w.(server := e)
  }

  /** Ids have not wrapped; packets arrive on paths of the sender. */
  predicate Enabled(w: World, e: Event) {
    match e
    case Creates(c, _) => At(w, c).made < Limit(c)
    case Arrives(c, id, _) => id in At(w, !c).paths
  }

  /** A packet on an unknown path creates it. */
  function After(w: World, e: Event): World {
    match e
    case Creates(c, p) => With(w, c, Create(At(w, c), p))
    case Arrives(c, id, p) =>
      if id in At(w, c).paths then w
      else
        match Accept(At(w, c), id, p)
        case Accepted(e') => With(w, c, e')
        case Refused(_) => w
  }

  ghost predicate Run(ws: seq<World>, es: seq<Event>, initial: Path, initial': Path) {
    && |ws| == |es| + 1 && ws[0] == World(NewEndpoint(true, initial), NewEndpoint(false, initial'))
    && forall i :: 0 <= i < |es| ==> Enabled(ws[i], es[i]) && ws[i + 1] == After(ws[i], es[i])
  }

  /** Every path but the first was created by one of the two; its id tells by which. */
  ghost predicate Known(w: World) {
    && (forall id :: id in w.client.paths && id != INITIAL_PATH ==> if id % 2 == 1 then Local(w.client, id) else Local(w.server, id))
    && (forall id :: id in w.server.paths && id != INITIAL_PATH ==> if id % 2 == 1 then Local(w.client, id) else Local(w.server, id))
  }

  ghost predicate Ok(w: World) {
    w.client.client && !w.server.client && Valid(w.client) && Valid(w.server) && Known(w)
  }

  lemma {:induction false} ClientCreates(w: World, p: Path)
    requires Ok(w) && w.client.made < Limit(true)
    ensures Ok(w.(client := Create(w.client, p))) && Keeps(w.client, Create(w.client, p))
  {
    CreateKeeps(w.client, p);
  }

  lemma {:induction false} ServerCreates(w: World, p: Path)
    requires Ok(w) && w.server.made < Limit(false)
    ensures Ok(w.(server := Create(w.server, p))) && Keeps(w.server, Create(w.server, p))
  {
    CreateKeeps(w.server, p);
  }

  /** A packet from the peer on an unknown path is never refused. */
  lemma {:induction false} ArrivesKeepsOk(w: World, e: Event)
    requires Ok(w) && e.Arrives? && Enabled(w, e)
    ensures Ok(After(w, e)) && Keeps(w.client, After(w, e).client) && Keeps(w.server, After(w, e).server)
    ensures e.id in At(After(w, e), e.atClient).paths
  {
    AcceptKeeps(At(w, e.atClient), e.id, e.p);
  }

  lemma {:induction false} StepKeepsOk(w: World, e: Event)
    requires Ok(w) && Enabled(w, e)
    ensures Ok(After(w, e)) && Keeps(w.client, After(w, e).client) && Keeps(w.server, After(w, e).server)
  {
    if e.Arrives? {
      ArrivesKeepsOk(w, e);
    } else if e.atClient {
      ClientCreates(w, e.p);
    } else {
      ServerCreates(w, e.p);
    }
  }

  /** In every run, until ids wrap: ids tell who created a path, and the paths that an endpoint created
  have distinct addresses. */
  lemma {:induction false} RunKeepsOk(ws: seq<World>, es: seq<Event>, initial: Path, initial': Path)
    requires Run(ws, es, initial, initial')
    ensures Ok(ws[|es|])
    decreases |es|
  {
    if es == [] {
      NewOk(initial, initial');
    } else {
      var n := |es| - 1;
      RunKeepsOk(ws[..n + 1], es[..n], initial, initial');
      StepKeepsOk(ws[n], es[n]);
    }
  }

  lemma {:induction false} NewOk(initial: Path, initial': Path)
    ensures Ok(World(NewEndpoint(true, initial), NewEndpoint(false, initial')))
  {
  }

  /** In every run, until ids wrap, no path is overwritten. */
  lemma {:induction false} RunKeepsPaths(ws: seq<World>, es: seq<Event>, initial: Path, initial': Path, i: nat)
    requires Run(ws, es, initial, initial') && i <= |es|
    ensures Keeps(ws[i].client, ws[|es|].client) && Keeps(ws[i].server, ws[|es|].server)
    decreases |es|
  {
    if i < |es| {
      var n := |es| - 1;
      RunKeepsPaths(ws[..n + 1], es[..n], initial, initial', i);
      RunKeepsOk(ws[..n + 1], es[..n], initial, initial');
      StepKeepsOk(ws[n], es[n]);
    }
  }

  // ----- the path manager -----

  class PathManager {
    const client: bool
    const createPaths: bool
    var nxtPathID: PathID
    var remoteAddrs4: seq<Addr>
    var remoteAddrs6: seq<Addr>
    var paths: map<PathID, Path>
    ghost var made: nat

    ghost function State(): Endpoint
      reads this
    {
      Endpoint(client, nxtPathID, paths, made)
    }

    constructor (client: bool, createPaths: bool, initial: Path)
      ensures State() == NewEndpoint(client, initial) && Valid(State())
      ensures this.createPaths == createPaths
      ensures remoteAddrs4 == (if initial.remote.four then [initial.remote] else [])
      ensures remoteAddrs6 == (if initial.remote.four then [] else [initial.remote])
    {
      this.client, this.createPaths, made := client, createPaths, 0;
      nxtPathID := if client then 1 else 2;
      paths := map[INITIAL_PATH := initial];
      remoteAddrs4, remoteAddrs6 := [], [];
      if initial.remote.four {
        remoteAddrs4 := [initial.remote];
      } else {
        remoteAddrs6 := [initial.remote];
      }
    }

    /** The paths are walked in any order. A new path is pinged; pingOk says on which paths that succeeds. */
    method CreatePath(local: Addr, remote: Addr, pingOk: PathID -> bool) returns (r: Outcome)
      modifies this`paths, this`nxtPathID, this`made
      ensures State() == Create(old(State()), Path(local, remote))
      ensures r == if Exists(old(State()), Path(local, remote)) || pingOk(old(nxtPathID)) then Done else PingFailed
    {
      var rest := paths.Keys;
      while rest != {}
        invariant rest <= paths.Keys && forall id :: id in paths && id !in rest ==> paths[id] != Path(local, remote)
        decreases |rest|
      {
        var id :| id in rest;
        if paths[id].local == local && paths[id].remote == remote {
          return Done;
        }
        rest := rest - {id};
      }
      var id := nxtPathID;
      paths := paths[id := Path(local, remote)];
      nxtPathID := (id as int + 2) % 0x100;
      made := made + 1;
      return if pingOk(id) then Done else PingFailed;
    }

    /** Stops at the first ping that fails. */
    method CreateRow(local: Addr, remotes: seq<Addr>, pingOk: PathID -> bool) returns (r: Outcome)
      modifies this`paths, this`nxtPathID, this`made
      ensures (State(), r) == CreateUntil(old(State()), Row(local, remotes), pingOk)
    {
      r := Done;
      var j := 0;
      while j < |remotes| && r == Done
        invariant 0 <= j <= |remotes|
        invariant (State(), r) == CreateUntil(old(State()), Row(local, remotes[..j]), pingOk)
      {
        RowStep(old(State()), local, remotes, j, pingOk);
        r := CreatePath(local, remotes[j], pingOk);
        j := j + 1;
      }
      RowRest(old(State()), local, remotes, j, pingOk);
    }

    /** Creates the paths that are missing. Unless a ping fails or ids wrap, all address pairs are connected. */
    method CreatePaths(locals: seq<Addr>, pingOk: PathID -> bool) returns (r: Outcome)
      modifies this`paths, this`nxtPathID, this`made
      ensures (State(), r) == CreateUntil(old(State()), Wanted(locals, remoteAddrs4, remoteAddrs6), pingOk)
      ensures (forall id :: pingOk(id)) ==> r == Done
      ensures r == Done && Valid(old(State())) && made <= Limit(client) ==> Connected(State(), locals, remoteAddrs4, remoteAddrs6)
    {
      r := Done;
      ghost var e := State();
      var i := 0;
      while i < |locals| && r == Done
        invariant 0 <= i <= |locals|
        invariant (State(), r) == CreateUntil(e, Wanted(locals[..i], remoteAddrs4, remoteAddrs6), pingOk)
      {
        var remotes := if locals[i].four then remoteAddrs4 else remoteAddrs6;
        WantedStep(locals, remoteAddrs4, remoteAddrs6, i);
        CreateUntilConcat(e, Wanted(locals[..i], remoteAddrs4, remoteAddrs6), Row(locals[i], remotes), pingOk);
        r := CreateRow(locals[i], remotes, pingOk);
        i := i + 1;
      }
      WantedRest(e, locals, remoteAddrs4, remoteAddrs6, i, pingOk);
      CreatedAll(e, locals, remoteAddrs4, remoteAddrs6, pingOk);
    }

    /** The peer has another address. */
    method HandleAddAddressFrame(version: nat, addr: Addr, locals: seq<Addr>, pingOk: PathID -> bool) returns (known: bool, r: Outcome)
      modifies this
      ensures known <==> version == 4 || version == 6
      ensures remoteAddrs4 == old(remoteAddrs4) + if version == 4 then [addr] else []
      ensures remoteAddrs6 == old(remoteAddrs6) + if version == 6 then [addr] else []
      ensures !known || !createPaths ==> State() == old(State())
      ensures known && createPaths ==> (State(), r) == CreateUntil(old(State()), Wanted(locals, remoteAddrs4, remoteAddrs6), pingOk)
      ensures known && createPaths && r == Done && Valid(old(State())) && made <= Limit(client) ==>
                Connected(State(), locals, remoteAddrs4, remoteAddrs6)
    {
      known, r := true, Done;
      if version == 4 {
        remoteAddrs4 := remoteAddrs4 + [addr];
      } else if version == 6 {
        remoteAddrs6 := remoteAddrs6 + [addr];
      } else {
        known := false;
      }
      if known && createPaths {
        r := CreatePaths(locals, pingOk);
      }
    }

    method CreatePathFromRemote(id: PathID, local: Addr, remote: Addr) returns (r: Option<Refusal>)
      modifies this
      ensures match Accept(old(State()), id, Path(local, remote))
              case Accepted(e) => State() == e && r == None
              case Refused(why) => State() == old(State()) && r == Some(why)
      ensures remoteAddrs4 == old(remoteAddrs4) && remoteAddrs6 == old(remoteAddrs6)
    {
      if id in paths {
        return Some(AlreadyExists);
      }
      if client && id % 2 != 0 {
        return Some(WrongParity);
      }
      if !client && id % 2 == 0 {
        return Some(WrongParity);
      }
      paths := paths[id := Path(local, remote)];
      return None;
    }
  }

  lemma {:induction false} RowStep(e: Endpoint, local: Addr, remotes: seq<Addr>, j: nat, pingOk: PathID -> bool)
    requires j < |remotes|
    ensures CreateUntil(e, Row(local, remotes[..j + 1]), pingOk) ==
            var (e1, r) := CreateUntil(e, Row(local, remotes[..j]), pingOk);
            if r == Done then CreateUntil(e1, [Path(local, remotes[j])], pingOk) else (e1, r)
  {
    assert remotes[..j + 1][..j] == remotes[..j];
    CreateUntilConcat(e, Row(local, remotes[..j]), [Path(local, remotes[j])], pingOk);
  }

  /** Behind a ping that failed, the rest of the row changes nothing. */
  lemma {:induction false} RowRest(e: Endpoint, local: Addr, remotes: seq<Addr>, j: nat, pingOk: PathID -> bool)
    requires j <= |remotes| && (j == |remotes| || CreateUntil(e, Row(local, remotes[..j]), pingOk).1 == PingFailed)
    ensures CreateUntil(e, Row(local, remotes), pingOk) == CreateUntil(e, Row(local, remotes[..j]), pingOk)
    decreases |remotes|
  {
    if j == |remotes| {
      assert remotes[..j] == remotes;
    } else {
      var n := |remotes| - 1;
      assert remotes[..n][..j] == remotes[..j];
      RowRest(e, local, remotes[..n], j, pingOk);
      CreateUntilConcat(e, Row(local, remotes[..n]), [Path(local, remotes[n])], pingOk);
    }
  }

  lemma {:induction false} WantedStep(locals: seq<Addr>, remotes4: seq<Addr>, remotes6: seq<Addr>, i: nat)
    requires i < |locals|
    ensures Wanted(locals[..i + 1], remotes4, remotes6)
         == Wanted(locals[..i], remotes4, remotes6) + Row(locals[i], if locals[i].four then remotes4 else remotes6)
  {
    assert locals[..i + 1][..i] == locals[..i];
  }

  lemma {:induction false} WantedRest(e: Endpoint, locals: seq<Addr>, remotes4: seq<Addr>, remotes6: seq<Addr>, i: nat, pingOk: PathID -> bool)
    requires i <= |locals| && (i == |locals| || CreateUntil(e, Wanted(locals[..i], remotes4, remotes6), pingOk).1 == PingFailed)
    ensures CreateUntil(e, Wanted(locals, remotes4, remotes6), pingOk) == CreateUntil(e, Wanted(locals[..i], remotes4, remotes6), pingOk)
  {
    if i == |locals| {
      assert locals[..i] == locals;
    } else {
      WantedPrefix(locals, remotes4, remotes6, i);
      StopsThere(e, Wanted(locals[..i], remotes4, remotes6), Wanted(locals, remotes4, remotes6), pingOk);
    }
  }

  lemma {:induction false} WantedPrefix(locals: seq<Addr>, remotes4: seq<Addr>, remotes6: seq<Addr>, i: nat)
    requires i <= |locals|
    ensures Wanted(locals[..i], remotes4, remotes6) <= Wanted(locals, remotes4, remotes6)
    decreases |locals|
  {
    if i == |locals| {
      assert locals[..i] == locals;
    } else {
      var n := |locals| - 1;
      WantedPrefix(locals[..n], remotes4, remotes6, i);
      assert locals[..n][..i] == locals[..i];
    }
  }

  /** Behind a ping that failed, nothing more is created. */
  lemma {:induction false} StopsThere(e: Endpoint, ps: seq<Path>, all: seq<Path>, pingOk: PathID -> bool)
    requires ps <= all && CreateUntil(e, ps, pingOk).1 == PingFailed
    ensures CreateUntil(e, all, pingOk) == CreateUntil(e, ps, pingOk)
  {
    var rest := all[|ps|..];
    assert all == ps + rest;
    CreateUntilConcat(e, ps, rest, pingOk);
  }

  /** Where every ping succeeds, every pair of addresses has its path. */
  lemma {:induction false} CreatedAll(e: Endpoint, locals: seq<Addr>, remotes4: seq<Addr>, remotes6: seq<Addr>, pingOk: PathID -> bool)
    ensures var (e', r) := CreateUntil(e, Wanted(locals, remotes4, remotes6), pingOk);
            && ((forall id :: pingOk(id)) ==> r == Done)
            && (r == Done && Valid(e) && e'.made <= Limit(e.client) ==> Connected(e', locals, remotes4, remotes6))
  {
    var ps := Wanted(locals, remotes4, remotes6);
    var n := CreateUntilIs(e, ps, pingOk);
    if forall id :: pingOk(id) {
      PingsSucceed(e, ps, pingOk);
    }
    var (e', r) := CreateUntil(e, ps, pingOk);
    if r == Done && Valid(e) && e'.made <= Limit(e.client) {
      assert ps[..n] == ps;
      WantedConnects(e, locals, remotes4, remotes6);
    }
  }
}
