/** Bookkeeping of the redundant scheduler: which packets were sent twice, and which copies were dropped
because the other one was acknowledged (scheduler.go). */
module RedundantSends {
  import opened Basics
  import opened PacketNumbers

  /** A packet across paths. */
  datatype Id = Id(path: nat, number: nat)

  /** The duplicate map and its counters. */
  datatype Book = Book(dup: map<Id, Id>, duplicated: nat, dropped: nat)

  const NEW_BOOK := Book(map[], 0, 0)

  /** Packet d is a copy of o. */
  function Duplicate(b: Book, o: Id, d: Id, dropable: bool): Book {
    b.(dup := if dropable then b.dup[o := d][d := o] else b.dup[o := d], duplicated := b.duplicated + 1)
  }

  function DuplicateAll(b: Book, o: Id, ds: seq<Id>, dropable: bool): Book
    decreases |ds|
  {
    if ds == [] then b else DuplicateAll(Duplicate(b, o, ds[0], dropable), o, ds[1..], dropable)
  }

  /** A packet is acknowledged; removed says whether its counterpart was still in the history of its path. */
  function CrossAck(b: Book, key: Id, removed: bool): Book {
    if key in b.dup then
      b.(dup := b.dup - {b.dup[key]} - {key}, dropped := b.dropped + if removed then 1 else 0)
    else b
  }

  // ----- the invariant -----

  /** origin gives the original of every duplicate ever sent. Each duplicate that was charged with a
  dropped packet is in charged. */
  datatype Account = Account(origin: map<Id, Id>, charged: set<Id>)

  /** The duplicate that a key of the map stands for. */
  function Stands(b: Book, a: Account, key: Id): Id
    requires key in b.dup
  {
    if key in a.origin then key else b.dup[key]
  }

  ghost predicate Counted(b: Book, a: Account) {
    |a.origin| == b.duplicated && |a.charged| == b.dropped && a.charged <= a.origin.Keys
  }

  /** Every key stands for a duplicate that has not been charged, and the two keys of a pair point at each other. */
  ghost predicate Paired(b: Book, a: Account) {
    && (forall k :: k in b.dup && k in a.origin ==> b.dup[k] == a.origin[k] && k !in a.charged)
    && (forall k :: k in b.dup && k !in a.origin ==>
          b.dup[k] in a.origin && a.origin[b.dup[k]] == k && b.dup[k] !in a.charged)
  }

  /** Originals are not duplicates. */
  ghost predicate Apart(a: Account) {
    forall d :: d in a.origin ==> a.origin[d] !in a.origin
  }

  ghost predicate Sound(b: Book, a: Account) {
    Counted(b, a) && Paired(b, a) && Apart(a)
  }

  lemma {:induction false} DuplicateKeeps(b: Book, a: Account, o: Id, d: Id, dropable: bool)
    requires Sound(b, a) && o !in a.origin && d !in a.origin && o != d
    requires d !in b.dup && d !in a.origin.Values
    ensures Sound(Duplicate(b, o, d, dropable), a.(origin := a.origin[d := o]))
  {
    var b', a' := Duplicate(b, o, d, dropable), a.(origin := a.origin[d := o]);
    assert a'.origin.Keys == a.origin.Keys + {d};
    ApartMore(a, o, d);
    PairedMore(b, a, o, d, dropable);
  }

  lemma {:induction false} ApartMore(a: Account, o: Id, d: Id)
    requires Apart(a) && o !in a.origin && o != d && d !in a.origin.Values
    ensures Apart(a.(origin := a.origin[d := o]))
  {
    var a' := a.(origin := a.origin[d := o]);
    forall e | e in a'.origin ensures a'.origin[e] !in a'.origin {
      if e != d {
        assert a.origin[e] in a.origin.Values;
      }
    }
  }

  lemma {:induction false} PairedMore(b: Book, a: Account, o: Id, d: Id, dropable: bool)
    requires Paired(b, a) && a.charged <= a.origin.Keys && o !in a.origin && d !in a.origin && o != d && d !in b.dup
    ensures Paired(Duplicate(b, o, d, dropable), a.(origin := a.origin[d := o]))
  {
  }

  lemma {:induction false} CrossAckKeeps(b: Book, a: Account, key: Id, removed: bool) returns (a': Account)
    requires Sound(b, a)
    ensures Sound(CrossAck(b, key, removed), a') && a'.origin == a.origin
  {
    a' := a;
    if key in b.dup && removed {
      a' := a.(charged := a.charged + {Stands(b, a, key)});
    }
  }

  /** No more packets are dropped than were duplicated. */
  lemma {:induction false} DropsAreBounded(b: Book, a: Account)
    requires Sound(b, a)
    ensures b.dropped <= b.duplicated
  {
    SubsetSize(a.charged, a.origin.Keys);
    assert |a.origin.Keys| == |a.origin|;
  }

  // ----- runs -----

  /** The books, the packet numbering of every path, and the originals sent so far. */
  datatype World = World(book: Book, numbers: map<nat, Numbering>, sent: set<Id>)

  const NEW_WORLD := World(NEW_BOOK, map[], {})

  datatype Event =
    | Open(path: nat)
    | Send(path: nat, distance: Option<uint64>)
    | Copy(o: Id, path: nat, distance: Option<uint64>, dropable: bool)
    | Ack(id: Id, removed: bool)

  /** The next packet of a path. */
  function NextId(w: World, path: nat): Id
    requires path in w.numbers
  {
    Id(path, w.numbers[path].next)
  }

  /** A path is opened once, and numbers have not run out; copies are made of originals. */
  predicate Enabled(w: World, e: Event) {
    match e
    case Open(p) => p !in w.numbers
    case Send(p, _) => p in w.numbers && w.numbers[p].next + 2 < TWO_64
    case Copy(o, p, _, _) => o in w.sent && p in w.numbers && w.numbers[p].next + 2 < TWO_64
    case Ack(_, _) => true
  }

  function After(w: World, e: Event): World
    requires Enabled(w, e)
  {
    match e
    case Open(p) => w.(numbers := w.numbers[p := NEW_NUMBERING])
    case Send(p, d) => w.(numbers := w.numbers[p := AfterPop(w.numbers[p], d)], sent := w.sent + {NextId(w, p)})
    case Copy(o, p, d, dropable) =>
      w.(numbers := w.numbers[p := AfterPop(w.numbers[p], d)], book := Duplicate(w.book, o, NextId(w, p), dropable))
    case Ack(id, removed) => w.(book := CrossAck(w.book, id, removed))
  }

  ghost predicate Run(ws: seq<World>, es: seq<Event>) {
    && |ws| == |es| + 1 && ws[0] == NEW_WORLD
    && forall i :: 0 <= i < |es| ==> Enabled(ws[i], es[i]) && ws[i + 1] == After(ws[i], es[i])
  }

  ghost predicate Used(w: World, id: Id) {
    id.path in w.numbers && id.number < w.numbers[id.path].next
  }

  /** All packets have used numbers; originals and duplicates are different packets. */
  ghost predicate Fresh(w: World, a: Account) {
    && (forall d :: d in a.origin ==> Used(w, d) && a.origin[d] in w.sent)
    && (forall o :: o in w.sent ==> Used(w, o) && o !in a.origin)
  }

  lemma {:induction false} PopAdvances(g: Numbering, distance: Option<uint64>)
    requires g.next + 2 < TWO_64
    ensures g.next < AfterPop(g, distance).next
  {
    SkipsOneAtMost(g, distance);
  }

  lemma {:induction false} CopyKeeps(w: World, a: Account, e: Event)
    requires e.Copy? && Enabled(w, e) && Sound(w.book, a) && Fresh(w, a)
    ensures var a' := a.(origin := a.origin[NextId(w, e.path) := e.o]);
            Sound(After(w, e).book, a') && Fresh(After(w, e), a')
  {
    var d := NextId(w, e.path);
    PopAdvances(w.numbers[e.path], e.distance);
    assert !Used(w, d);
    assert d !in a.origin.Values;
    DuplicateKeeps(w.book, a, e.o, d, e.dropable);
  }

  /** The original of every copy, after one more event. */
  function OriginsAfter(w: World, e: Event, origins: map<Id, Id>): map<Id, Id>
    requires Enabled(w, e)
  {
    if e.Copy? then origins[NextId(w, e.path) := e.o] else origins
  }

  /** The original of every copy made in a run. */
  ghost function Origins(ws: seq<World>, es: seq<Event>): map<Id, Id>
    requires Run(ws, es)
    decreases |es|
  {
    if es == [] then map[]
    else
      var n := |es| - 1;
      OriginsAfter(ws[n], es[n], Origins(ws[..n + 1], es[..n]))
  }

  lemma {:induction false} StepKeeps(w: World, a: Account, e: Event) returns (a': Account)
    requires Enabled(w, e) && Sound(w.book, a) && Fresh(w, a)
    ensures Sound(After(w, e).book, a') && Fresh(After(w, e), a') && a'.origin == OriginsAfter(w, e, a.origin)
  {
    a' := a;
    match e {
      case Open(p) =>
      case Send(p, d) =>
        PopAdvances(w.numbers[p], d);
        assert !Used(w, NextId(w, p));
      case Copy(o, p, d, dropable) =>
        CopyKeeps(w, a, e);
        a' := a.(origin := a.origin[NextId(w, p) := o]);
      case Ack(id, removed) =>
        a' := CrossAckKeeps(w.book, a, id, removed);
    }
  }

  lemma {:induction false} RunIsSound(ws: seq<World>, es: seq<Event>) returns (a: Account)
    requires Run(ws, es)
    ensures Sound(ws[|es|].book, a) && Fresh(ws[|es|], a) && a.origin == Origins(ws, es)
    decreases |es|
  {
    if es == [] {
      a := Account(map[], {});
    } else {
      var n := |es| - 1;
      RunPrefix(ws, es, n);
      a := RunIsSound(ws[..n + 1], es[..n]);
      assert Enabled(ws[n], es[n]) && ws[n + 1] == After(ws[n], es[n]);
      a := StepKeeps(ws[n], a, es[n]);
    }
  }

  // ----- what is dropped -----

  /** One of the packets is a copy of the other. */
  predicate Related(origins: map<Id, Id>, a: Id, b: Id) {
    (a in origins && origins[a] == b) || (b in origins && origins[b] == a)
  }

  /** The event neither copies k, nor acknowledges it or one related to it. */
  predicate LeavesAlone(origins: map<Id, Id>, e: Event, k: Id) {
    !(e.Copy? && e.o == k) && !(e.Ack? && (e.id == k || Related(origins, e.id, k)))
  }

  lemma {:induction false} StaysMapped(w: World, a: Account, e: Event, k: Id)
    requires Enabled(w, e) && Sound(w.book, a) && Fresh(w, a) && k in w.book.dup && LeavesAlone(a.origin, e, k)
    ensures k in After(w, e).book.dup && After(w, e).book.dup[k] == w.book.dup[k]
  {
    if e.Copy? {
      assert !Used(w, NextId(w, e.path));
      assert k in a.origin || (w.book.dup[k] in a.origin && a.origin[w.book.dup[k]] == k);
    } else if e.Ack? && e.id in w.book.dup && w.book.dup[e.id] == k {
      assert Related(a.origin, e.id, k);
      assert false;
    }
  }

  lemma {:induction false} RunPrefix(ws: seq<World>, es: seq<Event>, n: nat)
    requires Run(ws, es) && n <= |es|
    ensures Run(ws[..n + 1], es[..n])
  {
  }

  /** From its copy on, a packet is mapped to its counterpart as long as it is left alone. */
  lemma {:induction false} MappedUntil(ws: seq<World>, es: seq<Event>, i: nat, j: nat, k: Id, other: Id)
    requires Run(ws, es) && i < j <= |es| && es[i].Copy?
    requires (k == es[i].o && other == NextId(ws[i], es[i].path)) || (es[i].dropable && k == NextId(ws[i], es[i].path) && other == es[i].o)
    requires forall n :: i < n < j ==> Run(ws[..n + 1], es[..n]) && LeavesAlone(Origins(ws[..n + 1], es[..n]), es[n], k)
    ensures k in ws[j].book.dup && ws[j].book.dup[k] == other
    decreases j
  {
    var n := j - 1;
    RunPrefix(ws, es, n);
    var a := RunIsSound(ws[..n + 1], es[..n]);
    if n > i {
      MappedUntil(ws, es, i, n, k, other);
      StaysMapped(ws[n], a, es[n], k);
    } else {
      assert es[i].o != NextId(ws[i], es[i].path) by {
        assert !Used(ws[i], NextId(ws[i], es[i].path));
      }
    }
  }

  /** The first acknowledgement of an original or of a dropable copy drops its counterpart, if that is still there. */
  lemma {:induction false} AckDropsCounterpart(ws: seq<World>, es: seq<Event>, i: nat, j: nat, k: Id, other: Id, removed: bool)
    requires Run(ws, es) && i < j < |es| && es[i].Copy? && es[j] == Ack(k, removed)
    requires (k == es[i].o && other == NextId(ws[i], es[i].path)) || (es[i].dropable && k == NextId(ws[i], es[i].path) && other == es[i].o)
    requires forall n :: i < n < j ==> Run(ws[..n + 1], es[..n]) && LeavesAlone(Origins(ws[..n + 1], es[..n]), es[n], k)
    ensures k in ws[j].book.dup && ws[j].book.dup[k] == other
    ensures ws[j + 1].book.dropped == ws[j].book.dropped + (if removed then 1 else 0)
    ensures k !in ws[j + 1].book.dup && other !in ws[j + 1].book.dup
  {
    MappedUntil(ws, es, i, j, k, other);
  }

  /** A copy that is not dropable drops nothing, whenever it is acknowledged. */
  lemma {:induction false} OthersDropNothing(ws: seq<World>, es: seq<Event>, i: nat, j: nat)
    requires Run(ws, es) && i < j <= |es| && es[i].Copy? && !es[i].dropable
    ensures NextId(ws[i], es[i].path) !in ws[j].book.dup
    decreases j
  {
    var n := j - 1;
    var d := NextId(ws[i], es[i].path);
    RunPrefix(ws, es, n);
    var a := RunIsSound(ws[..n + 1], es[..n]);
    if n > i {
      OthersDropNothing(ws, es, i, n);
      StaysCopy(ws, es, i, n);
      assert d in a.origin;
      if es[n].Copy? {
        assert !Used(ws[n], NextId(ws[n], es[n].path)) && Used(ws[n], d);
      }
    } else {
      NewIsUnmapped(ws[i], a, es[i]);
    }
  }

  lemma {:induction false} NewIsUnmapped(w: World, a: Account, e: Event)
    requires e.Copy? && Enabled(w, e) && Sound(w.book, a) && Fresh(w, a)
    ensures NextId(w, e.path) !in w.book.dup && e.o != NextId(w, e.path)
  {
    var d := NextId(w, e.path);
    assert !Used(w, d);
  }

  /** A copy stays known as one. */
  lemma {:induction false} StaysCopy(ws: seq<World>, es: seq<Event>, i: nat, n: nat)
    requires Run(ws, es) && i < n <= |es| && es[i].Copy?
    ensures Run(ws[..n + 1], es[..n]) && NextId(ws[i], es[i].path) in Origins(ws[..n + 1], es[..n])
    decreases n
  {
    RunPrefix(ws, es, n);
    var m := n - 1;
    assert ws[..n + 1][..m + 1] == ws[..m + 1] && es[..n][..m] == es[..m];
    if m > i {
      StaysCopy(ws, es, i, m);
    }
  }

  /** Over every interleaving of sends, copies and acknowledgements, on any number of paths. */
  lemma {:induction false} DroppedNeverExceedsDuplicated(ws: seq<World>, es: seq<Event>)
    requires Run(ws, es)
    ensures ws[|es|].book.dropped <= ws[|es|].book.duplicated
  {
    var a := RunIsSound(ws, es);
    DropsAreBounded(ws[|es|].book, a);
  }

  /** Steps that copy one packet to several paths. */
  ghost predicate Copying(ws: seq<World>, es: seq<Event>, o: Id, ds: seq<Id>, dropable: bool) {
    && |ws| == |es| + 1 == |ds| + 1
    && forall i :: 0 <= i < |es| ==>
         && es[i].Copy? && es[i].o == o && es[i].dropable == dropable
         && Enabled(ws[i], es[i]) && ws[i + 1] == After(ws[i], es[i]) && ds[i] == NextId(ws[i], es[i].path)
  }

  /** Together they do to the books what one round of the scheduler does. */
  lemma {:induction false} CopyingIsDuplicateAll(ws: seq<World>, es: seq<Event>, o: Id, ds: seq<Id>, dropable: bool)
    requires Copying(ws, es, o, ds, dropable)
    ensures ws[|es|].book == DuplicateAll(ws[0].book, o, ds, dropable)
    decreases |es|
  {
    if es != [] {
      CopyingIsDuplicateAll(ws[1..], es[1..], o, ds[1..], dropable);
      assert ws[1].book == Duplicate(ws[0].book, o, ds[0], dropable);
    }
  }

  // ----- the scheduler -----

  class Redundancy {
    var dupPackets: map<Id, Id>
    var duplicatedPackets: nat
    var droppedDuplicatedPackets: nat

    function State(): Book
      reads this
    {
      Book(dupPackets, duplicatedPackets, droppedDuplicatedPackets)
    }

    constructor ()
      ensures State() == NEW_BOOK
    {
      dupPackets, duplicatedPackets, droppedDuplicatedPackets := map[], 0, 0;
    }

    /** The copies of a packet on the redundant paths. */
    method SendCopies(o: Id, copies: seq<Id>, dropable: bool)
      modifies this
      ensures State() == DuplicateAll(old(State()), o, copies, dropable)
    {
      var i := 0;
      while i < |copies|
        invariant 0 <= i <= |copies|
        invariant DuplicateAll(State(), o, copies[i..], dropable) == DuplicateAll(old(State()), o, copies, dropable)
      {
        assert copies[i..][0] == copies[i] && copies[i..][1..] == copies[i + 1..];
        ghost var before := State();
        duplicatedPackets := duplicatedPackets + 1;
        dupPackets := dupPackets[o := copies[i]];
        if dropable {
          dupPackets := dupPackets[copies[i] := o];
        }
        assert State() == Duplicate(before, o, copies[i], dropable);
        i := i + 1;
      }
    }

    method CrossAckHandling(key: Id, removed: bool)
      modifies this
      ensures State() == CrossAck(old(State()), key, removed)
    {
      if key in dupPackets {
        var entry := dupPackets[key];
        if removed {
          droppedDuplicatedPackets := droppedDuplicatedPackets + 1;
        }
        dupPackets := dupPackets - {entry};
      }
      dupPackets := dupPackets - {key};
    }
  }
}
