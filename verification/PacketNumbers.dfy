/** Packet numbers of one path (packet_number_generator.go). Numbers are 64-bit unsigned. The
random distance to the next number to skip is a parameter; the random source may also fail. */
module PacketNumbers {
  import opened Basics

  const TWO_64: nat := 0x1_0000_0000_0000_0000

  type uint64 = x: nat | x < TWO_64

  datatype Numbering = Numbering(next: uint64, nextToSkip: uint64)

  const NEW_NUMBERING := Numbering(1, 0)

  function Add(a: uint64, b: uint64): uint64 {
    if a + b < TWO_64 then a + b else a + b - TWO_64
  }

  /** A failing random source changes nothing. */
  function NewSkip(g: Numbering, distance: Option<uint64>): Numbering {
    if distance.None? then g else g.(nextToSkip := Add(Add(g.next, 2), distance.value))
  }

  function AfterPop(g: Numbering, distance: Option<uint64>): Numbering {
    var n := g.(next := Add(g.next, 1));
    if n.next == n.nextToSkip then NewSkip(n.(next := Add(n.next, 1)), distance) else n
  }

  function AfterPops(g: Numbering, distances: seq<Option<uint64>>): Numbering
    decreases |distances|
  {
    if distances == [] then g else AfterPops(AfterPop(g, distances[0]), distances[1..])
  }

  /** Until the counter wraps, every number handed out later is larger: no number comes twice. */
  lemma {:induction false} NumbersIncrease(g: Numbering, distances: seq<Option<uint64>>)
    requires distances != [] && g.next + 2 * |distances| < TWO_64
    ensures g.next < AfterPops(g, distances).next <= g.next + 2 * |distances|
    decreases |distances|
  {
    if |distances| > 1 {
      NumbersIncrease(AfterPop(g, distances[0]), distances[1..]);
    }
  }

  /** A number is skipped exactly when it is the one marked, and the next one marked is never the
  number right behind it. */
  lemma SkipsOneAtMost(g: Numbering, distance: Option<uint64>)
    requires g.next + 2 < TWO_64
    ensures AfterPop(g, distance).next == if g.nextToSkip == g.next + 1 then g.next + 2 else g.next + 1
    ensures g.nextToSkip == g.next + 1 && distance.Some? && g.next + 4 + distance.value < TWO_64 ==>
              AfterPop(g, distance).nextToSkip == AfterPop(g, distance).next + 2 + distance.value
  {
  }

  /** Numbers are handed out one by one up to the mark, which is skipped: with distance d drawn at the last skip, d + 2
  numbers lie between two that are skipped. */
  lemma {:induction false} SkipsAtMark(g: Numbering, distances: seq<Option<uint64>>)
    requires g.next + |distances| <= g.nextToSkip && g.nextToSkip + 1 < TWO_64
    ensures AfterPops(g, distances).next == if g.next + |distances| < g.nextToSkip || distances == [] then g.next + |distances| else g.nextToSkip + 1
    decreases |distances|
  {
    if distances != [] {
      var h := AfterPop(g, distances[0]);
      if |distances| > 1 {
        SkipsAtMark(h, distances[1..]);
      }
    }
  }

  /** A new generator never skips a number, whatever distances are drawn: the mark starts out as
  zero and moves only when it is hit. The n-th packet has number n. */
  lemma {:induction false} NewGeneratorNeverSkips(distances: seq<Option<uint64>>)
    requires |distances| + 1 < TWO_64
    ensures AfterPops(NEW_NUMBERING, distances) == Numbering(|distances| + 1, 0)
  {
    NeverSkipsFrom(NEW_NUMBERING, distances);
  }

  lemma {:induction false} NeverSkipsFrom(g: Numbering, distances: seq<Option<uint64>>)
    requires g.nextToSkip == 0 && g.next + |distances| < TWO_64
    ensures AfterPops(g, distances) == g.(next := g.next + |distances|)
    decreases |distances|
  {
    if distances != [] {
      NeverSkipsFrom(AfterPop(g, distances[0]), distances[1..]);
    }
  }

  class Generator {
    var next: uint64
    var nextToSkip: uint64

    function State(): Numbering
      reads this
    {
      Numbering(next, nextToSkip)
    }

    constructor ()
      ensures State() == NEW_NUMBERING
    {
      next, nextToSkip := 1, 0;
    }

    method Peek() returns (n: uint64)
      ensures n == State().next
    {
      n := next;
    }

    method Pop(distance: Option<uint64>) returns (n: uint64)
      modifies this
      ensures n == old(State()).next && State() == AfterPop(old(State()), distance)
    {
      n := next;
      next := Add(next, 1);
      if next == nextToSkip {
        next := Add(next, 1);
        GenerateNewSkip(distance);
      }
    }

    method GenerateNewSkip(distance: Option<uint64>)
      modifies this
      ensures State() == NewSkip(old(State()), distance)
    {
      if distance.Some? {
        nextToSkip := Add(Add(next, 2), distance.value);
      }
    }
  }
}
