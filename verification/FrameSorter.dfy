/** The receive-side reordering buffer (stream_frame_sorter.go).

A sorter keeps a list of gaps (byte ranges not received yet), a map of queued frames keyed by
offset, and the read position. A frame covered by a larger one may stay in the map, so queued
frames are not disjoint. What holds instead is that from the read position, and from the end of
every gap, queued frames link end to end up to the start of the next gap.
*/
module FrameSorter {
  import opened Basics
  import opened Frames

  const MAX_GAPS: nat := 2500

  datatype Interval = Interval(start: nat, end: nat)

  datatype SorterState = SorterState(
    queued: map<nat, StreamFrame>,
    readPosition: nat,
    gaps: seq<Interval>
  )

  datatype PushResult = Pushed | EmptyStreamData | Duplicate | TooManyGaps | NoEndGap

  // ----- the invariant -----

  ghost predicate InGap(gaps: seq<Interval>, x: int) {
    exists i :: 0 <= i < |gaps| && gaps[i].start <= x < gaps[i].end
  }

  /** Byte x has been received. */
  ghost predicate Got(s: SorterState, x: int) {
    0 <= x < MAX_BYTE_COUNT && !InGap(s.gaps, x)
  }

  /** Gaps are non-empty, sorted and never adjacent, and the last one is open ended. */
  ghost predicate GapsOk(gaps: seq<Interval>) {
    && |gaps| > 0
    && gaps[|gaps| - 1].end == MAX_BYTE_COUNT
    && (forall i :: 0 <= i < |gaps| ==> gaps[i].start < gaps[i].end)
    && (forall i, j :: 0 <= i < j < |gaps| ==> gaps[i].end < gaps[j].start)
  }

  /** Queued frames link end to end from one offset exactly up to another. */
  ghost predicate Chain(q: map<nat, StreamFrame>, from: nat, to: nat)
    decreases to - from
  {
    from == to
    || (from < to && from in q && 0 < |q[from].data| && Chain(q, from + |q[from].data|, to))
  }

  /** Every received block between gaps is covered by a chain of queued frames. */
  ghost predicate Linked(q: map<nat, StreamFrame>, pos: nat, gaps: seq<Interval>)
    decreases |gaps|
  {
    gaps == [] || (Chain(q, pos, gaps[0].start) && Linked(q, gaps[0].end, gaps[1..]))
  }

  function LastStart(gaps: seq<Interval>): nat
    requires |gaps| > 0
  {
    gaps[|gaps| - 1].start
  }

  /** A queued frame sits at its own offset and all its bytes are received. Only a FIN is empty. */
  ghost predicate QueuedOk(gaps: seq<Interval>, k: nat, f: StreamFrame) {
    && f.offset == k && f.End() <= MAX_BYTE_COUNT
    && (forall x :: k <= x < f.End() ==> !InGap(gaps, x))
    && (|f.data| == 0 ==> f.fin)
  }

  ghost predicate Valid(s: SorterState) {
    && GapsOk(s.gaps)
    && Linked(s.queued, s.readPosition, s.gaps)
    && (forall k :: k in s.queued ==> QueuedOk(s.gaps, k, s.queued[k]))
  }

  /** The chain has a frame that starts at k. */
  ghost predicate Passes(q: map<nat, StreamFrame>, from: nat, to: nat, k: nat)
    decreases to - from
  {
    from < to && from in q && (k == from || (0 < |q[from].data| && Passes(q, from + |q[from].data|, to, k)))
  }

  /** A received block has a frame that starts at k: popping the frames up to k makes it the head. */
  ghost predicate OnChain(q: map<nat, StreamFrame>, pos: nat, gaps: seq<Interval>, k: nat)
    decreases |gaps|
  {
    gaps != [] && (Passes(q, pos, gaps[0].start, k) || OnChain(q, gaps[0].end, gaps[1..], k))
  }

  /** An empty FIN frame takes the place of queued data that is still to be read. */
  ghost predicate Overwrites(s: SorterState, f: StreamFrame) {
    |f.data| == 0 && f.fin && OnChain(s.queued, s.readPosition, s.gaps, f.offset)
  }

  function InitialState(): SorterState {
    SorterState(map[], 0, [Interval(0, MAX_BYTE_COUNT)])
  }

  /** Every byte of f has been received. */
  ghost predicate AllGot(s: SorterState, f: StreamFrame) {
    forall x :: f.offset <= x < f.End() ==> Got(s, x)
  }

  // ----- what Push and Pop promise -----

  /** Exactly the bytes of f are added to what is received. */
  ghost predicate GotAfter(s: SorterState, f: StreamFrame, t: SorterState) {
    forall x :: Got(t, x) <==> Got(s, x) || f.offset <= x < f.End()
  }

  /** A data frame was taken in: exactly its bytes are added, whatever is queued is an old entry or
  the part of the frame that was stored, and neither an entry below the first gap nor an empty FIN
  behind the frame is touched. */
  ghost predicate Absorbed(s: SorterState, f: StreamFrame, t: SorterState) {
    && t.readPosition == s.readPosition
    && GotAfter(s, f, t)
    && (forall k :: k in t.queued ==> (k in s.queued && t.queued[k] == s.queued[k]) || Stored(s, f, k, t.queued[k]))
    && (exists k :: StoredAt(s, f, t, k))
    && (forall k :: k in s.queued && Got(s, k) && (forall x :: s.readPosition <= x <= k ==> Got(s, x)) ==>
         k in t.queued && t.queued[k] == s.queued[k])
    && (forall k :: k in s.queued && |s.queued[k].data| == 0 && f.End() <= k ==> k in t.queued && t.queued[k] == s.queued[k])
  }

  /** One part of the frame was stored, at k, and no other entry is new. */
  ghost predicate StoredAt(s: SorterState, f: StreamFrame, t: SorterState, k: nat) {
    && k in t.queued && Stored(s, f, k, t.queued[k])
    && forall j :: j in t.queued && j != k ==> j in s.queued && t.queued[j] == s.queued[j]
  }

  /** p is the part of f that was stored at k: it starts at a byte that was missing, keeps the FIN
  mark, and reaches the frame's own end exactly when the frame's last byte was missing. */
  ghost predicate Stored(s: SorterState, f: StreamFrame, k: nat, p: StreamFrame) {
    && p.PieceOf(f) && p.offset == k && |p.data| > 0 && !Got(s, k)
    && p.fin == f.fin
    && (p.End() == f.End() <==> !Got(s, f.End() - 1))
  }

  ghost predicate PushRel(s: SorterState, f: StreamFrame, r: PushResult, t: SorterState) {
    && (r == EmptyStreamData <==> |f.data| == 0 && !f.fin)
    && (r == Duplicate <==> |f.data| > 0 && AllGot(s, f))
    && (r == NoEndGap <==> |f.data| > 0 && f.End() == MAX_BYTE_COUNT)
    && (|f.data| == 0 && f.fin ==> r == Pushed)
    && (r == EmptyStreamData || r == Duplicate ==> t == s)
    && (r == TooManyGaps ==> GapsOk(t.gaps) && |t.gaps| > MAX_GAPS && GotAfter(s, f, t))
    && (r == TooManyGaps || r == Pushed ==> |t.gaps| <= |s.gaps| + 1)
    && (r == Pushed ==> (Valid(t) <==> !Overwrites(s, f)) && (|f.data| > 0 ==> |t.gaps| <= MAX_GAPS))
    && (r == Pushed && |f.data| == 0 ==> t == s.(queued := s.queued[f.offset := f]))
    && (r == Pushed && |f.data| > 0 ==> Absorbed(s, f, t))
  }

  function HeadOf(s: SorterState): Option<StreamFrame> {
    if s.readPosition in s.queued then Some(s.queued[s.readPosition]) else None
  }

  ghost predicate PopRel(s: SorterState, r: Option<StreamFrame>, t: SorterState) {
    && r == HeadOf(s)
    && (r.None? ==> t == s)
    && (r.Some? ==> t == SorterState(s.queued - {s.readPosition}, s.readPosition + |r.value.data|, s.gaps))
  }

  // ----- lemmas about chains -----

  lemma {:induction false} ChainConcat(q: map<nat, StreamFrame>, a: nat, b: nat, c: nat)
    requires Chain(q, a, b) && Chain(q, b, c)
    ensures Chain(q, a, c)
    decreases b - a
  {
    if a != b {
      ChainConcat(q, a + |q[a].data|, b, c);
      ChainBound(q, b, c);
      ChainBound(q, a, b);
    }
  }

  lemma {:induction false} ChainBound(q: map<nat, StreamFrame>, a: nat, b: nat)
    requires Chain(q, a, b)
    ensures a <= b
  {
  }

  ghost predicate SameAt(q: map<nat, StreamFrame>, r: map<nat, StreamFrame>, k: nat) {
    k in q && k in r && r[k] == q[k]
  }

  /** A chain depends only on the frames it passes, and needs each of them. */
  lemma {:induction false} ChainSame(q: map<nat, StreamFrame>, r: map<nat, StreamFrame>, a: nat, b: nat)
    requires Chain(q, a, b)
    requires forall k :: Passes(q, a, b, k) ==> SameAt(q, r, k)
    ensures Chain(r, a, b)
    decreases b - a
  {
    if a != b {
      assert Passes(q, a, b, a);
      ChainSame(q, r, a + |q[a].data|, b);
    }
  }

  lemma {:induction false} ChainBroken(q: map<nat, StreamFrame>, a: nat, b: nat, f: StreamFrame)
    requires Passes(q, a, b, f.offset) && |f.data| == 0
    ensures !Chain(q[f.offset := f], a, b)
    decreases b - a
  {
    if f.offset != a {
      ChainBroken(q, a + |q[a].data|, b, f);
    }
  }

  lemma {:induction false} LinkedSame(q: map<nat, StreamFrame>, r: map<nat, StreamFrame>, pos: nat, gaps: seq<Interval>)
    requires Linked(q, pos, gaps)
    requires forall k :: OnChain(q, pos, gaps, k) ==> SameAt(q, r, k)
    ensures Linked(r, pos, gaps)
    decreases |gaps|
  {
    if gaps != [] {
      ChainSame(q, r, pos, gaps[0].start);
      LinkedSame(q, r, gaps[0].end, gaps[1..]);
    }
  }

  lemma {:induction false} LinkedBroken(q: map<nat, StreamFrame>, pos: nat, gaps: seq<Interval>, f: StreamFrame)
    requires OnChain(q, pos, gaps, f.offset) && |f.data| == 0
    ensures !Linked(q[f.offset := f], pos, gaps)
    decreases |gaps|
  {
    if Passes(q, pos, gaps[0].start, f.offset) {
      ChainBroken(q, pos, gaps[0].start, f);
    } else {
      LinkedBroken(q, gaps[0].end, gaps[1..], f);
    }
  }

  /** A frame on the chain lies in front of its end. */
  lemma {:induction false} PassesBetween(q: map<nat, StreamFrame>, a: nat, b: nat, k: nat)
    requires Passes(q, a, b, k)
    ensures a <= k < b
    decreases b - a
  {
    if k != a {
      PassesBetween(q, a + |q[a].data|, b, k);
    }
  }

  /** The frames on the chain have been received. */
  lemma {:induction false} OnChainReceived(q: map<nat, StreamFrame>, pos: nat, gaps: seq<Interval>, k: nat)
    requires OnChain(q, pos, gaps, k) && Ordered(gaps) && (gaps != [] ==> pos <= gaps[0].start)
    ensures pos <= k && k < LastStart(gaps) && !InGap(gaps, k)
    decreases |gaps|
  {
    if Passes(q, pos, gaps[0].start, k) {
      PassesBetween(q, pos, gaps[0].start, k);
    } else {
      OnChainReceived(q, gaps[0].end, gaps[1..], k);
      assert forall i :: 0 < i < |gaps| ==> gaps[i] == gaps[1..][i - 1];
    }
  }

  /** A chain depends only on the entries it passes over. */
  lemma {:induction false} ChainFrame(q: map<nat, StreamFrame>, r: map<nat, StreamFrame>, a: nat, b: nat)
    requires Chain(q, a, b)
    requires forall k :: a <= k < b && k in q ==> k in r && r[k] == q[k]
    ensures Chain(r, a, b)
    decreases b - a
  {
    if a != b {
      ChainFrame(q, r, a + |q[a].data|, b);
    }
  }

  function LastEnd(pos: nat, gaps: seq<Interval>): nat {
    if gaps == [] then pos else gaps[|gaps| - 1].end
  }

  lemma {:induction false} LinkedFrame(q: map<nat, StreamFrame>, r: map<nat, StreamFrame>, pos: nat, gaps: seq<Interval>)
    requires Linked(q, pos, gaps)
    requires forall i, j :: 0 <= i < j < |gaps| ==> gaps[i].end <= gaps[j].start
    requires forall i :: 0 <= i < |gaps| ==> pos <= gaps[i].start <= gaps[i].end
    requires gaps != [] ==> forall k :: pos <= k < LastStart(gaps) && k in q ==> k in r && r[k] == q[k]
    ensures Linked(r, pos, gaps)
    decreases |gaps|
  {
    if gaps != [] {
      ChainFrame(q, r, pos, gaps[0].start);
      LinkedFrame(q, r, gaps[0].end, gaps[1..]);
    }
  }

  lemma {:induction false} LinkedAppend(q: map<nat, StreamFrame>, pos: nat, a: seq<Interval>, b: seq<Interval>)
    ensures Linked(q, pos, a + b) <==> Linked(q, pos, a) && Linked(q, LastEnd(pos, a), b)
    decreases |a|
  {
    if a == [] {
      assert a + b == b;
    } else {
      assert (a + b)[1..] == a[1..] + b;
      LinkedAppend(q, a[0].end, a[1..], b);
    }
  }

  /** A chain in front of a linked list of gaps extends its first block. */
  lemma {:induction false} LinkedExtend(q: map<nat, StreamFrame>, a: nat, b: nat, gaps: seq<Interval>)
    requires gaps != [] && Chain(q, a, b) && Linked(q, b, gaps)
    ensures Linked(q, a, gaps)
  {
    ChainConcat(q, a, b, gaps[0].start);
  }

  lemma {:induction false} LinkedStarts(s: SorterState)
    requires Valid(s)
    ensures s.readPosition <= s.gaps[0].start
    ensures forall i :: 0 <= i < |s.gaps| ==> s.readPosition <= s.gaps[i].start
  {
    ChainBound(s.queued, s.readPosition, s.gaps[0].start);
  }

  /** The first byte behind a gap is the offset of a queued data frame. */
  lemma {:induction false} BlockHead(q: map<nat, StreamFrame>, pos: nat, gaps: seq<Interval>, i: nat)
    requires Linked(q, pos, gaps) && i + 1 < |gaps| && gaps[i].end < gaps[i + 1].start
    ensures gaps[i].end in q && |q[gaps[i].end].data| > 0
    decreases i
  {
    if i > 0 {
      BlockHead(q, gaps[0].end, gaps[1..], i - 1);
    }
  }

  // ----- punching a received range out of the gap list -----

  /** The gaps left when [start, end) arrives, start lying in gap i and end in gap m. */
  function Punch(g: seq<Interval>, i: nat, m: nat, start: nat, end: nat): seq<Interval>
    requires i <= m < |g|
  {
    var left := if start == g[i].start then [] else [Interval(g[i].start, start)];
    var right := if end == g[m].end then [] else [Interval(end, g[m].end)];
    g[..i] + left + right + g[m + 1..]
  }

  ghost predicate Punchable(g: seq<Interval>, i: nat, m: nat, start: nat, end: nat) {
    && GapsOk(g) && i <= m < |g|
    && g[i].start <= start < g[i].end
    && g[m].start < end <= g[m].end
    && start < end < MAX_BYTE_COUNT
  }

  lemma {:induction false} PunchOk(g: seq<Interval>, i: nat, m: nat, start: nat, end: nat)
    requires Punchable(g, i, m, start, end)
    ensures GapsOk(Punch(g, i, m, start, end))
    ensures LastStart(Punch(g, i, m, start, end)) == if end > LastStart(g) then end else LastStart(g)
  {
    PunchOrdered(g, i, m, start, end);
    var p := Punch(g, i, m, start, end);
    if m + 1 < |g| {
      assert p[|p| - 1] == g[|g| - 1];
    } else {
      assert p[|p| - 1] == Interval(end, g[m].end);
    }
  }

  /** Gaps that are not empty, in order and apart. */
  ghost predicate Ordered(g: seq<Interval>) {
    && (forall i :: 0 <= i < |g| ==> g[i].start < g[i].end)
    && (forall i, j :: 0 <= i < j < |g| ==> g[i].end < g[j].start)
  }

  /** What stays in front of start, in gap i or before it. */
  lemma {:induction false} FrontOrdered(g: seq<Interval>, i: nat, start: nat)
    requires GapsOk(g) && i < |g| && g[i].start <= start < g[i].end
    ensures var front := g[..i] + (if start == g[i].start then [] else [Interval(g[i].start, start)]);
            Ordered(front) && forall k :: 0 <= k < |front| ==> front[k].end <= start
  {
  }

  /** What stays behind end, in gap m or behind it. */
  lemma {:induction false} BackOrdered(g: seq<Interval>, m: nat, end: nat)
    requires GapsOk(g) && m < |g| && g[m].start < end <= g[m].end
    ensures var back := (if end == g[m].end then [] else [Interval(end, g[m].end)]) + g[m + 1..];
            Ordered(back) && forall k :: 0 <= k < |back| ==> end <= back[k].start
  {
  }

  lemma {:induction false} OrderedConcat(a: seq<Interval>, b: seq<Interval>, start: nat, end: nat)
    requires Ordered(a) && Ordered(b) && start < end
    requires (forall k :: 0 <= k < |a| ==> a[k].end <= start) && forall k :: 0 <= k < |b| ==> end <= b[k].start
    ensures Ordered(a + b)
  {
  }

  lemma {:induction false} PunchOrdered(g: seq<Interval>, i: nat, m: nat, start: nat, end: nat)
    requires Punchable(g, i, m, start, end)
    ensures Ordered(Punch(g, i, m, start, end))
  {
    var left := if start == g[i].start then [] else [Interval(g[i].start, start)];
    var right := if end == g[m].end then [] else [Interval(end, g[m].end)];
    FrontOrdered(g, i, start);
    BackOrdered(g, m, end);
    OrderedConcat(g[..i] + left, right + g[m + 1..], start, end);
    Halves(g[..i], left, right, g[m + 1..]);
  }

  lemma {:induction false} Halves(a: seq<Interval>, b: seq<Interval>, c: seq<Interval>, d: seq<Interval>)
    ensures a + b + c + d == (a + b) + (c + d)
  {
  }

  lemma {:induction false} InGapConcat(a: seq<Interval>, b: seq<Interval>, x: int)
    ensures InGap(a + b, x) <==> InGap(a, x) || InGap(b, x)
  {
    if t :| 0 <= t < |a| && a[t].start <= x < a[t].end {
      assert (a + b)[t] == a[t];
    }
    if t :| 0 <= t < |b| && b[t].start <= x < b[t].end {
      assert (a + b)[|a| + t] == b[t];
    }
  }

  lemma {:induction false} InGapPunched(g: seq<Interval>, i: nat, m: nat, start: nat, end: nat, x: int)
    requires i <= m < |g| && g[i].start <= start && end <= g[m].end
    ensures InGap(Punch(g, i, m, start, end), x) <==>
            InGap(g[..i], x) || g[i].start <= x < start || end <= x < g[m].end || InGap(g[m + 1..], x)
  {
    var left := if start == g[i].start then [] else [Interval(g[i].start, start)];
    var right := if end == g[m].end then [] else [Interval(end, g[m].end)];
    InGapConcat(g[..i], left, x);
    InGapConcat(g[..i] + left, right, x);
    InGapConcat(g[..i] + left + right, g[m + 1..], x);
    if g[i].start <= x < start {
      assert left[0].start <= x < left[0].end;
    }
    if end <= x < g[m].end {
      assert right[0].start <= x < right[0].end;
    }
  }

  lemma {:induction false} InGapSplit(g: seq<Interval>, i: nat, m: nat, x: int)
    requires i <= m < |g|
    ensures InGap(g, x) <==> InGap(g[..i], x) || InGap(g[i..m + 1], x) || InGap(g[m + 1..], x)
  {
    assert g == g[..i] + g[i..m + 1] + g[m + 1..];
    InGapConcat(g[..i], g[i..m + 1], x);
    InGapConcat(g[..i] + g[i..m + 1], g[m + 1..], x);
  }

  lemma {:induction false} PunchComplement(g: seq<Interval>, i: nat, m: nat, start: nat, end: nat, x: int)
    requires Punchable(g, i, m, start, end)
    ensures InGap(Punch(g, i, m, start, end), x) <==> InGap(g, x) && !(start <= x < end)
  {
    InGapPunched(g, i, m, start, end, x);
    InGapSplit(g, i, m, x);
    PunchMiddle(g, i, m, start, end, x);
  }

  lemma {:induction false} PunchMiddle(g: seq<Interval>, i: nat, m: nat, start: nat, end: nat, x: int)
    requires Punchable(g, i, m, start, end)
    ensures InGap(g[i..m + 1], x) && !(start <= x < end) <==> g[i].start <= x < start || end <= x < g[m].end
    ensures InGap(g[..i], x) || InGap(g[m + 1..], x) ==> !(start <= x < end)
  {
    var mid := g[i..m + 1];
    assert mid[0] == g[i] && mid[m - i] == g[m];
  }

  /** Entries outside [g[i].start, g[m].end) are the same in q and r. */
  ghost predicate SameOutside(q: map<nat, StreamFrame>, r: map<nat, StreamFrame>, lo: nat, hi: nat) {
    forall k :: k in q && (k < lo || k >= hi) ==> k in r && r[k] == q[k]
  }

  lemma {:induction false} LinkedPrefix(q: map<nat, StreamFrame>, r: map<nat, StreamFrame>, pos: nat, g: seq<Interval>, i: nat, hi: nat)
    requires GapsOk(g) && i < |g| && Linked(q, pos, g) && pos <= g[0].start
    requires SameOutside(q, r, g[i].start, hi)
    ensures Linked(r, pos, g[..i]) && Chain(r, LastEnd(pos, g[..i]), g[i].start)
    decreases i
  {
    ChainFrame(q, r, pos, g[0].start);
    if i > 0 {
      var rest := g[1..];
      LinkedPrefix(q, r, g[0].end, rest, i - 1, hi);
      assert g[..i][1..] == rest[..i - 1];
    }
  }

  lemma {:induction false} LinkedSuffix(q: map<nat, StreamFrame>, r: map<nat, StreamFrame>, at: nat, g: seq<Interval>, lo: nat, m: nat)
    requires GapsOk(g) && m < |g| && Linked(q, at, g)
    requires SameOutside(q, r, lo, g[m].end)
    ensures Linked(r, g[m].end, g[m + 1..])
  {
    assert g == g[..m + 1] + g[m + 1..];
    LinkedAppend(q, at, g[..m + 1], g[m + 1..]);
    TailOrdered(g, m);
    LinkedFrame(q, r, g[m].end, g[m + 1..]);
  }

  lemma {:induction false} TailOrdered(g: seq<Interval>, m: nat)
    requires GapsOk(g) && m < |g|
    ensures var t := g[m + 1..];
            && (forall i, j :: 0 <= i < j < |t| ==> t[i].end <= t[j].start)
            && (forall i :: 0 <= i < |t| ==> g[m].end <= t[i].start <= t[i].end)
  {
  }

  /** Blocks on both sides of [start, end) join when a frame covers that range. */
  lemma {:induction false} LinkedJoin(r: map<nat, StreamFrame>, at: nat, gi: Interval, gm: Interval, tail: seq<Interval>, start: nat, end: nat)
    requires Chain(r, at, gi.start) && Chain(r, start, end) && Linked(r, gm.end, tail)
    requires end == gm.end ==> tail != []
    ensures
      var left := if start == gi.start then [] else [Interval(gi.start, start)];
      var right := if end == gm.end then [] else [Interval(end, gm.end)];
      Linked(r, at, left + (right + tail))
  {
    var left := if start == gi.start then [] else [Interval(gi.start, start)];
    var right := if end == gm.end then [] else [Interval(end, gm.end)];
    if right == [] {
      assert right + tail == tail;
    } else {
      assert Chain(r, end, end) && (right + tail)[1..] == tail;
    }
    LinkedExtend(r, start, end, right + tail);
    if left == [] {
      assert left + (right + tail) == right + tail;
      LinkedExtend(r, at, start, right + tail);
    } else {
      assert (left + (right + tail))[1..] == right + tail;
    }
  }

  lemma {:induction false} PunchAssemble(r: map<nat, StreamFrame>, pos: nat, g: seq<Interval>, i: nat, m: nat, start: nat, end: nat)
    requires i <= m < |g| && (end == g[m].end ==> m + 1 < |g|)
    requires Linked(r, pos, g[..i]) && Chain(r, LastEnd(pos, g[..i]), g[i].start)
    requires Chain(r, start, end)
    requires Linked(r, g[m].end, g[m + 1..])
    ensures Linked(r, pos, Punch(g, i, m, start, end))
  {
    var left := if start == g[i].start then [] else [Interval(g[i].start, start)];
    var right := if end == g[m].end then [] else [Interval(end, g[m].end)];
    LinkedJoin(r, LastEnd(pos, g[..i]), g[i], g[m], g[m + 1..], start, end);
    LinkedAppend(r, pos, g[..i], left + (right + g[m + 1..]));
    Regroup(g[..i], left, right, g[m + 1..]);
  }

  lemma {:induction false} Regroup(a: seq<Interval>, b: seq<Interval>, c: seq<Interval>, d: seq<Interval>)
    ensures a + b + c + d == a + (b + (c + d))
  {
  }

  /** The blocks of the punched list are chained once the new frame is queued at start. */
  lemma {:induction false} PunchLinked(q: map<nat, StreamFrame>, r: map<nat, StreamFrame>, pos: nat,
                                       g: seq<Interval>, i: nat, m: nat, start: nat, end: nat)
    requires Punchable(g, i, m, start, end) && Linked(q, pos, g) && pos <= g[0].start
    requires start in r && start + |r[start].data| == end
    requires SameOutside(q, r, g[i].start, g[m].end)
    ensures Linked(r, pos, Punch(g, i, m, start, end))
  {
    LinkedPrefix(q, r, pos, g, i, g[m].end);
    LinkedSuffix(q, r, pos, g, g[i].start, m);
    assert Chain(r, end, end);
    PunchAssemble(r, pos, g, i, m, start, end);
  }

  // ----- one push, from the pieces the code computes -----

  /** The queue without the first frame of each block swallowed between gaps i and m. */
  ghost function DropSwallowed(q: map<nat, StreamFrame>, g: seq<Interval>, i: nat, m: nat): map<nat, StreamFrame>
    requires i <= m < |g|
  {
    q - (set t | i <= t < m :: g[t].end)
  }

  /** p is the part of f left after trimming: it fills gaps i to m and misses no missing byte. */
  ghost predicate Trimmed(g: seq<Interval>, f: StreamFrame, p: StreamFrame, i: nat, m: nat) {
    && Punchable(g, i, m, p.offset, p.End())
    && p.PieceOf(f) && p.fin == f.fin
    && (forall x :: f.offset <= x < f.End() && InGap(g, x) ==> p.offset <= x < p.End())
  }

  ghost function AfterPush(s: SorterState, p: StreamFrame, i: nat, m: nat): SorterState
    requires i <= m < |s.gaps|
  {
    SorterState(DropSwallowed(s.queued, s.gaps, i, m)[p.offset := p], s.readPosition,
                Punch(s.gaps, i, m, p.offset, p.End()))
  }

  lemma {:induction false} PushKeepsValid(s: SorterState, f: StreamFrame, p: StreamFrame, i: nat, m: nat)
    requires Valid(s) && |f.data| > 0 && Trimmed(s.gaps, f, p, i, m)
    ensures Valid(AfterPush(s, p, i, m))
  {
    var t := AfterPush(s, p, i, m);
    PunchOk(s.gaps, i, m, p.offset, p.End());
    LinkedStarts(s);
    PunchLinked(s.queued, t.queued, s.readPosition, s.gaps, i, m, p.offset, p.End());
    forall k | k in t.queued
      ensures QueuedOk(t.gaps, k, t.queued[k])
    {
      forall x | k <= x < t.queued[k].End()
        ensures !InGap(t.gaps, x)
      {
        PunchComplement(s.gaps, i, m, p.offset, p.End(), x);
      }
    }
  }

  lemma {:induction false} PushFillsGaps(s: SorterState, f: StreamFrame, p: StreamFrame, i: nat, m: nat, t: SorterState)
    requires GapsOk(s.gaps) && Trimmed(s.gaps, f, p, i, m) && f.End() < MAX_BYTE_COUNT
    requires t.gaps == Punch(s.gaps, i, m, p.offset, p.End())
    ensures GapsOk(t.gaps) && GotAfter(s, f, t)
  {
    PunchOk(s.gaps, i, m, p.offset, p.End());
    forall x
      ensures Got(t, x) <==> Got(s, x) || f.offset <= x < f.End()
    {
      PunchComplement(s.gaps, i, m, p.offset, p.End(), x);
    }
  }

  lemma {:induction false} GapStartMissing(s: SorterState, n: nat)
    requires n < |s.gaps| && s.gaps[n].start < s.gaps[n].end
    ensures !Got(s, s.gaps[n].start)
  {
    assert InGap(s.gaps, s.gaps[n].start);
  }

  /** Entries that a push leaves alone. */
  lemma {:induction false} PushRetains(s: SorterState, f: StreamFrame, p: StreamFrame, i: nat, m: nat, k: nat)
    requires Valid(s) && |f.data| > 0 && Trimmed(s.gaps, f, p, i, m)
    requires k in s.queued
    requires f.End() <= k || (Got(s, k) && forall x :: s.readPosition <= x <= k ==> Got(s, x))
    ensures k != p.offset && k in DropSwallowed(s.queued, s.gaps, i, m)
  {
    LinkedStarts(s);
    assert InGap(s.gaps, p.offset);
    if n :| i <= n < m && k == s.gaps[n].end {
      GapStartMissing(s, n);
    }
  }

  lemma {:induction false} PushAbsorbs(s: SorterState, f: StreamFrame, p: StreamFrame, i: nat, m: nat)
    requires Valid(s) && f.End() < MAX_BYTE_COUNT && |f.data| > 0
    requires Trimmed(s.gaps, f, p, i, m)
    ensures Absorbed(s, f, AfterPush(s, p, i, m))
  {
    var t := AfterPush(s, p, i, m);
    PushFillsGaps(s, f, p, i, m, t);
    assert InGap(s.gaps, p.offset) && InGap(s.gaps, p.End() - 1);
    assert StoredAt(s, f, t, p.offset);
    forall k | k in s.queued && (f.End() <= k || (Got(s, k) && forall x :: s.readPosition <= x <= k ==> Got(s, x)))
      ensures k in t.queued && t.queued[k] == s.queued[k]
    {
      PushRetains(s, f, p, i, m, k);
    }
  }

  /** Both ways a push of a trimmed frame can end. */
  lemma {:induction false} PushEnds(s: SorterState, f: StreamFrame, p: StreamFrame, i: nat, m: nat, t: SorterState)
    requires Valid(s) && |f.data| > 0
    requires Trimmed(s.gaps, f, p, i, m) && f.End() < MAX_BYTE_COUNT && !AllGot(s, f)
    requires t == SorterState(DropSwallowed(s.queued, s.gaps, i, m), s.readPosition,
                              Punch(s.gaps, i, m, p.offset, p.End()))
    ensures if |t.gaps| > MAX_GAPS then PushRel(s, f, TooManyGaps, t)
            else PushRel(s, f, Pushed, t.(queued := t.queued[p.offset := p]))
  {
    PushFillsGaps(s, f, p, i, m, t);
    PushKeepsValid(s, f, p, i, m);
    PushAbsorbs(s, f, p, i, m);
  }

  lemma {:induction false} PushNoEndGap(s: SorterState, f: StreamFrame, t: SorterState)
    requires |f.data| > 0 && !AllGot(s, f) && f.End() == MAX_BYTE_COUNT
    ensures PushRel(s, f, NoEndGap, t)
  {
  }

  lemma {:induction false} DropNext(q: map<nat, StreamFrame>, g: seq<Interval>, i: nat, m: nat)
    requires i <= m && m + 1 < |g|
    ensures DropSwallowed(q, g, i, m + 1) == DropSwallowed(q, g, i, m) - {g[m].end}
  {
    var a, b := set t | i <= t < m :: g[t].end, set t | i <= t < m + 1 :: g[t].end;
    assert b == a + {g[m].end};
  }

  lemma {:induction false} RemoveNext(g: seq<Interval>, i: nat, m: nat)
    requires i < m < |g|
    ensures
      var l := g[..i + 1] + g[m..];
      l[..i + 1] + l[i + 2..] == g[..i + 1] + g[m + 1..]
  {
  }

  /** Gaps before index i lie wholly below start. */
  ghost predicate SkippedGaps(g: seq<Interval>, i: nat, start: nat) {
    i <= |g| && forall t :: 0 <= t < i ==> g[t].end < start
  }

  /** Behind a gap there is a queued frame, so a frame starting there has been cut before. */
  lemma {:induction false} CutPastGapEnds(s: SorterState, f: StreamFrame)
    requires Valid(s) && |f.data| > 0 && f.End() <= MAX_BYTE_COUNT
    requires f.offset !in s.queued || |s.queued[f.offset].data| == 0 || (f.offset > 0 && !InGap(s.gaps, f.offset - 1))
    ensures forall i :: 0 <= i < |s.gaps| ==> f.offset != s.gaps[i].end
  {
    forall i | 0 <= i < |s.gaps|
      ensures f.offset != s.gaps[i].end
    {
      if i + 1 < |s.gaps| {
        BlockHead(s.queued, s.readPosition, s.gaps, i);
      }
    }
  }

  lemma {:induction false} QueuedBelowMax(s: SorterState, k: nat)
    requires Valid(s) && k in s.queued && |s.queued[k].data| > 0
    ensures s.queued[k].End() < MAX_BYTE_COUNT
  {
    var n := |s.gaps| - 1;
    assert s.gaps[n].start <= MAX_BYTE_COUNT - 1 < s.gaps[n].end;
    assert InGap(s.gaps, MAX_BYTE_COUNT - 1);
  }

  /** An empty FIN frame is queued without a check. The invariant survives exactly if no data that is
  still to be read is overwritten. */
  lemma {:induction false} FinKeepsExactly(s: SorterState, f: StreamFrame)
    requires Valid(s) && |f.data| == 0 && f.fin && f.End() <= MAX_BYTE_COUNT
    ensures Valid(s.(queued := s.queued[f.offset := f])) <==> !Overwrites(s, f)
  {
    var q := s.queued[f.offset := f];
    if Overwrites(s, f) {
      LinkedBroken(s.queued, s.readPosition, s.gaps, f);
    } else {
      forall k | OnChain(s.queued, s.readPosition, s.gaps, k)
        ensures SameAt(s.queued, q, k)
      {
        OnChainQueued(s.queued, s.readPosition, s.gaps, k);
      }
      LinkedSame(s.queued, q, s.readPosition, s.gaps);
    }
  }

  lemma {:induction false} PassesQueued(q: map<nat, StreamFrame>, a: nat, b: nat, k: nat)
    requires Passes(q, a, b, k)
    ensures k in q
    decreases b - a
  {
    if k != a {
      PassesQueued(q, a + |q[a].data|, b, k);
    }
  }

  lemma {:induction false} OnChainQueued(q: map<nat, StreamFrame>, pos: nat, gaps: seq<Interval>, k: nat)
    requires OnChain(q, pos, gaps, k)
    ensures k in q
    decreases |gaps|
  {
    if Passes(q, pos, gaps[0].start, k) {
      PassesQueued(q, pos, gaps[0].start, k);
    } else {
      OnChainQueued(q, gaps[0].end, gaps[1..], k);
    }
  }

  /** cut is frame without bytes that are received, and does not start where a gap ends. */
  ghost predicate CutFrom(s: SorterState, frame: StreamFrame, cut: StreamFrame) {
    && |cut.data| > 0 && cut.PieceOf(frame) && cut.End() == frame.End() && cut.fin == frame.fin
    && (forall x :: frame.offset <= x < cut.offset ==> !InGap(s.gaps, x))
    && (forall i :: 0 <= i < |s.gaps| ==> cut.offset != s.gaps[i].end)
  }

  lemma {:induction false} SkippedAllGot(s: SorterState, frame: StreamFrame, cut: StreamFrame, i: nat)
    requires Valid(s) && frame.End() <= MAX_BYTE_COUNT && CutFrom(s, frame, cut)
    requires SkippedGaps(s.gaps, i, cut.offset) && i < |s.gaps| && cut.End() <= s.gaps[i].start
    ensures AllGot(s, frame) && frame.End() < MAX_BYTE_COUNT
  {
  }

  lemma {:induction false} StartsInGap(s: SorterState, frame: StreamFrame, cut: StreamFrame, i: nat)
    requires GapsOk(s.gaps) && CutFrom(s, frame, cut)
    requires i < |s.gaps| && cut.offset <= s.gaps[i].end && s.gaps[i].start < cut.End()
    ensures cut.offset < s.gaps[i].end && !AllGot(s, frame)
  {
    var x := if cut.offset < s.gaps[i].start then s.gaps[i].start else cut.offset;
    assert InGap(s.gaps, x) && !Got(s, x);
  }

  /** Gap m is where the range ending at end stops; the range may reach into the block behind. */
  ghost predicate EndGapAt(g: seq<Interval>, i: nat, m: nat, end: nat, endGap: Interval)
    requires m < |g|
  {
    endGap == g[m] && g[m].start < end && (end > g[m].end ==> m + 1 < |g| && end <= g[m + 1].start)
  }

  /** The list after CloseGaps: gap i stays, gap m stays at index e unless end lies behind it. */
  ghost predicate RemainingGaps(g: seq<Interval>, i: nat, m: nat, e: nat, end: nat, gaps: seq<Interval>)
    requires i <= m < |g|
  {
    if m == i then
      e == i && gaps == g
    else
      e == i + 1 && gaps == if end < g[m].end then g[..i + 1] + g[m..] else g[..i + 1] + g[m + 1..]
  }

  /** The part of f from lo on. */
  function CutHead(f: StreamFrame, lo: nat): StreamFrame
    requires lo <= f.End()
  {
    if f.offset < lo then f.DropHead(lo - f.offset) else f
  }

  /** The part of f before hi. */
  function CutTail(f: StreamFrame, hi: nat): StreamFrame
    requires f.offset <= hi
  {
    if f.End() > hi then f.TakeHead(hi - f.offset) else f
  }

  /** The part of f between lo and hi. */
  function Trim(f: StreamFrame, lo: nat, hi: nat): (p: StreamFrame)
    requires lo <= f.End() && f.offset <= hi && lo <= hi
    ensures p.fin == f.fin
    ensures p.offset == (if f.offset < lo then lo else f.offset)
    ensures p.End() == (if f.End() > hi then hi else f.End())
  {
    CutTail(CutHead(f, lo), hi)
  }

  lemma {:induction false} CutHeadIsPiece(f: StreamFrame, lo: nat)
    requires lo <= f.End()
    ensures CutHead(f, lo).PieceOf(f)
  {
    if f.offset < lo {
      DropIsPiece(f, lo - f.offset);
    } else {
      WholeIsPiece(f);
    }
  }

  lemma {:induction false} CutTailIsPiece(f: StreamFrame, hi: nat)
    requires f.offset <= hi
    ensures CutTail(f, hi).PieceOf(f)
  {
    if f.End() > hi {
      TakeIsPiece(f, hi - f.offset);
    } else {
      WholeIsPiece(f);
    }
  }

  lemma {:induction false} TrimIsPiece(f: StreamFrame, lo: nat, hi: nat)
    requires lo <= f.End() && f.offset <= hi && lo <= hi
    ensures Trim(f, lo, hi).PieceOf(f)
  {
    CutHeadIsPiece(f, lo);
    CutTailIsPiece(CutHead(f, lo), hi);
    PieceOfPiece(Trim(f, lo, hi), CutHead(f, lo), f);
  }

  lemma {:induction false} MissingInside(s: SorterState, frame: StreamFrame, cut: StreamFrame, i: nat, m: nat, x: nat)
    requires GapsOk(s.gaps) && CutFrom(s, frame, cut)
    requires SkippedGaps(s.gaps, i, cut.offset) && i <= m < |s.gaps|
    requires EndGapAt(s.gaps, i, m, cut.End(), s.gaps[m])
    requires frame.offset <= x < frame.End() && InGap(s.gaps, x)
    ensures s.gaps[i].start <= x < s.gaps[m].end && cut.offset <= x
  {
    var t :| 0 <= t < |s.gaps| && s.gaps[t].start <= x < s.gaps[t].end;
  }

  lemma {:induction false} TrimCuts(s: SorterState, frame: StreamFrame, cut: StreamFrame, i: nat, m: nat)
    requires GapsOk(s.gaps) && frame.End() < MAX_BYTE_COUNT && CutFrom(s, frame, cut)
    requires SkippedGaps(s.gaps, i, cut.offset) && i <= m < |s.gaps|
    requires cut.offset < s.gaps[i].end && s.gaps[i].start < cut.End()
    requires EndGapAt(s.gaps, i, m, cut.End(), s.gaps[m])
    ensures Trimmed(s.gaps, frame, Trim(cut, s.gaps[i].start, s.gaps[m].end), i, m)
  {
    var p := Trim(cut, s.gaps[i].start, s.gaps[m].end);
    TrimIsPiece(cut, s.gaps[i].start, s.gaps[m].end);
    PieceOfPiece(p, cut, frame);
    forall x | frame.offset <= x < frame.End() && InGap(s.gaps, x)
      ensures p.offset <= x < p.End()
    {
      MissingInside(s, frame, cut, i, m, x);
    }
  }

  class Sorter {
    var queued: map<nat, StreamFrame>
    var readPosition: nat
    var gaps: seq<Interval>

    function State(): SorterState
      reads this
    {
      SorterState(queued, readPosition, gaps)
    }

    constructor ()
      ensures State() == InitialState()
    {
      queued := map[];
      readPosition := 0;
      gaps := [Interval(0, MAX_BYTE_COUNT)];
    }

    method Push(frame: StreamFrame) returns (r: PushResult)
      requires Valid(State()) && frame.End() <= MAX_BYTE_COUNT
      modifies this
      ensures PushRel(old(State()), frame, r, State())
    {
      if |frame.data| == 0 {
        if frame.fin {
          FinKeepsExactly(State(), frame);
          queued := queued[frame.offset := frame];
          return Pushed;
        }
        return EmptyStreamData;
      }
      var f := frame;
      if f.offset in queued {
        var oldFrame := queued[f.offset];
        if |f.data| <= |oldFrame.data| {
          QueuedBelowMax(State(), f.offset);
          return Duplicate;
        }
        f := f.DropHead(|oldFrame.data|);
      }
      CutPastGapEnds(State(), f);
      r := PushRest(frame, f);
    }

    /** The rest of Push, once the bytes of an entry at the same offset are cut off. */
    method PushRest(ghost frame: StreamFrame, cut: StreamFrame) returns (r: PushResult)
      requires Valid(State()) && frame.End() <= MAX_BYTE_COUNT && |frame.data| > 0
      requires CutFrom(State(), frame, cut)
      modifies this
      ensures PushRel(old(State()), frame, r, State())
    {
      // skip all gaps that lie before the frame
      var i := 0;
      while i < |gaps| && cut.offset > gaps[i].end && cut.End() > gaps[i].start
        invariant SkippedGaps(gaps, i, cut.offset)
      {
        i := i + 1;
      }
      assert i < |gaps|;  // "no gap found" cannot happen
      if cut.End() <= gaps[i].start {
        SkippedAllGot(State(), frame, cut, i);
        return Duplicate;
      }
      StartsInGap(State(), frame, cut, i);
      r := FillGaps(State(), frame, cut, i);
    }

    /** Trims the frame to the gaps it fills, updates them and queues the frame. */
    method FillGaps(ghost s: SorterState, ghost frame: StreamFrame, cut: StreamFrame, i: nat) returns (r: PushResult)
      requires s == State() && Valid(s) && frame.End() <= MAX_BYTE_COUNT && |frame.data| > 0
      requires CutFrom(s, frame, cut) && !AllGot(s, frame)
      requires SkippedGaps(gaps, i, cut.offset) && i < |gaps|
      requires cut.offset < gaps[i].end && gaps[i].start < cut.End()
      modifies this
      ensures PushRel(s, frame, r, State())
    {
      var gap := gaps[i];
      var noEndGap, e, endGap;
      ghost var m;
      noEndGap, e, endGap, m := CloseGaps(i, cut.End());
      if noEndGap {
        PushNoEndGap(s, frame, State());
        r := NoEndGap;
      } else {
        // cut off what lies before the first gap and behind the last one
        var f := Trim(cut, gap.start, endGap.end);
        TrimCuts(s, frame, cut, i, m);
        AdjustGaps(s.gaps, i, e, m, endGap, f.offset, f.End());
        r := QueueFrame(s, frame, f, i, m);
      }
    }

    method QueueFrame(ghost s: SorterState, ghost frame: StreamFrame, f: StreamFrame, ghost i: nat, ghost m: nat) returns (r: PushResult)
      requires Valid(s) && |frame.data| > 0
      requires Trimmed(s.gaps, frame, f, i, m) && frame.End() < MAX_BYTE_COUNT && !AllGot(s, frame)
      requires State() == SorterState(DropSwallowed(s.queued, s.gaps, i, m), s.readPosition, Punch(s.gaps, i, m, f.offset, f.End()))
      modifies this`queued
      ensures PushRel(s, frame, r, State())
    {
      PushEnds(s, frame, f, i, m, State());
      if |gaps| > MAX_GAPS {
        r := TooManyGaps;
      } else {
        queued := queued[f.offset := f];
        r := Pushed;
      }
    }

    /** Finds the highest gap whose start lies before end. Gaps in between leave the list, and so
    does the first queued frame behind each gap passed. The gap found may itself have left the
    list; its value is still used. */
    method CloseGaps(i: nat, end: nat) returns (noEndGap: bool, e: nat, endGap: Interval, ghost m: nat)
      requires i < |gaps| && gaps[|gaps| - 1].end == MAX_BYTE_COUNT && gaps[i].start < end <= MAX_BYTE_COUNT
      requires forall t :: 0 <= t < |gaps| ==> gaps[t].start < gaps[t].end <= MAX_BYTE_COUNT
      modifies this`gaps, this`queued
      ensures noEndGap <==> end == MAX_BYTE_COUNT
      ensures !noEndGap ==> i <= m < |old(gaps)| && EndGapAt(old(gaps), i, m, end, endGap)
      ensures !noEndGap ==> queued == DropSwallowed(old(queued), old(gaps), i, m)
      ensures !noEndGap ==> RemainingGaps(old(gaps), i, m, e, end, gaps)
    {
      ghost var g := gaps;
      noEndGap, e, endGap, m := false, i, gaps[i], i;
      while end >= endGap.end
        invariant i <= m < |g| && endGap == g[m] && g[m].start < end
        invariant queued == DropSwallowed(old(queued), g, i, m)
        invariant if m == i then e == i && gaps == g else e == i + 1 && gaps == g[..i + 1] + g[m..]
        decreases |g| - m
      {
        var next := e + 1;
        if next == |gaps| {
          assert m == |g| - 1;
          return true, e, endGap, m;
        }
        if e != i {
          RemoveNext(g, i, m);
          gaps := gaps[..e] + gaps[e + 1..];
          next := e;
        }
        assert gaps == g[..i + 1] + g[m + 1..];
        assert gaps[next] == g[m + 1] && g[m + 1].start < g[m + 1].end <= MAX_BYTE_COUNT;
        if end <= gaps[next].start {
          return false, e, endGap, m;
        }
        DropNext(old(queued), g, i, m);
        queued := queued - {endGap.end};
        e, endGap, m := next, gaps[next], m + 1;
      }
    }

    /** Shrinks, splits or removes the gaps the frame fills. */
    method AdjustGaps(ghost g: seq<Interval>, i: nat, e: nat, ghost m: nat, endGap: Interval, start: nat, end: nat)
      requires i <= m < |g| && endGap == g[m] && RemainingGaps(g, i, m, e, end, gaps)
      requires start < g[i].end && end <= g[m].end && (m > i ==> g[i].end < end)
      modifies this`gaps
      ensures gaps == Punch(g, i, m, start, end)
    {
      var gap := gaps[i];
      if start == gap.start {
        var at := e;
        if end >= gap.end {
          gaps := gaps[..i] + gaps[i + 1..];
          at := if e > i then e - 1 else e;
        }
        if end < endGap.end {
          gaps := gaps[at := Interval(end, endGap.end)];
        }
      } else if end == endGap.end {
        gaps := gaps[i := Interval(gap.start, start)];
      } else if e == i {
        gaps := gaps[..i] + [Interval(gap.start, start), Interval(end, gap.end)] + gaps[i + 1..];
      } else {
        gaps := gaps[i := Interval(gap.start, start)][e := Interval(end, endGap.end)];
      }
    }

    method Head() returns (r: Option<StreamFrame>)
      ensures r == HeadOf(State())
    {
      r := if readPosition in queued then Some(queued[readPosition]) else None;
    }

    method Pop() returns (r: Option<StreamFrame>)
      requires Valid(State())
      modifies this
      ensures PopRel(old(State()), r, State())
    {
      r := Head();
      if r.Some? {
        readPosition := readPosition + |r.value.data|;
        queued := queued - {r.value.offset};
      }
    }
  }

  // ----- whole runs -----

  /** The frame popped is not part of the chain from the new read position. */
  lemma {:induction false} PoppedOffChain(s: SorterState, t: SorterState)
    requires GapsOk(s.gaps) && t.readPosition <= s.gaps[0].start && t.queued == s.queued - {s.readPosition}
    requires t.readPosition > s.readPosition || s.readPosition == s.gaps[0].start
    ensures forall k :: OnChain(s.queued, t.readPosition, s.gaps, k) ==> SameAt(s.queued, t.queued, k)
  {
    forall k | OnChain(s.queued, t.readPosition, s.gaps, k)
      ensures SameAt(s.queued, t.queued, k)
    {
      OnChainQueued(s.queued, t.readPosition, s.gaps, k);
      OnChainReceived(s.queued, t.readPosition, s.gaps, k);
    }
  }

  lemma {:induction false} PopKeepsValid(s: SorterState, r: Option<StreamFrame>, t: SorterState)
    requires Valid(s) && PopRel(s, r, t)
    ensures Valid(t)
    ensures r.Some? && |r.value.data| > 0 ==> s.readPosition < s.gaps[0].start
  {
    LinkedStarts(s);
    if r.Some? {
      if |r.value.data| > 0 {
        assert !InGap(s.gaps, s.readPosition);
        assert s.gaps[0].start <= s.readPosition ==> InGap(s.gaps, s.readPosition);
      }
      ChainBound(s.queued, t.readPosition, s.gaps[0].start);
      PoppedOffChain(s, t);
      LinkedSame(s.queued, t.queued, t.readPosition, s.gaps);
    }
  }

  /** Head returns data exactly when the byte at the read position has been received; otherwise
  everything before the first gap has been handed out. */
  lemma {:induction false} HeadComplete(s: SorterState)
    requires Valid(s)
    ensures HeadOf(s).Some? && |HeadOf(s).value.data| > 0 <==> Got(s, s.readPosition)
    ensures !Got(s, s.readPosition) ==> s.readPosition == s.gaps[0].start
  {
    LinkedStarts(s);
    if s.readPosition == s.gaps[0].start {
      GapStartMissing(s, 0);
    } else {
      assert !InGap(s.gaps, s.readPosition);
    }
  }

  datatype Event = PushEvent(frame: StreamFrame, result: PushResult) | PopEvent(popped: Option<StreamFrame>)

  /** One call that does not close the connection. No empty FIN frame overwrites data. */
  ghost predicate Step(s: SorterState, e: Event, t: SorterState) {
    match e
    case PushEvent(f, r) =>
      && f.End() <= MAX_BYTE_COUNT && !Overwrites(s, f)
      && PushRel(s, f, r, t) && (r == Pushed || r == Duplicate || r == EmptyStreamData)
    case PopEvent(r) => PopRel(s, r, t)
  }

  ghost predicate IsRun(states: seq<SorterState>, events: seq<Event>) {
    && |states| == |events| + 1
    && states[0] == InitialState()
    && (forall i :: 0 <= i < |events| ==> Step(states[i], events[i], states[i + 1]))
  }

  ghost predicate Covers(e: Event, x: int) {
    e.PushEvent? && e.frame.offset <= x < e.frame.End()
  }

  /** The bytes handed out by the pops of a run. */
  ghost function Delivered(events: seq<Event>): seq<byte> {
    if events == [] then []
    else
      var last := events[|events| - 1];
      Delivered(events[..|events| - 1])
      + (if last.PopEvent? && last.popped.Some? then last.popped.value.data else [])
  }

  /** Every queued frame is an exact slice of the stream. */
  ghost predicate QueuedSlices(s: SorterState, stream: seq<byte>) {
    forall k :: k in s.queued ==> s.queued[k].SliceOf(stream)
  }

  lemma {:induction false} PushKeepsSlices(s: SorterState, f: StreamFrame, r: PushResult, t: SorterState, stream: seq<byte>)
    requires QueuedSlices(s, stream) && f.SliceOf(stream)
    requires PushRel(s, f, r, t) && r != TooManyGaps && r != NoEndGap
    ensures QueuedSlices(t, stream)
  {
    forall k | k in t.queued
      ensures t.queued[k].SliceOf(stream)
    {
      if t.queued[k].PieceOf(f) {
        PieceIsSlice(t.queued[k], f, stream);
      }
    }
  }

  /** Gap refinement: in every reachable state the invariant holds and the gaps are exactly the
  complement of the bytes pushed so far. */
  lemma {:induction false} GapsRefineHistory(states: seq<SorterState>, events: seq<Event>)
    requires IsRun(states, events)
    ensures Valid(states[|events|])
    ensures forall x :: Got(states[|events|], x) <==> exists i :: 0 <= i < |events| && Covers(events[i], x)
    decreases |events|
  {
    var n := |events|;
    if n == 0 {
      InitialValid();
    } else {
      var s, e, t, before := states[n - 1], events[n - 1], states[n], events[..n - 1];
      GapsRefineHistory(states[..n], before);
      assert Step(s, e, t);
      StepGot(s, e, t);
      forall x
        ensures Got(t, x) <==> exists i :: 0 <= i < n && Covers(events[i], x)
      {
        CoveredSoFar(events, x);
        assert Got(s, x) <==> exists i :: 0 <= i < |before| && Covers(before[i], x);
      }
    }
  }

  lemma {:induction false} InitialValid()
    ensures Valid(InitialState()) && forall x :: !Got(InitialState(), x)
  {
    var s := InitialState();
    assert Chain(map[], 0, 0) && s.gaps[1..] == [];
    forall x
      ensures !Got(s, x)
    {
      assert 0 <= x < MAX_BYTE_COUNT ==> s.gaps[0].start <= x < s.gaps[0].end;
    }
  }

  lemma {:induction false} PushGot(s: SorterState, f: StreamFrame, r: PushResult, t: SorterState, x: int)
    requires PushRel(s, f, r, t) && (r == Pushed || r == Duplicate || r == EmptyStreamData)
    ensures Got(t, x) <==> Got(s, x) || f.offset <= x < f.End()
  {
  }

  lemma {:induction false} StepGot(s: SorterState, e: Event, t: SorterState)
    requires Valid(s) && Step(s, e, t)
    ensures Valid(t) && forall x :: Got(t, x) <==> Got(s, x) || Covers(e, x)
  {
    if e.PopEvent? {
      PopKeepsValid(s, e.popped, t);
    } else {
      forall x ensures Got(t, x) <==> Got(s, x) || Covers(e, x) {
        PushGot(s, e.frame, e.result, t, x);
      }
    }
  }

  lemma {:induction false} CoveredSoFar(events: seq<Event>, x: int)
    requires events != []
    ensures var n, before := |events| - 1, events[..|events| - 1];
            (exists i :: 0 <= i < |events| && Covers(events[i], x)) <==>
            Covers(events[n], x) || exists i :: 0 <= i < |before| && Covers(before[i], x)
  {
    var before := events[..|events| - 1];
    assert forall i :: 0 <= i < |before| ==> before[i] == events[i];
  }

  /** Delivery: the bytes popped are the stream up to the read position, in order, and popping
  stops exactly at the first byte never received, which is where the first gap starts. */
  lemma {:induction false} DeliversStream(states: seq<SorterState>, events: seq<Event>, stream: seq<byte>)
    requires IsRun(states, events)
    requires forall i :: 0 <= i < |events| && events[i].PushEvent? ==> events[i].frame.SliceOf(stream)
    ensures var s := states[|events|];
            && Valid(s) && s.readPosition <= |stream| && Delivered(events) == stream[..s.readPosition]
            && (HeadOf(s).Some? && |HeadOf(s).value.data| > 0 <==> Got(s, s.readPosition))
            && (!Got(s, s.readPosition) ==> s.readPosition == s.gaps[0].start)
  {
    DeliveredSoFar(states, events, stream);
    GapsRefineHistory(states, events);
    HeadComplete(states[|events|]);
  }

  lemma {:induction false} DeliveredSoFar(states: seq<SorterState>, events: seq<Event>, stream: seq<byte>)
    requires IsRun(states, events)
    requires forall i :: 0 <= i < |events| && events[i].PushEvent? ==> events[i].frame.SliceOf(stream)
    ensures QueuedSlices(states[|events|], stream)
    ensures states[|events|].readPosition <= |stream|
    ensures Delivered(events) == stream[..states[|events|].readPosition]
    decreases |events|
  {
    var n := |events|;
    if n > 0 {
      DeliveredSoFar(states[..n], events[..n - 1], stream);
      GapsRefineHistory(states[..n], events[..n - 1]);
      DeliverStep(states[n - 1], events[n - 1], states[n], stream, Delivered(events[..n - 1]));
    }
  }

  lemma {:induction false} DeliverStep(s: SorterState, e: Event, t: SorterState, stream: seq<byte>, before: seq<byte>)
    requires Valid(s) && Step(s, e, t) && (e.PushEvent? ==> e.frame.SliceOf(stream))
    requires QueuedSlices(s, stream) && s.readPosition <= |stream| && before == stream[..s.readPosition]
    ensures QueuedSlices(t, stream) && t.readPosition <= |stream|
    ensures before + (if e.PopEvent? && e.popped.Some? then e.popped.value.data else []) == stream[..t.readPosition]
  {
    if e.PushEvent? {
      PushKeepsSlices(s, e.frame, e.result, t, stream);
    } else if e.popped.Some? {
      assert e.popped.value.SliceOf(stream);
    }
  }

  /** Once Head returns a data frame, pushes leave it in place until it is popped. */
  lemma {:induction false} HeadStable(states: seq<SorterState>, events: seq<Event>, i: nat, j: nat)
    requires IsRun(states, events) && i <= j <= |events|
    requires HeadOf(states[i]).Some? && |HeadOf(states[i]).value.data| > 0
    requires forall n :: i <= n < j ==> events[n].PushEvent?
    ensures HeadOf(states[j]) == HeadOf(states[i])
    decreases j - i
  {
    if i < j {
      GapsRefineHistory(states[..i + 1], events[..i]);
      HeadComplete(states[i]);
      assert Step(states[i], events[i], states[i + 1]);
      HeadStable(states, events, i + 1, j);
    }
  }

  /** An empty FIN frame at the offset of received data hides it: the bytes are marked as received, and
  Head gives none of them. */
  method HiddenData(f: StreamFrame, fin: StreamFrame) returns (sorter: Sorter, head: Option<StreamFrame>)
    requires f.offset == 0 && 0 < |f.data| && f.End() < MAX_BYTE_COUNT
    requires fin.offset == 0 && fin.data == [] && fin.fin
    ensures AllGot(sorter.State(), f) && head == Some(fin) && !Valid(sorter.State())
  {
    sorter := new Sorter();
    InitialValid();
    var r := sorter.Push(f);
    ghost var s := sorter.State();
    FirstPush(f, r, s);
    r := sorter.Push(fin);
    FinHides(s, fin, r, sorter.State());
    head := sorter.Head();
  }

  lemma {:induction false} FirstPush(f: StreamFrame, r: PushResult, s: SorterState)
    requires f.offset == 0 && 0 < |f.data| && f.End() < MAX_BYTE_COUNT && PushRel(InitialState(), f, r, s)
    ensures Valid(s) && AllGot(s, f) && s.readPosition == 0
  {
    InitialValid();
    assert !Got(InitialState(), f.offset);
  }

  lemma {:induction false} FinHides(s: SorterState, fin: StreamFrame, r: PushResult, t: SorterState)
    requires Valid(s) && Got(s, s.readPosition) && fin.offset == s.readPosition && fin.data == [] && fin.fin
    requires PushRel(s, fin, r, t)
    ensures !Valid(t) && HeadOf(t) == Some(fin) && t.gaps == s.gaps
  {
    FirstOnChain(s);
  }

  lemma {:induction false} FirstOnChain(s: SorterState)
    requires Valid(s) && Got(s, s.readPosition)
    ensures OnChain(s.queued, s.readPosition, s.gaps, s.readPosition)
  {
    HeadComplete(s);
    LinkedStarts(s);
    GapStartMissing(s, 0);
  }
}
