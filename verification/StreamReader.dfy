/** The receiving half of a stream (stream.go): Read copies from the head frame of the sorter into
the caller's buffer and pops the frame once all of it has been copied. */
module StreamReader {
  import opened Basics
  import opened Frames
  import opened FrameSorter

  /** Why Read returned: the buffer is full, no more data is here, the stream has ended, nothing has
  arrived yet so that Read would wait, or the stream was reset or cancelled. */
  datatype ReadStatus = Filled | NoMoreData | EndOfStream | WouldBlock | Failed

  /** The next bytes of a frame continue what has been read. */
  lemma {:induction false} NextBytes(f: StreamFrame, stream: seq<byte>, readOffset: nat, m: nat)
    requires f.SliceOf(stream) && f.offset <= readOffset && readOffset + m <= f.End()
    ensures var pos := readOffset - f.offset;
            && f.data[pos..pos + m] == stream[readOffset..readOffset + m]
            && stream[..readOffset] + f.data[pos..pos + m] == stream[..readOffset + m]
  {
    var pos := readOffset - f.offset;
    assert f.data[pos..pos + m] == stream[readOffset..readOffset + m];
  }

  /** A buffer that holds the last n bytes read holds n + m of them with the next m. */
  lemma {:induction false} Copied(f: StreamFrame, stream: seq<byte>, readOffset: nat, n: nat, m: nat, buf: seq<byte>)
    requires f.SliceOf(stream) && f.offset <= readOffset && readOffset + m <= f.End()
    requires n <= readOffset && buf == stream[readOffset - n..readOffset]
    ensures var pos := readOffset - f.offset;
            buf + f.data[pos..pos + m] == stream[readOffset - n..readOffset + m]
  {
    NextBytes(f, stream, readOffset, m);
    var a, b, c := readOffset - n, readOffset, readOffset + m;
    assert stream[a..b] + stream[b..c] == stream[a..c];
  }

  /** The read offset lies in or right behind the head frame. */
  ghost predicate Positioned(s: SorterState, readOffset: nat) {
    && s.readPosition <= readOffset
    && (readOffset > s.readPosition ==> HeadOf(s).Some? && readOffset <= HeadOf(s).value.End())
  }

  /** A queued frame with a FIN ends at the offset. */
  ghost predicate EndsFrame(queued: map<nat, StreamFrame>, offset: nat) {
    exists k :: k in queued && queued[k].fin && queued[k].End() == offset
  }

  /** The head frame ends the stream, and what is left of it fits a buffer. */
  predicate FinFits(head: Option<StreamFrame>, readOffset: nat, room: nat) {
    head.Some? && head.value.fin && room > 0 && head.value.End() - readOffset <= room
  }

  /** Entries are only removed. */
  ghost predicate Within(a: map<nat, StreamFrame>, b: map<nat, StreamFrame>) {
    forall k :: k in a ==> k in b && b[k] == a[k]
  }

  lemma {:induction false} WithinEnds(a: map<nat, StreamFrame>, b: map<nat, StreamFrame>, c: map<nat, StreamFrame>, offset: nat)
    requires Within(a, b) && Within(b, c)
    ensures Within(a, c) && (EndsFrame(b, offset) ==> EndsFrame(c, offset))
  {
  }

  class Reader {
    const sorter: Sorter
    var readOffset: nat
    var finishedReading: bool
    var cancelled: bool
    var resetLocally: bool

    constructor (sorter: Sorter)
      requires sorter.State() == InitialState()
      ensures this.sorter == sorter && readOffset == 0 && !finishedReading && !cancelled && !resetLocally
    {
      this.sorter, readOffset := sorter, 0;
      finishedReading, cancelled, resetLocally := false, false, false;
    }

    ghost predicate Valid(stream: seq<byte>)
      reads this, sorter
    {
      && FrameSorter.Valid(sorter.State()) && QueuedSlices(sorter.State(), stream)
      && Positioned(sorter.State(), readOffset) && readOffset <= |stream|
    }

    /** Fills the buffer with the bytes of the stream that follow those read before. It stops early
    only at a byte that has not been received, or behind a frame with a FIN. */
    method Read(p: array<byte>, ghost stream: seq<byte>) returns (n: nat, status: ReadStatus)
      requires Valid(stream)
      modifies this, sorter, p
      ensures Valid(stream)
      ensures n <= p.Length && readOffset == old(readOffset) + n && p[..n] == stream[old(readOffset)..readOffset]
      ensures status == Filled ==> n == p.Length
      ensures status == NoMoreData ==> n > 0
      ensures status == NoMoreData || status == WouldBlock ==> Starved()
      ensures status == Failed || status == WouldBlock ==> n == 0
      ensures status == Failed <==> old(cancelled || resetLocally)
      ensures status == EndOfStream <==> finishedReading && status != Failed
      ensures status == EndOfStream && !old(finishedReading) ==> EndsFrame(old(sorter.queued), readOffset)
      ensures old(!cancelled && !resetLocally && !finishedReading && FinFits(HeadOf(sorter.State()), readOffset, p.Length)) ==>
                status == EndOfStream && readOffset == old(HeadOf(sorter.State())).value.End()
    {
      if cancelled || resetLocally {
        return 0, Failed;
      }
      if finishedReading {
        return 0, EndOfStream;
      }
      n, status := ReadFrames(p, stream);
    }

    /** Nothing has been received behind what was read. */
    ghost predicate Starved()
      reads this, sorter
    {
      sorter.readPosition == readOffset && !Got(sorter.State(), readOffset)
    }

    /** The loop of Read. */
    method ReadFrames(p: array<byte>, ghost stream: seq<byte>) returns (n: nat, status: ReadStatus)
      requires Valid(stream) && !finishedReading
      modifies this`readOffset, this`finishedReading, sorter, p
      ensures Valid(stream) && n <= p.Length && readOffset == old(readOffset) + n
      ensures p[..n] == stream[old(readOffset)..readOffset]
      ensures status == Filled ==> n == p.Length
      ensures status == NoMoreData ==> n > 0 && Starved()
      ensures status == WouldBlock ==> n == 0 && Starved()
      ensures status != Failed && (status == EndOfStream <==> finishedReading)
      ensures status == EndOfStream ==> EndsFrame(old(sorter.queued), readOffset)
      ensures old(FinFits(HeadOf(sorter.State()), readOffset, p.Length)) ==>
                status == EndOfStream && readOffset == old(HeadOf(sorter.State())).value.End()
    {
      n, status := 0, Filled;
      while status == Filled && n < p.Length
        invariant n <= p.Length && readOffset == old(readOffset) + n && Valid(stream)
        invariant p[..n] == stream[readOffset - n..readOffset]
        invariant status == NoMoreData ==> n > 0 && Starved()
        invariant status == WouldBlock ==> n == 0 && Starved()
        invariant status != Failed && (status == EndOfStream <==> finishedReading)
        invariant status == EndOfStream ==> EndsFrame(old(sorter.queued), readOffset)
        invariant Within(sorter.queued, old(sorter.queued))
        invariant old(FinFits(HeadOf(sorter.State()), readOffset, p.Length)) ==>
                    if status == Filled then n == 0 && sorter.State() == old(sorter.State())
                    else status == EndOfStream && readOffset == old(HeadOf(sorter.State())).value.End()
        decreases status == Filled, p.Length - n, |sorter.queued|
      {
        ghost var before := sorter.queued;
        n, status := ReadFrame(p, n, stream);
        WithinEnds(sorter.queued, before, old(sorter.queued), readOffset);
      }
    }

    /** One round of Read's loop: look at the head frame, copy from it, pop it if all is copied. */
    method ReadFrame(p: array<byte>, n: nat, ghost stream: seq<byte>) returns (n': nat, status: ReadStatus)
      requires Valid(stream) && n < p.Length && n <= readOffset && p[..n] == stream[readOffset - n..readOffset] && !finishedReading
      modifies this`readOffset, this`finishedReading, sorter, p
      ensures Valid(stream) && n <= n' <= p.Length && readOffset - n' == old(readOffset) - n
      ensures p[..n'] == stream[readOffset - n'..readOffset]
      ensures old(HeadOf(sorter.State())).None? ==> n' == n && status == if n > 0 then NoMoreData else WouldBlock
      ensures old(HeadOf(sorter.State())).Some? ==>
                var f := old(HeadOf(sorter.State())).value;
                if f.End() - old(readOffset) <= p.Length - n then
                  readOffset == f.End() && status == if f.fin then EndOfStream else Filled
                else n' == p.Length && status == Filled
      ensures status == NoMoreData || status == WouldBlock ==> Starved()
      ensures status == Filled ==> n' > n || |sorter.queued| < |old(sorter.queued)|
      ensures status == EndOfStream <==> finishedReading && !old(finishedReading)
      ensures status != EndOfStream ==> finishedReading == old(finishedReading)
      ensures status == EndOfStream ==> EndsFrame(old(sorter.queued), readOffset)
      ensures Within(sorter.queued, old(sorter.queued))
    {
      var frame := sorter.Head();
      if frame.None? {
        HeadComplete(sorter.State());
        n', status := n, if n > 0 then NoMoreData else WouldBlock;
      } else {
        var f := frame.value;
        var m := CopyFrom(f, p, n, stream);
        n' := n + m;
        status := FinishFrame(f, stream);
      }
    }

    /** Leaves the head frame once all of it has been copied. */
    method FinishFrame(f: StreamFrame, ghost stream: seq<byte>) returns (status: ReadStatus)
      requires Valid(stream) && HeadOf(sorter.State()) == Some(f) && !finishedReading
      modifies this`finishedReading, sorter
      ensures Valid(stream) && Within(sorter.queued, old(sorter.queued))
      ensures if readOffset >= f.End()
              then |sorter.queued| < |old(sorter.queued)| && status == (if f.fin then EndOfStream else Filled)
              else status == Filled
      ensures finishedReading == (status == EndOfStream)
      ensures status == EndOfStream ==> exists k :: k in old(sorter.queued) && old(sorter.queued)[k] == f
    {
      status := Filled;
      if readOffset >= f.End() {
        PopHead(stream);
        if f.fin {
          finishedReading, status := true, EndOfStream;
        }
      }
    }

    /** Pops the head frame once all of it has been copied. */
    method PopHead(ghost stream: seq<byte>)
      requires Valid(stream) && HeadOf(sorter.State()).Some? && readOffset >= HeadOf(sorter.State()).value.End()
      modifies sorter
      ensures Valid(stream) && sorter.queued == old(sorter.queued) - {old(sorter.readPosition)}
    {
      ghost var s := sorter.State();
      var popped := sorter.Pop();
      PopKeepsValid(s, popped, sorter.State());
    }

    /** Copies what fits of the rest of the head frame. */
    method CopyFrom(f: StreamFrame, p: array<byte>, n: nat, ghost stream: seq<byte>) returns (m: nat)
      requires Valid(stream) && n <= p.Length && HeadOf(sorter.State()) == Some(f)
      requires n <= readOffset && p[..n] == stream[readOffset - n..readOffset]
      modifies this`readOffset, p
      ensures n + m <= p.Length && readOffset == old(readOffset) + m && Valid(stream)
      ensures p[..n + m] == stream[old(readOffset) - n..readOffset]
      ensures n + m == p.Length || readOffset == f.End()
    {
      var pos := readOffset - f.offset;
      m := if p.Length - n < |f.data| - pos then p.Length - n else |f.data| - pos;
      Copied(f, stream, readOffset, n, m, p[..n]);
      CopyInto(p, n, f.data, pos, m);
      readOffset := readOffset + m;
      assert sorter.State() == old(sorter.State());
    }

    /** copy */
    static method CopyInto(p: array<byte>, n: nat, data: seq<byte>, pos: nat, m: nat)
      requires n + m <= p.Length && pos + m <= |data|
      modifies p
      ensures p[..n + m] == old(p[..n]) + data[pos..pos + m]
    {
      forall i | 0 <= i < m {
        p[n + i] := data[pos + i];
      }
    }
  }
}
