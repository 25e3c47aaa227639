/** Stream frames and the byte ranges they carry (internal/wire/stream_frame.go). */
module Frames {
  import opened Basics

  /** Offsets are 64-bit unsigned; the largest value closes the last gap of a sorter. */
  const MAX_BYTE_COUNT: nat := 0xFFFF_FFFF_FFFF_FFFF

  datatype StreamFrame = StreamFrame(
    streamID: nat,
    offset: nat,
    data: seq<byte>,
    fin: bool,
    dataLenPresent: bool
  ) {
    function End(): nat { offset + |data| }

    /** The frame without its first n bytes. */
    function DropHead(n: nat): StreamFrame
      requires n <= |data|
    {
      this.(offset := offset + n, data := data[n..])
    }

    /** The frame's first n bytes. The FIN mark stays where it was. */
    function TakeHead(n: nat): StreamFrame
      requires n <= |data|
    {
      this.(data := data[..n])
    }

    /** This frame carries a contiguous part of f's bytes, at the same offsets. */
    ghost predicate PieceOf(f: StreamFrame) {
      && streamID == f.streamID
      && f.offset <= offset && End() <= f.End()
      && data == f.data[offset - f.offset..End() - f.offset]
    }

    /** This frame carries exactly the bytes of s at its offsets. */
    ghost predicate SliceOf(s: seq<byte>) {
      End() <= |s| && data == s[offset..End()]
    }
  }

  lemma {:induction false} DropIsPiece(f: StreamFrame, n: nat)
    requires n <= |f.data|
    ensures f.DropHead(n).PieceOf(f)
  {
    assert f.data[n..] == f.data[n..|f.data|];
  }

  lemma {:induction false} TakeIsPiece(f: StreamFrame, n: nat)
    requires n <= |f.data|
    ensures f.TakeHead(n).PieceOf(f)
  {
    assert f.data[..n] == f.data[0..n];
  }

  lemma {:induction false} WholeIsPiece(f: StreamFrame)
    ensures f.PieceOf(f)
  {
    assert f.data[0..|f.data|] == f.data;
  }

  lemma PieceIsSlice(g: StreamFrame, f: StreamFrame, s: seq<byte>)
    requires g.PieceOf(f) && f.SliceOf(s)
    ensures g.SliceOf(s)
  {
    var from, to := g.offset - f.offset, g.End() - f.offset;
    forall i | 0 <= i < |g.data| ensures g.data[i] == s[g.offset..g.End()][i] {
      assert g.data[i] == f.data[from..to][i] == f.data[from + i];
      assert f.data[from + i] == s[f.offset..f.End()][from + i] == s[f.offset + (from + i)];
    }
  }

  lemma PieceOfPiece(h: StreamFrame, g: StreamFrame, f: StreamFrame)
    requires h.PieceOf(g) && g.PieceOf(f)
    ensures h.PieceOf(f)
  {
    var from, to, base := h.offset - g.offset, h.End() - g.offset, g.offset - f.offset;
    forall i | 0 <= i < |h.data| ensures h.data[i] == f.data[h.offset - f.offset..h.End() - f.offset][i] {
      assert h.data[i] == g.data[from..to][i] == g.data[from + i];
      assert g.data[from + i] == f.data[base..g.End() - f.offset][from + i] == f.data[base + (from + i)];
    }
  }
}
