/** The scan for a picture's size: markers and segments skipped until a frame header.
    Main results: `FrameIsFound` for streams as sections B.1.1.4 and B.2.2 of ITU-T
    T.81 lay them out, and `FillByteIsMisread` and `TemIsMisread` for what it does not
    allow for.
 */
module JpegScan {
  import opened Outcomes

  type byte = x: int | 0 <= x < 256

  function Pair(b: seq<byte>, i: nat): (n: nat)
    requires i + 2 <= |b|
    ensures n < 0x1_0000
  {
    var hi: int, lo: int := b[i], b[i + 1];
    hi * 0x100 + lo
  }

  predicate IsFrame(m: byte) { m in {0xC0, 0xC1, 0xC2, 0xC3} }

  predicate IsAlone(m: byte) { m == 0xD8 || m == 0xD9 || 0xD0 <= m <= 0xD7 }

  datatype Size = Size(width: nat, height: nat)

  function ScanFrom(b: seq<byte>, i: nat): Option<Size>
    decreases |b| - i
  {
    if i >= |b| - 9 then None
    else if b[i] != 0xFF then ScanFrom(b, i + 1)
    else if IsFrame(b[i + 1]) then Some(Size(Pair(b, i + 7), Pair(b, i + 5)))
    else if IsAlone(b[i + 1]) then ScanFrom(b, i + 2)
    else ScanFrom(b, i + 2 + Pair(b, i + 2))
  }

  function SizeOf(b: seq<byte>): Option<Size> {
    if |b| < 2 || b[0] != 0xFF || b[1] != 0xD8 then None else ScanFrom(b, 2)
  }

  /** jpeg_size: in bounds and finished on every input. */
  method JpegSize(b: seq<byte>) returns (size: Option<Size>)
    ensures size == SizeOf(b)
    ensures !([0xFF, 0xD8] <= b) ==> size.None?
  {
    if |b| < 2 || b[0] != 0xFF || b[1] != 0xD8 {
      return None;
    }
    var i := 2;
    while i < |b| - 9
      invariant i >= 2 && ScanFrom(b, i) == ScanFrom(b, 2)
      decreases |b| - i
    {
      if b[i] != 0xFF {
        i := i + 1;
        continue;
      }
      var m := b[i + 1];
      if IsFrame(m) {
        return Some(Size(Pair(b, i + 7), Pair(b, i + 5)));
      }
      if IsAlone(m) {
        i := i + 2;
        continue;
      }
      i := i + 2 + Pair(b, i + 2);
    }
    return None;
  }

  // -------------------------------------------------------------- streams, written

  /** A marker on its own, of those the scan knows, a marker segment with its parameters,
      or a byte between markers. */
  datatype Segment = Alone(m: byte) | Sized(m: byte, data: seq<byte>) | Stray(b: byte)

  predicate ProperSegment(s: Segment) {
    match s
    case Alone(m) => m in {0xD0, 0xD1, 0xD2, 0xD3, 0xD4, 0xD5, 0xD6, 0xD7, 0xD8, 0xD9}
    case Sized(m, data) =>
      m !in {0xC0, 0xC1, 0xC2, 0xC3, 0xD0, 0xD1, 0xD2, 0xD3, 0xD4, 0xD5, 0xD6, 0xD7, 0xD8, 0xD9} && |data| + 2 < 0x1_0000
    case Stray(b) => b != 0xFF
  }

  function TwoBytes(n: nat): (b: seq<byte>)
    requires n < 0x1_0000
    ensures |b| == 2
  {
    [n / 0x100, n % 0x100]
  }

  function SegmentBytes(s: Segment): (b: seq<byte>)
    requires ProperSegment(s)
    ensures |b| >= 1
  {
    match s
    case Alone(m) => [0xFF, m]
    case Sized(m, data) => [0xFF, m] + TwoBytes(|data| + 2) + data
    case Stray(b) => [b]
  }

  function StreamBytes(segments: seq<Segment>): seq<byte>
    requires forall i :: 0 <= i < |segments| ==> ProperSegment(segments[i])
  {
    if segments == [] then [] else SegmentBytes(segments[0]) + StreamBytes(segments[1..])
  }

  /** A frame header: length, precision, height, width, then its components. */
  datatype Frame = Frame(m: byte, precision: byte, height: nat, width: nat, components: seq<byte>)

  predicate ProperFrame(f: Frame) {
    f.m in {0xC0, 0xC1, 0xC2, 0xC3} && f.height < 0x1_0000 && f.width < 0x1_0000 && 7 + |f.components| < 0x1_0000
  }

  function FrameBytes(f: Frame): seq<byte>
    requires ProperFrame(f)
  {
    [0xFF, f.m] + TwoBytes(7 + |f.components|) + [f.precision] + TwoBytes(f.height) + TwoBytes(f.width) + f.components
  }

  // ------------------------------------------------------------------- what is found

  lemma PairReads(b: seq<byte>, i: nat, n: nat)
    requires i + 2 <= |b| && n < 0x1_0000 && b[i] == TwoBytes(n)[0] && b[i + 1] == TwoBytes(n)[1]
    ensures Pair(b, i) == n
  {
  }

  lemma FrameParts(f: Frame)
    requires ProperFrame(f)
    ensures var b := FrameBytes(f);
            && IsFrame(f.m) && |b| == 9 + |f.components| && b[0] == 0xFF && b[1] == f.m
            && b[5] == TwoBytes(f.height)[0] && b[6] == TwoBytes(f.height)[1]
            && b[7] == TwoBytes(f.width)[0] && b[8] == TwoBytes(f.width)[1]
            && b[2] == (7 + |f.components|) / 0x100
  {
  }

  lemma FrameHere(b: seq<byte>, i: nat, f: Frame)
    requires ProperFrame(f) && i + |FrameBytes(f)| <= |b| && b[i..i + |FrameBytes(f)|] == FrameBytes(f)
    ensures ScanFrom(b, i) == if i + 9 < |b| then Some(Size(f.width, f.height)) else None
  {
    FrameParts(f);
    var p := FrameBytes(f);
    assert forall k :: 0 <= k < |p| ==> b[i + k] == p[k];
    PairReads(b, i + 5, f.height);
    PairReads(b, i + 7, f.width);
  }

  lemma SegmentSkipped(b: seq<byte>, i: nat, s: Segment)
    requires ProperSegment(s) && i + |SegmentBytes(s)| + 9 <= |b| && b[i..i + |SegmentBytes(s)|] == SegmentBytes(s)
    ensures ScanFrom(b, i) == ScanFrom(b, i + |SegmentBytes(s)|)
  {
    var p := SegmentBytes(s);
    assert forall k :: 0 <= k < |p| ==> b[i + k] == p[k];
    if s.Sized? {
      assert p[2] == TwoBytes(|s.data| + 2)[0] && p[3] == TwoBytes(|s.data| + 2)[1];
      PairReads(b, i + 2, |s.data| + 2);
    }
  }

  lemma {:induction false} SegmentsSkipped(b: seq<byte>, i: nat, segments: seq<Segment>)
    requires forall k :: 0 <= k < |segments| ==> ProperSegment(segments[k])
    requires i + |StreamBytes(segments)| + 9 <= |b| && b[i..i + |StreamBytes(segments)|] == StreamBytes(segments)
    ensures ScanFrom(b, i) == ScanFrom(b, i + |StreamBytes(segments)|)
    decreases |segments|
  {
    hide ScanFrom, SegmentBytes, ProperSegment;
    if segments != [] {
      var head, rest := SegmentBytes(segments[0]), StreamBytes(segments[1..]);
      var whole := b[i..i + |StreamBytes(segments)|];
      assert whole[..|head|] == head && whole[|head|..] == rest;
      assert b[i..i + |head|] == whole[..|head|];
      assert b[i + |head|..i + |head| + |rest|] == whole[|head|..];
      SegmentSkipped(b, i, segments[0]);
      SegmentsSkipped(b, i + |head|, segments[1..]);
    }
  }

  lemma Laid(a: seq<byte>, s: seq<byte>, p: seq<byte>, tail: seq<byte>)
    ensures var b := a + s + p + tail;
            && |b| == |a| + |s| + |p| + |tail|
            && b[|a|..|a| + |s|] == s && b[|a| + |s|..|a| + |s| + |p|] == p
            && (forall k :: 0 <= k < |a| ==> b[k] == a[k]) && forall k :: 0 <= k < |p| ==> b[|a| + |s| + k] == p[k]
  {
  }

  lemma SizeIs(b: seq<byte>)
    requires |b| >= 2 && b[0] == 0xFF && b[1] == 0xD8
    ensures SizeOf(b) == ScanFrom(b, 2)
  {
  }

  /** THE FRAME IS FOUND behind any list of segments that are no frames, and its size is
      given width first, exactly if a byte follows that size. */
  lemma FrameIsFound(segments: seq<Segment>, f: Frame, tail: seq<byte>)
    requires ProperFrame(f) && forall k :: 0 <= k < |segments| ==> ProperSegment(segments[k])
    ensures SizeOf([0xFF, 0xD8] + StreamBytes(segments) + FrameBytes(f) + tail)
         == if f.components != [] || tail != [] then Some(Size(f.width, f.height)) else None
  {
    hide *;
    FrameParts(f);
    var s, p := StreamBytes(segments), FrameBytes(f);
    var a: seq<byte> := [0xFF, 0xD8];
    var b := a + s + p + tail;
    Laid(a, s, p, tail);
    assert b[0] == a[0] && b[1] == a[1];
    SizeIs(b);
    SegmentsSkipped(b, 2, segments);
    FrameHere(b, 2 + |s|, f);
  }

  lemma FillHere(b: seq<byte>, i: nat)
    requires i + 9 < |b| && b[i] == 0xFF && b[i + 1] == 0xFF && IsFrame(b[i + 2])
    ensures ScanFrom(b, i) == ScanFrom(b, i + 2 + Pair(b, i + 2)) && Pair(b, i + 2) >= 0xC000
  {
  }

  /** A fill byte before a marker, which the standard allows, is taken for a marker: the
      frame's own marker and the first byte after it are read as a length, and the scan
      goes on that far behind the frame's start - at least 0xC000 bytes. Where the stream
      is shorter nothing is found. */
  lemma FillByteIsMisread(segments: seq<Segment>, f: Frame, tail: seq<byte>)
    requires ProperFrame(f) && forall k :: 0 <= k < |segments| ==> ProperSegment(segments[k])
    ensures var start, jump := 2 + |StreamBytes(segments)|, f.m as int * 0x100 + (7 + |f.components|) / 0x100;
            var b := [0xFF, 0xD8] + StreamBytes(segments) + ([0xFF] + FrameBytes(f)) + tail;
            && jump >= 0xC000 && SizeOf(b) == ScanFrom(b, start + 2 + jump)
            && (|FrameBytes(f)| + |tail| < 0xC000 ==> SizeOf(b).None?)
  {
    hide *;
    FrameParts(f);
    var s, p := StreamBytes(segments), [0xFF] + FrameBytes(f);
    var a: seq<byte> := [0xFF, 0xD8];
    var b := a + s + p + tail;
    var i := 2 + |s|;
    Laid(a, s, p, tail);
    assert b[0] == a[0] && b[1] == a[1];
    SizeIs(b);
    SegmentsSkipped(b, 2, segments);
    assert b[i + 0] == p[0] && b[i + 1] == p[1] && b[i + 2] == p[2] && b[i + 3] == p[3];
    FillHere(b, i);
    PairIs(b, i + 2);
    if |FrameBytes(f)| + |tail| < 0xC000 { ScanEnds(b, i + 2 + Pair(b, i + 2)); }
  }

  lemma PairIs(b: seq<byte>, i: nat)
    requires i + 2 <= |b|
    ensures Pair(b, i) == b[i] as int * 0x100 + b[i + 1] as int
  {
  }

  lemma ScanEnds(b: seq<byte>, i: nat)
    requires i + 9 >= |b|
    ensures ScanFrom(b, i).None?
  {
  }

  const TEM: byte := 0x01

  lemma TemHere(b: seq<byte>, i: nat)
    requires i + 9 < |b| && b[i] == 0xFF && b[i + 1] == TEM
    ensures ScanFrom(b, i) == ScanFrom(b, i + 2 + Pair(b, i + 2))
  {
  }

  /** The one marker without parameters that the scan's list leaves out, TEM, is read as if
      it had a length: the frame's own marker. The scan goes on that far behind it. */
  lemma TemIsMisread(segments: seq<Segment>, f: Frame, tail: seq<byte>)
    requires ProperFrame(f) && forall k :: 0 <= k < |segments| ==> ProperSegment(segments[k])
    ensures var start, jump := 2 + |StreamBytes(segments)|, 0xFF00 + f.m as int;
            var b := [0xFF, 0xD8] + StreamBytes(segments) + ([0xFF, TEM] + FrameBytes(f)) + tail;
            && SizeOf(b) == ScanFrom(b, start + 2 + jump)
            && (|FrameBytes(f)| + |tail| < 0xFF00 ==> SizeOf(b).None?)
  {
    hide *;
    FrameParts(f);
    var s, p := StreamBytes(segments), [0xFF, TEM] + FrameBytes(f);
    var a: seq<byte> := [0xFF, 0xD8];
    var b := a + s + p + tail;
    var i := 2 + |s|;
    Laid(a, s, p, tail);
    assert b[0] == a[0] && b[1] == a[1];
    SizeIs(b);
    SegmentsSkipped(b, 2, segments);
    assert b[i + 0] == p[0] && b[i + 1] == p[1] && b[i + 2] == p[2] && b[i + 3] == p[3];
    TemHere(b, i);
    PairIs(b, i + 2);
    if |FrameBytes(f)| + |tail| < 0xFF00 { ScanEnds(b, i + 2 + Pair(b, i + 2)); }
  }
}
