/** Reading image dimensions from PNG and JPEG headers, and the document size check. */
module ImageHeader {
  import opened Prelude

  type byte = x: int | 0 <= x < 256

  datatype Dims = Dims(width: nat, height: nat)

  datatype Mime = Jpeg | Png

  // ---------------------------------------------------------------- big-endian numbers

  function U16(b: seq<byte>, i: nat): (r: nat)
    requires i + 1 < |b|
    ensures r < 0x1_0000
  {
    256 * (b[i] as int) + b[i + 1]
  }

  function U32(b: seq<byte>, i: nat): nat
    requires i + 3 < |b|
  {
    0x1_0000 * U16(b, i) + U16(b, i + 2)
  }

  function Bytes16(n: nat): (r: seq<byte>)
    requires n < 0x1_0000
    ensures |r| == 2 && U16(r, 0) == n
  {
    [n / 256, n % 256]
  }

  function Bytes32(n: nat): (r: seq<byte>)
    requires n < 0x1_0000_0000
    ensures |r| == 4 && U32(r, 0) == n
  {
    var high, low := n / 0x1_0000, n % 0x1_0000;
    [high / 256, high % 256, low / 256, low % 256]
  }

  // ---------------------------------------------------------------- signatures

  const PNG_SIGNATURE: seq<byte> := [0x89, 0x50, 0x4e, 0x47, 0x0d, 0x0a, 0x1a, 0x0a]

  function DetectImageMime(b: seq<byte>): Option<Mime> {
    if |b| >= 3 && b[0] == 0xff && b[1] == 0xd8 && b[2] == 0xff then Some(Jpeg)
    else if |b| >= 8 && b[0] == 0x89 && b[1] == 0x50 && b[2] == 0x4e && b[3] == 0x47
         && b[4] == 0x0d && b[5] == 0x0a && b[6] == 0x1a && b[7] == 0x0a then Some(Png)
    else None
  }

  // ---------------------------------------------------------------- the JPEG scan

  /** Markers without a payload. */
  predicate Standalone(marker: byte) { marker == 0xd8 || marker == 0xd9 || 0xd0 <= marker <= 0xd7 || marker == 0x01 }

  /** Start-of-frame markers: C0 to CF without the tables C4, C8, CC. */
  predicate IsSOF(marker: byte) { 0xc0 <= marker <= 0xcf && marker != 0xc4 && marker != 0xc8 && marker != 0xcc }

  /** Scanning the bytes that are left for a frame header. */
  function Scan(s: seq<byte>): Option<Dims>
    decreases |s|
  {
    if |s| <= 9 then None
    else if s[0] != 0xff then Scan(s[1..])
    else if Standalone(s[1]) then Scan(s[2..])
    else if IsSOF(s[1]) then Some(Dims(U16(s, 7), U16(s, 5)))
    else if 2 + U16(s, 2) > |s| then None
    else Scan(s[2 + U16(s, 2)..])
  }

  /** MAIN. The markers, one by one: thirteen start a frame, eleven stand alone. */
  lemma MarkersExactly(m: byte)
    ensures IsSOF(m) <==> m in {0xc0, 0xc1, 0xc2, 0xc3, 0xc5, 0xc6, 0xc7, 0xc9, 0xca, 0xcb, 0xcd, 0xce, 0xcf}
    ensures Standalone(m) <==> m in {0x01, 0xd0, 0xd1, 0xd2, 0xd3, 0xd4, 0xd5, 0xd6, 0xd7, 0xd8, 0xd9}
  {
  }

  predicate LooksPng(b: seq<byte>) { |b| >= 24 && b[0] == 0x89 && b[1] == 0x50 && b[2] == 0x4e && b[3] == 0x47 }

  predicate LooksJpeg(b: seq<byte>) { |b| >= 4 && b[0] == 0xff && b[1] == 0xd8 }

  function Dimensions(b: seq<byte>): Option<Dims> {
    if LooksPng(b) then Some(Dims(U32(b, 16), U32(b, 20)))
    else if LooksJpeg(b) then Scan(b[2..])
    else None
  }

  ghost predicate StartsWith(b: seq<byte>, prefix: seq<byte>) {
    |b| >= |prefix| && forall i :: 0 <= i < |prefix| ==> b[i] == prefix[i]
  }

  /** MAIN. A type is detected exactly by its signature, and dimensions are only ever read off a buffer that starts like one. */
  lemma SignaturesDecide(b: seq<byte>)
    ensures DetectImageMime(b) == Some(Jpeg) <==> StartsWith(b, [0xff, 0xd8, 0xff])
    ensures DetectImageMime(b) == Some(Png) <==> StartsWith(b, [0x89, 0x50, 0x4e, 0x47, 0x0d, 0x0a, 0x1a, 0x0a])
    ensures Dimensions(b).Some? ==>
      (StartsWith(b, [0x89, 0x50, 0x4e, 0x47]) && |b| >= 24) || StartsWith(b, [0xff, 0xd8])
  {
  }

  /** The byte loop: it ends and stays inside the buffer on every input. */
  method ReadImageDimensions(b: seq<byte>) returns (dims: Option<Dims>)
    ensures dims == Dimensions(b)
  {
    if |b| >= 24 && b[0] == 0x89 && b[1] == 0x50 && b[2] == 0x4e && b[3] == 0x47 {
      return Some(Dims(U32(b, 16), U32(b, 20)));
    }
    if |b| >= 4 && b[0] == 0xff && b[1] == 0xd8 {
      var offset := 2;
      while offset + 9 < |b|
        invariant 2 <= offset
        invariant Scan(b[2..]) == if offset <= |b| then Scan(b[offset..]) else None
        decreases |b| - offset
      {
        var s := b[offset..];
        if b[offset] != 0xff {
          assert s[1..] == b[offset + 1..];
          offset := offset + 1;
          continue;
        }
        var marker := b[offset + 1];
        if marker == 0xd8 || marker == 0xd9 || (marker >= 0xd0 && marker <= 0xd7) || marker == 0x01 {
          assert s[2..] == b[offset + 2..];
          offset := offset + 2;
          continue;
        }
        var segLen := U16(b, offset + 2);
        assert U16(s, 2) == segLen;
        if marker >= 0xc0 && marker <= 0xcf && marker != 0xc4 && marker != 0xc8 && marker != 0xcc {
          return Some(Dims(U16(b, offset + 7), U16(b, offset + 5)));
        }
        assert 2 + segLen <= |s| ==> s[2 + segLen..] == b[offset + 2 + segLen..];
        offset := offset + 2 + segLen;
      }
    }
    dims := None;
  }

  // ---------------------------------------------------------------- an encoder, as the standards lay it out

  /** What may come before the frame header: markers alone, and segments with a length and a payload. */
  datatype Segment = Alone(marker: byte) | Table(marker: byte, payload: seq<byte>)

  predicate Legal(seg: Segment) {
    match seg
    case Alone(marker) => Standalone(marker)
    case Table(marker, payload) => !Standalone(marker) && !IsSOF(marker) && |payload| + 2 < 0x1_0000
  }

  function EncodeSegment(seg: Segment): seq<byte>
    requires Legal(seg)
  {
    match seg
    case Alone(marker) => [0xff, marker]
    case Table(marker, payload) => [0xff, marker] + Bytes16(|payload| + 2) + payload
  }

  function EncodeSegments(segs: seq<Segment>): seq<byte>
    requires forall seg :: seg in segs ==> Legal(seg)
  {
    if segs == [] then [] else EncodeSegment(segs[0]) + EncodeSegments(segs[1..])
  }

  /** A frame header up to its count of components. */
  datatype Frame = Frame(marker: byte, length: nat, precision: byte, height: nat, width: nat, components: byte)

  predicate LegalFrame(f: Frame) { IsSOF(f.marker) && f.length < 0x1_0000 && f.height < 0x1_0000 && f.width < 0x1_0000 }

  function EncodeFrame(f: Frame): (r: seq<byte>)
    requires LegalFrame(f)
    ensures |r| == 10
  {
    [0xff, f.marker] + Bytes16(f.length) + [f.precision] + Bytes16(f.height) + Bytes16(f.width) + [f.components]
  }

  function EncodeJpeg(segs: seq<Segment>, f: Frame, rest: seq<byte>): seq<byte>
    requires LegalFrame(f) && forall seg :: seg in segs ==> Legal(seg)
  {
    [0xff, 0xd8] + (EncodeSegments(segs) + (EncodeFrame(f) + rest))
  }

  /** The signature, then an IHDR chunk: length 13, name, width, height. */
  function EncodePng(d: Dims, rest: seq<byte>): seq<byte>
    requires d.width < 0x1_0000_0000 && d.height < 0x1_0000_0000
  {
    PNG_SIGNATURE + [0, 0, 0, 13, 0x49, 0x48, 0x44, 0x52] + Bytes32(d.width) + Bytes32(d.height) + rest
  }

  lemma FrameRead(f: Frame, rest: seq<byte>)
    requires LegalFrame(f)
    ensures Scan(EncodeFrame(f) + rest) == Some(Dims(f.width, f.height))
  {
    var s := EncodeFrame(f) + rest;
    var h, w := Bytes16(f.height), Bytes16(f.width);
    assert s[5] == h[0] && s[6] == h[1] && s[7] == w[0] && s[8] == w[1];
  }

  lemma SegmentSkipped(seg: Segment, t: seq<byte>)
    requires Legal(seg) && |t| >= 10
    ensures Scan(EncodeSegment(seg) + t) == Scan(t)
  {
    var s := EncodeSegment(seg) + t;
    match seg
    case Alone(marker) => assert s[2..] == t;
    case Table(marker, payload) =>
      var len := Bytes16(|payload| + 2);
      assert s[2] == len[0] && s[3] == len[1];
      assert U16(s, 2) == U16(len, 0) == |payload| + 2;
      assert s[2 + (|payload| + 2)..] == t;
  }

  lemma {:induction false} SegmentsSkipped(segs: seq<Segment>, t: seq<byte>)
    requires |t| >= 10 && forall seg :: seg in segs ==> Legal(seg)
    ensures Scan(EncodeSegments(segs) + t) == Scan(t)
  {
    if segs == [] {
      assert [] + t == t;
    } else {
      SegmentsSkipped(segs[1..], t);
      SegmentSkipped(segs[0], EncodeSegments(segs[1..]) + t);
      assert EncodeSegments(segs) + t == EncodeSegment(segs[0]) + (EncodeSegments(segs[1..]) + t);
    }
  }

  /**
   MAIN (round trip). Any segments that hold no frame, then a frame header, then
   anything: the scan returns that frame's height and width.
   */
  lemma JpegRoundTrip(segs: seq<Segment>, f: Frame, rest: seq<byte>)
    requires LegalFrame(f) && forall seg :: seg in segs ==> Legal(seg)
    ensures Dimensions(EncodeJpeg(segs, f, rest)) == Some(Dims(f.width, f.height))
    ensures DetectImageMime(EncodeJpeg(segs, f, rest)) == Some(Jpeg)
  {
    var tail := EncodeSegments(segs) + (EncodeFrame(f) + rest);
    assert EncodeJpeg(segs, f, rest)[2..] == tail;
    SegmentsSkipped(segs, EncodeFrame(f) + rest);
    FrameRead(f, rest);
    StartsWithMarker(segs, EncodeFrame(f) + rest);
  }

  lemma StartsWithMarker(segs: seq<Segment>, t: seq<byte>)
    requires |t| >= 10 && t[0] == 0xff && forall seg :: seg in segs ==> Legal(seg)
    ensures |EncodeSegments(segs) + t| >= 10 && (EncodeSegments(segs) + t)[0] == 0xff
  {
  }

  /** MAIN (round trip). A PNG's width and height are read back, whatever follows the header. */
  lemma PngRoundTrip(d: Dims, rest: seq<byte>)
    requires d.width < 0x1_0000_0000 && d.height < 0x1_0000_0000
    ensures Dimensions(EncodePng(d, rest)) == Some(d)
    ensures DetectImageMime(EncodePng(d, rest)) == Some(Png)
  {
    var b := EncodePng(d, rest);
    var w, h := Bytes32(d.width), Bytes32(d.height);
    assert b[..8] == PNG_SIGNATURE;
    assert b[16] == w[0] && b[17] == w[1] && b[18] == w[2] && b[19] == w[3];
    assert b[20] == h[0] && b[21] == h[1] && b[22] == h[2] && b[23] == h[3];
  }

  /** MAIN (soundness). Dimensions found by the scan stand in a frame header that is really there. */
  lemma {:induction false} ScanSound(s: seq<byte>)
    requires Scan(s).Some?
    ensures exists k :: 0 <= k && FrameAt(s, k) && Scan(s) == Some(Dims(U16(s, k + 7), U16(s, k + 5)))
    decreases |s|
  {
    if s[0] != 0xff {
      ScanSound(s[1..]);
      FrameShifts(s, 1);
    } else if Standalone(s[1]) {
      ScanSound(s[2..]);
      FrameShifts(s, 2);
    } else if !IsSOF(s[1]) {
      ScanSound(s[2 + U16(s, 2)..]);
      FrameShifts(s, 2 + U16(s, 2));
    } else {
      assert FrameAt(s, 0);
    }
  }

  predicate FrameAt(s: seq<byte>, k: nat) { k + 9 < |s| && s[k] == 0xff && IsSOF(s[k + 1]) }

  lemma FrameShifts(s: seq<byte>, n: nat)
    requires n <= |s| && Scan(s) == Scan(s[n..])
    requires exists k :: 0 <= k && FrameAt(s[n..], k) && Scan(s[n..]) == Some(Dims(U16(s[n..], k + 7), U16(s[n..], k + 5)))
    ensures exists k :: 0 <= k && FrameAt(s, k) && Scan(s) == Some(Dims(U16(s, k + 7), U16(s, k + 5)))
  {
    var k :| 0 <= k && FrameAt(s[n..], k) && Scan(s[n..]) == Some(Dims(U16(s[n..], k + 7), U16(s[n..], k + 5)));
    assert FrameAt(s, n + k);
  }

  // ---------------------------------------------------------------- fill bytes

  /** A segment with the fill bytes (further FFs) the JPEG standard allows in front of its marker. */
  datatype Filled = Filled(fill: nat, seg: Segment)

  function Fill(n: nat): (r: seq<byte>)
    ensures |r| == n && forall i :: 0 <= i < n ==> r[i] == 0xff
  {
    if n == 0 then [] else [0xff] + Fill(n - 1)
  }

  /** Every marker the standard assigns but TEM and the reserved ones. */
  predicate CommonMarker(seg: Segment) { Legal(seg) && seg.marker >= 0xc0 }

  predicate AllLegal(segs: seq<Filled>) { forall i :: 0 <= i < |segs| ==> Legal(segs[i].seg) }

  predicate AllCommon(segs: seq<Filled>) { forall i :: 0 <= i < |segs| ==> CommonMarker(segs[i].seg) }

  function EncodeFilled(segs: seq<Filled>): seq<byte>
    requires AllLegal(segs)
  {
    if segs == [] then [] else Fill(segs[0].fill) + EncodeSegment(segs[0].seg) + EncodeFilled(segs[1..])
  }

  /** A whole file: segments and frame, each after its fill bytes. */
  function EncodeFilledJpeg(segs: seq<Filled>, fill: nat, f: Frame, rest: seq<byte>): seq<byte>
    requires LegalFrame(f) && AllLegal(segs)
  {
    [0xff, 0xd8] + (EncodeFilled(segs) + (Fill(fill) + (EncodeFrame(f) + rest)))
  }

  predicate NoFill(segs: seq<Filled>) { forall i :: 0 <= i < |segs| ==> segs[i].fill == 0 }

  /**
   A fill byte is taken for the marker, and what stands two bytes on - another fill
   byte or the true marker - for the high byte of a length: 0xC000 bytes are jumped.
   */
  lemma FillStops(fill: nat, t: seq<byte>)
    requires fill > 0 && |t| >= 2 && t[0] == 0xff && t[1] >= 0xc0 && |Fill(fill) + t| < 0xc000
    ensures Scan(Fill(fill) + t) == None
  {
    var s := Fill(fill) + t;
    assert s[0] == 0xff && s[1] == if fill == 1 then t[0] else 0xff;
    assert s[2] == if fill == 1 then t[1] else if fill == 2 then t[0] else 0xff;
    LongLengthStops(s);
  }

  lemma LongLengthStops(s: seq<byte>)
    requires 3 <= |s| < 0xc000 && s[0] == 0xff && s[1] == 0xff && s[2] >= 0xc0
    ensures Scan(s) == None
  {
    if |s| > 9 { assert U16(s, 2) >= 0xc000; }
  }

  lemma SegmentStarts(seg: Segment, t: seq<byte>)
    requires Legal(seg)
    ensures var s := EncodeSegment(seg) + t; |s| >= 2 && s[0] == 0xff && s[1] == seg.marker
  {
  }

  /** One segment after its fill bytes: skipped without them, the end of the scan with them. */
  lemma FilledStep(x: Filled, t: seq<byte>)
    requires CommonMarker(x.seg) && |t| >= 10
    requires |Fill(x.fill) + (EncodeSegment(x.seg) + t)| < 0xc000
    ensures Scan(Fill(x.fill) + (EncodeSegment(x.seg) + t)) == if x.fill == 0 then Scan(t) else None
  {
    var s := EncodeSegment(x.seg) + t;
    if x.fill == 0 {
      assert Fill(0) + s == s;
      SegmentSkipped(x.seg, t);
    } else {
      SegmentStarts(x.seg, t);
      FillStops(x.fill, s);
    }
  }

  lemma Regroup(segs: seq<Filled>, t: seq<byte>)
    requires segs != [] && AllLegal(segs)
    ensures EncodeFilled(segs) + t == Fill(segs[0].fill) + (EncodeSegment(segs[0].seg) + (EncodeFilled(segs[1..]) + t))
  {
    Associates(Fill(segs[0].fill), EncodeSegment(segs[0].seg), EncodeFilled(segs[1..]), t);
  }

  lemma Associates(a: seq<byte>, b: seq<byte>, c: seq<byte>, d: seq<byte>)
    ensures (a + b + c) + d == a + (b + (c + d))
  {
  }

  lemma NoFillSplits(segs: seq<Filled>)
    requires segs != []
    ensures NoFill(segs) <==> segs[0].fill == 0 && NoFill(segs[1..])
  {
    if segs[0].fill == 0 && NoFill(segs[1..]) {
      forall i | 0 <= i < |segs| ensures segs[i].fill == 0 { if i > 0 { assert segs[1..][i - 1] == segs[i]; } }
    }
  }

  lemma {:induction false} FilledScan(segs: seq<Filled>, t: seq<byte>)
    requires |t| >= 10 && AllCommon(segs)
    requires |EncodeFilled(segs) + t| < 0xc000
    ensures Scan(EncodeFilled(segs) + t) == if NoFill(segs) then Scan(t) else None
    decreases |segs|
  {
    if segs == [] {
      assert [] + t == t;
    } else {
      var rest := EncodeFilled(segs[1..]) + t;
      Regroup(segs, t);
      FilledStep(segs[0], rest);
      FilledScan(segs[1..], t);
      NoFillSplits(segs);
    }
  }

  /**
   MAIN (exact condition). With fill bytes anywhere, in a file whose bytes after the
   start marker number fewer than 0xC000 and whose markers are common ones: the
   frame's dimensions are found if there is no fill byte at all, and otherwise nothing is.
   */
  lemma FillBytesDecide(segs: seq<Filled>, fill: nat, f: Frame, rest: seq<byte>)
    requires LegalFrame(f) && AllCommon(segs)
    requires |EncodeFilledJpeg(segs, fill, f, rest)| - 2 < 0xc000
    ensures Dimensions(EncodeFilledJpeg(segs, fill, f, rest)) ==
      if NoFill(segs) && fill == 0 then Some(Dims(f.width, f.height)) else None
  {
    var frame := EncodeFrame(f) + rest;
    var t := Fill(fill) + frame;
    assert EncodeFilledJpeg(segs, fill, f, rest)[2..] == EncodeFilled(segs) + t;
    FilledScan(segs, t);
    if fill == 0 {
      assert t == frame;
      FrameRead(f, rest);
    } else {
      FillStops(fill, frame);
    }
  }

  /** A whole small file, legal by the standard, whose dimensions are not found. */
  lemma OneFillByteIsEnough()
    ensures var f := Frame(0xc0, 11, 8, 600, 800, 1);
            && Dimensions(EncodeFilledJpeg([], 0, f, [1, 17, 0])) == Some(Dims(800, 600))
            && Dimensions(EncodeFilledJpeg([], 1, f, [1, 17, 0])) == None
  {
    var f := Frame(0xc0, 11, 8, 600, 800, 1);
    FillBytesDecide([], 0, f, [1, 17, 0]);
    FillBytesDecide([], 1, f, [1, 17, 0]);
  }

  // ---------------------------------------------------------------- the size check

  datatype SizeError = Unreadable | TooSmall(width: nat, height: nat)

  function AssertMinDimensions(b: seq<byte>, minWidth: nat, minHeight: nat): Option<SizeError> {
    var dims := Dimensions(b);
    if dims.None? then Some(Unreadable)
    else
      var d := dims.value;
      var dimMin, dimMax := Min(d.width, d.height), Max(d.width, d.height);
      var reqMin, reqMax := Min(minWidth, minHeight), Max(minWidth, minHeight);
      if dimMax < reqMax || dimMin < reqMin then Some(TooSmall(d.width, d.height)) else None
  }

  /** MAIN. A photo passes exactly when its header is readable and it is large enough in one of its two orientations. */
  lemma LargeEnoughEitherWay(b: seq<byte>, minWidth: nat, minHeight: nat)
    ensures AssertMinDimensions(b, minWidth, minHeight).None? <==>
      Dimensions(b).Some?
      && var d := Dimensions(b).value;
         (d.width >= minWidth && d.height >= minHeight) || (d.width >= minHeight && d.height >= minWidth)
    ensures AssertMinDimensions(b, minWidth, minHeight) == Some(Unreadable) <==> Dimensions(b).None?
    ensures AssertMinDimensions(b, minWidth, minHeight).Some? && Dimensions(b).Some? ==>
      AssertMinDimensions(b, minWidth, minHeight) == Some(TooSmall(Dimensions(b).value.width, Dimensions(b).value.height))
  {
  }
}
