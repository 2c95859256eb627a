/**
 Files put together segment by segment and chunk by chunk, as a camera or an editor writes them, and what
 the structure check says of them: the walk over the bytes and the parts they were made from agree.
 */
module PhotoFiles {
  import opened Prelude
  import opened Photos

  predicate Held(data: seq<byte>, at: nat, bytes: seq<byte>) {
    at + |bytes| <= |data| && data[at..at + |bytes|] == bytes
  }

  lemma {:induction false} HeldAt(data: seq<byte>, at: nat, bytes: seq<byte>, i: nat)
    requires Held(data, at, bytes) && i < |bytes|
    ensures data[at + i] == bytes[i]
  {
    assert data[at..at + |bytes|][i] == data[at + i];
  }

  lemma {:induction false} HeldSlice(data: seq<byte>, at: nat, bytes: seq<byte>, i: nat, j: nat)
    requires Held(data, at, bytes) && i <= j <= |bytes|
    ensures Slice(data, at + i, at + j) == bytes[i..j]
  {
    forall k | 0 <= k < j - i ensures data[at + i..at + j][k] == bytes[i..j][k] {
      HeldAt(data, at, bytes, i + k);
    }
    assert data[at + i..at + j] == bytes[i..j];
  }

  // ---- A JPEG's segments (section B.1.1 of ITU-T T.81) ----

  // A marker by itself (TEM, RSTm, SOI), or one with a length and a body, after any number of fill bytes.
  datatype Segment = Alone(fill: nat, code: byte) | Sized(fill: nat, code: byte, body: seq<byte>)

  predicate Proper(s: Segment) {
    match s
    case Alone(_, code) => code in {0x01, 0xD0, 0xD1, 0xD2, 0xD3, 0xD4, 0xD5, 0xD6, 0xD7, 0xD8}
    case Sized(_, code, body) => (0x02 <= code < 0xD0 || 0xDB <= code < 0xFF || code == 0) && |body| <= 65_533
  }

  type Part = s: Segment | Proper(s) witness Alone(0, 0x01)

  /** The segment without its fill bytes. */
  function Core(s: Part): (r: seq<byte>)
    ensures |r| >= 2 && r[0] == 0xFF && r[1] == s.code
  {
    match s
    case Alone(_, code) => [0xFF, code]
    case Sized(_, code, body) =>
      var length := |body| + 2;
      [0xFF, code, length / 256, length % 256] + body
  }

  function Fills(n: nat): (r: seq<byte>)
    ensures |r| == n && forall i :: 0 <= i < n ==> r[i] == 0xFF
  {
    seq(n, _ => 0xFF)
  }

  function BytesOf(s: Part): (r: seq<byte>)
    ensures |r| == s.fill + |Core(s)| && r[0] == 0xFF
  {
    Fills(s.fill) + Core(s)
  }

  /** Where the segments end: SOI takes the first two bytes. */
  function EndAt(segments: seq<Part>): nat
  {
    if segments == [] then 2
    else EndAt(segments[..|segments| - 1]) + |BytesOf(segments[|segments| - 1])|
  }

  predicate SegmentAt(data: seq<byte>, segments: seq<Part>, k: nat)
    requires k < |segments|
  {
    Held(data, EndAt(segments[..k]), BytesOf(segments[k]))
  }

  /** The file holds them one after another. */
  predicate Laid(data: seq<byte>, segments: seq<Part>)
  {
    forall k :: 0 <= k < |segments| ==> SegmentAt(data, segments, k)
  }

  /** SOI, the segments, and the marker of the first scan. */
  predicate IsJpeg(data: seq<byte>, segments: seq<Part>)
  {
    Held(data, 0, [0xFF, 0xD8]) && Laid(data, segments) && Held(data, EndAt(segments), [0xFF, 0xDA])
  }

  /** Where the marker of a segment is that starts here. */
  function MarkOf(at: nat, s: Part): Marker {
    Marker(at + s.fill, s.code)
  }

  function MarksOf(segments: seq<Part>): (r: seq<Marker>)
    ensures |r| == |segments|
  {
    if segments == [] then []
    else
      var init := segments[..|segments| - 1];
      MarksOf(init) + [MarkOf(EndAt(init), segments[|segments| - 1])]
  }

  lemma {:induction false} ByteAfter(bytes: seq<byte>, last: byte)
    ensures BigEndian(bytes + [last]) == 256 * BigEndian(bytes) + (last as int)
  {
    assert (bytes + [last])[..|bytes|] == bytes;
  }

  lemma {:induction false} TwoBytes(data: seq<byte>, at: nat)
    requires at + 4 <= |data|
    ensures LengthAt(data, at) == 256 * (data[at + 2] as int) + (data[at + 3] as int)
  {
    assert Slice(data, at + 2, at + 4) == ([] + [data[at + 2]]) + [data[at + 3]];
    ByteAfter([], data[at + 2]);
    ByteAfter([] + [data[at + 2]], data[at + 3]);
  }

  lemma {:induction false} CoreIsHeld(data: seq<byte>, at: nat, s: Part)
    requires Held(data, at, BytesOf(s))
    ensures Fill(data, at, at + s.fill) && Held(data, at + s.fill, Core(s))
  {
    var bytes := BytesOf(s);
    forall j | at <= j < at + s.fill ensures data[j] == 0xFF { HeldAt(data, at, bytes, j - at); }
    assert data[at..at + |bytes|][s.fill..] == data[at + s.fill..at + |bytes|] && bytes[s.fill..] == Core(s);
  }

  lemma {:induction false} CoreLength(data: seq<byte>, at: nat, s: Part)
    requires Held(data, at, Core(s))
    ensures SegmentEnd(data, Marker(at, s.code)) == at + |Core(s)|
    ensures s.Sized? ==> LengthAt(data, at) == |s.body| + 2
    ensures data[at] == 0xFF && data[at + 1] == s.code && !Last(s.code)
  {
    HeldAt(data, at, Core(s), 0);
    HeldAt(data, at, Core(s), 1);
    if s.Sized? {
      HeldAt(data, at, Core(s), 2);
      HeldAt(data, at, Core(s), 3);
      TwoBytes(data, at);
    }
  }

  lemma {:induction false} SegmentLength(data: seq<byte>, at: nat, s: Part)
    requires Held(data, at, BytesOf(s))
    ensures SegmentEnd(data, MarkOf(at, s)) == at + |BytesOf(s)|
    ensures Starts(data, at, MarkOf(at, s)) && !Last(s.code)
  {
    CoreIsHeld(data, at, s);
    CoreLength(data, at + s.fill, s);
  }

  lemma {:induction false} PrefixOfPrefix(segments: seq<Part>, n: nat, k: nat)
    requires k < n <= |segments|
    ensures segments[..n][..k] == segments[..k] && segments[..n][k] == segments[k]
  {
  }

  lemma {:induction false} LastIsLaid(data: seq<byte>, segments: seq<Part>)
    requires Laid(data, segments) && segments != []
    ensures
      var n := |segments| - 1;
      && Laid(data, segments[..n])
      && Held(data, EndAt(segments[..n]), BytesOf(segments[n]))
      && EndAt(segments) == EndAt(segments[..n]) + |BytesOf(segments[n])|
      && MarksOf(segments) == MarksOf(segments[..n]) + [MarkOf(EndAt(segments[..n]), segments[n])]
  {
    var n := |segments| - 1;
    assert SegmentAt(data, segments, n);
    forall k | 0 <= k < n ensures SegmentAt(data, segments[..n], k) {
      assert SegmentAt(data, segments, k);
      PrefixOfPrefix(segments, n, k);
    }
  }

  /** The walk finds each segment's marker where it was put. */
  lemma {:induction false} LaidIsChain(data: seq<byte>, segments: seq<Part>)
    requires Laid(data, segments)
    ensures Chain(data, MarksOf(segments)) && !Ended(MarksOf(segments))
    ensures EndOf(data, MarksOf(segments), |segments|) == EndAt(segments)
  {
    if segments != [] {
      var n := |segments| - 1;
      LastIsLaid(data, segments);
      LaidIsChain(data, segments[..n]);
      SegmentLength(data, EndAt(segments[..n]), segments[n]);
      ChainSnoc(data, MarksOf(segments[..n]), MarkOf(EndAt(segments[..n]), segments[n]));
    }
  }

  lemma {:induction false} CodesAre(segments: seq<Part>, k: nat)
    requires k < |segments|
    ensures MarksOf(segments)[k].code == segments[k].code
  {
    if k < |segments| - 1 { CodesAre(segments[..|segments| - 1], k); }
  }

  /** The chain of the whole file. */
  function AllMarks(segments: seq<Part>): seq<Marker>
  {
    MarksOf(segments) + [Marker(EndAt(segments), 0xDA)]
  }

  lemma {:induction false} JpegIsChain(data: seq<byte>, segments: seq<Part>)
    requires IsJpeg(data, segments)
    ensures Chain(data, AllMarks(segments)) && Ended(AllMarks(segments))
    ensures forall k :: 0 <= k < |segments| ==> AllMarks(segments)[k].code == segments[k].code
  {
    LaidIsChain(data, segments);
    var scan := Marker(EndAt(segments), 0xDA);
    HeldAt(data, EndAt(segments), [0xFF, 0xDA], 0);
    HeldAt(data, EndAt(segments), [0xFF, 0xDA], 1);
    assert Starts(data, EndAt(segments), scan);
    ChainSnoc(data, MarksOf(segments), scan);
    forall k | 0 <= k < |segments| ensures AllMarks(segments)[k].code == segments[k].code {
      CodesAre(segments, k);
    }
  }

  // ---- EXIF ----

  predicate HoldsExif(s: Part) {
    s.Sized? && s.code == 0xE1 && |s.body| >= 6 && s.body[..6] == [0x45, 0x78, 0x69, 0x66, 0, 0]
  }

  /** The EXIF segments' bodies together. */
  function ExifSize(segments: seq<Part>): nat {
    if segments == [] then 0
    else
      var last := segments[|segments| - 1];
      ExifSize(segments[..|segments| - 1]) + if HoldsExif(last) then |last.body| else 0
  }

  /** Whatever follows a segment starts with FF, so a short body is never read as EXIF. */
  lemma {:induction false} ExifIsRead(data: seq<byte>, at: nat, s: Part)
    requires Held(data, at, Core(s))
    requires at + |Core(s)| < |data| && data[at + |Core(s)|] == 0xFF
    ensures IsExif(data, Marker(at, s.code)) <==> HoldsExif(s)
  {
    if s.Sized? && s.code == 0xE1 {
      var n := |s.body|;
      if n >= 6 {
        HeldSlice(data, at, Core(s), 4, 10);
        assert Core(s)[4..10] == s.body[..6];
      } else {
        assert at + |Core(s)| == at + 4 + n;
        assert Slice(data, at + 4, at + 10)[n] == data[at + 4 + n] == 0xFF;
        assert EXIF_HEADER[n] != 0xFF;
      }
    }
  }

  lemma {:induction false} ExifIsCounted(data: seq<byte>, segments: seq<Part>)
    requires Laid(data, segments)
    requires EndAt(segments) < |data| && data[EndAt(segments)] == 0xFF
    ensures ExifBytes(data, MarksOf(segments)) == ExifSize(segments)
  {
    if segments != [] {
      var n := |segments| - 1;
      LastIsLaid(data, segments);
      NextIsHeld(data, segments[..n], segments[n]);
      ExifIsCounted(data, segments[..n]);
      LastIsCounted(data, MarksOf(segments[..n]), EndAt(segments[..n]), segments[n]);
    }
  }

  lemma {:induction false} NextIsHeld(data: seq<byte>, segments: seq<Part>, s: Part)
    requires Held(data, EndAt(segments), BytesOf(s))
    ensures EndAt(segments) < |data| && data[EndAt(segments)] == 0xFF
  {
    HeldAt(data, EndAt(segments), BytesOf(s), 0);
  }

  lemma {:induction false} LastIsCounted(data: seq<byte>, ms: seq<Marker>, at: nat, s: Part)
    requires Held(data, at, BytesOf(s))
    requires at + |BytesOf(s)| < |data| && data[at + |BytesOf(s)|] == 0xFF
    ensures ExifBytes(data, ms + [MarkOf(at, s)]) == ExifBytes(data, ms) + if HoldsExif(s) then |s.body| else 0
  {
    CoreIsHeld(data, at, s);
    CoreLength(data, at + s.fill, s);
    ExifIsRead(data, at + s.fill, s);
    OneMoreMarker(data, ms, MarkOf(at, s));
  }

  lemma {:induction false} OneMoreMarker(data: seq<byte>, ms: seq<Marker>, m: Marker)
    ensures
      ExifBytes(data, ms + [m])
      == ExifBytes(data, ms) + if IsExif(data, m) then Max(LengthAt(data, m.at) - 2, 0) else 0
  {
    assert (ms + [m])[..|ms|] == ms;
  }

  predicate CodesAreSafe(segments: seq<Part>) {
    forall i :: 0 <= i < |segments| ==> segments[i].code !in {0x00, 0xC3, 0xC7, 0xCB, 0xCF}
  }

  /** A JPEG made of these segments is let through exactly when none of them is an FF00 or a lossless frame
   and their EXIF is at most 64 KiB. */
  lemma {:induction false} AJpegPassesExactly(data: seq<byte>, segments: seq<Part>)
    requires IsJpeg(data, segments)
    ensures SafeJpeg(data) <==> CodesAreSafe(segments) && ExifSize(segments) <= 65_536
  {
    var ms, n := AllMarks(segments), |segments|;
    JpegIsChain(data, segments);
    LastDecides(data, ms);
    HeldAt(data, EndAt(segments), [0xFF, 0xDA], 0);
    ExifIsCounted(data, segments);
    OneMoreMarker(data, MarksOf(segments), ms[n]);
    forall i | 0 <= i < n
      ensures segments[i].code !in {0x00, 0xC3, 0xC7, 0xCB, 0xCF} <==> ms[i].code != 0 && !Lossless(ms[i].code)
    {
      assert ms[i].code == segments[i].code;
    }
    assert ms[n].code == SOS;
  }

  /** A file whose segments are followed by EOI, or by nothing at all, has no scan and is refused. */
  lemma {:induction false} AJpegWithoutAScanIsRefused(data: seq<byte>, segments: seq<Part>)
    requires Laid(data, segments)
    requires EndAt(segments) >= |data| || Held(data, EndAt(segments), [0xFF, 0xD9])
    ensures !SafeJpeg(data)
  {
    var ms, at := MarksOf(segments), EndAt(segments);
    LaidIsChain(data, segments);
    if at >= |data| {
      assert Complete(data, ms);
      LastDecides(data, ms);
    } else {
      HeldAt(data, at, [0xFF, 0xD9], 0);
      HeldAt(data, at, [0xFF, 0xD9], 1);
      assert Starts(data, at, Marker(at, 0xD9));
      ChainSnoc(data, ms, Marker(at, 0xD9));
      LastDecides(data, ms + [Marker(at, 0xD9)]);
    }
  }

  // ---- One scan ----

  predicate IsFrame(s: Part) {
    s.code in {0xC0, 0xC1, 0xC2, 0xC3, 0xC5, 0xC6, 0xC7, 0xC9, 0xCA, 0xCB, 0xCD, 0xCE, 0xCF}
  }

  /** The first frame header of a file. Its sixth byte is how many components the image has. */
  predicate FirstFrameIs(segments: seq<Part>, f: nat) {
    && f < |segments| && IsFrame(segments[f]) && segments[f].Sized? && |segments[f].body| >= 6
    && forall j :: 0 <= j < f ==> !IsFrame(segments[j])
  }

  /** The marks of a prefix are the first of the marks. */
  lemma {:induction false} MarksOfPrefix(segments: seq<Part>, n: nat, k: nat)
    requires k < n == |segments| - 1
    ensures MarksOf(segments)[k] == MarksOf(segments[..n])[k]
  {
  }

  lemma {:induction false} MarkIsAt(segments: seq<Part>, k: nat)
    requires k < |segments|
    ensures MarksOf(segments)[k] == MarkOf(EndAt(segments[..k]), segments[k])
    decreases |segments|
  {
    var n := |segments| - 1;
    if k == n {
      LastMark(segments);
    } else {
      MarksOfPrefix(segments, n, k);
      MarkIsAt(segments[..n], k);
      PrefixOfPrefix(segments, n, k);
    }
  }

  lemma {:induction false} LastMark(segments: seq<Part>)
    requires segments != []
    ensures
      var n := |segments| - 1;
      MarksOf(segments)[n] == MarkOf(EndAt(segments[..n]), segments[n])
  {
  }

  lemma {:induction false} CoreIsAt(data: seq<byte>, segments: seq<Part>, k: nat)
    requires Laid(data, segments) && k < |segments|
    ensures Held(data, EndAt(segments[..k]) + segments[k].fill, Core(segments[k]))
  {
    var at := EndAt(segments[..k]);
    assert SegmentAt(data, segments, k);
    CoreIsHeld(data, at, segments[k]);
  }

  /** Six bytes into a frame's body is nine past its marker. */
  lemma {:induction false} CountIsAt(data: seq<byte>, at: nat, s: Part)
    requires s.Sized? && |s.body| >= 6 && Held(data, at, Core(s))
    ensures at + 9 < |data| && data[at + 9] == s.body[5]
  {
    HeldAt(data, at, Core(s), 9);
  }

  /** Where the walk reads the components of the first frame is where its header has them. */
  lemma {:induction false} FrameIsRead(data: seq<byte>, segments: seq<Part>, f: nat)
    requires Laid(data, segments) && FirstFrameIs(segments, f)
    ensures
      var at := MarksOf(segments)[f].at;
      at + 9 < |data| && data[at + 9] == segments[f].body[5]
  {
    MarkIsAt(segments, f);
    CoreIsAt(data, segments, f);
    CountIsAt(data, EndAt(segments[..f]) + segments[f].fill, segments[f]);
  }

  /** In a chain that ends with a scan at `at`, after a first frame of `count` components, two bytes decide. */
  lemma {:induction false} TwoCountsDecide(data: seq<byte>, ms: seq<Marker>, f: nat, count: byte, at: nat)
    requires Chain(data, ms) && ms != [] && ms[|ms| - 1] == Marker(at, SOS) && at + 4 < |data|
    requires f < |ms| && FrameMarker(ms[f].code) && forall j :: 0 <= j < f ==> !FrameMarker(ms[j].code)
    requires ms[f].at + 9 < |data| && data[ms[f].at + 9] == count
    ensures OneScan(data) <==> count <= data[at + 4]
  {
    FirstFrame(data, ms, f);
    if ns, g: nat :| OneScanChain(data, ns, g) { OneChain(data, ms, ns); }
    if count <= data[at + 4] { assert OneScanChain(data, ms, f); }
  }

  lemma {:induction false} MarksAndScan(segments: seq<Part>, f: nat)
    requires f < |segments|
    ensures
      var ms := AllMarks(segments);
      |ms| == |segments| + 1 && ms[f] == MarksOf(segments)[f] && ms[|ms| - 1] == Marker(EndAt(segments), 0xDA)
  {
  }

  lemma {:induction false} FirstOfTheMarks(segments: seq<Part>, ms: seq<Marker>, f: nat)
    requires FirstFrameIs(segments, f) && |segments| <= |ms|
    requires forall k :: 0 <= k < |segments| ==> ms[k].code == segments[k].code
    ensures FrameMarker(ms[f].code) && forall j :: 0 <= j < f ==> !FrameMarker(ms[j].code)
  {
    forall j | 0 <= j < f ensures !FrameMarker(ms[j].code) {
      assert ms[j].code == segments[j].code && !IsFrame(segments[j]);
    }
  }

  /** A file is taken for one scan exactly when its first scan, which names its components right after its
   length, names as many as the first frame has. */
  lemma {:induction false} OneScanExactly(data: seq<byte>, segments: seq<Part>, f: nat)
    requires IsJpeg(data, segments) && FirstFrameIs(segments, f)
    requires EndAt(segments) + 4 < |data|
    ensures OneScan(data) <==> segments[f].body[5] <= data[EndAt(segments) + 4]
  {
    var ms := AllMarks(segments);
    JpegIsChain(data, segments);
    FrameIsRead(data, segments, f);
    FirstOfTheMarks(segments, ms, f);
    MarksAndScan(segments, f);
    TwoCountsDecide(data, ms, f, segments[f].body[5], EndAt(segments));
  }

  // ---- A PNG's chunks (section 5.3 of the W3C PNG specification) ----

  datatype Chunk = Chunk(kind: seq<byte>, body: seq<byte>, crc: seq<byte>)

  predicate ProperChunk(c: Chunk) {
    |c.kind| == 4 && |c.crc| == 4 && |c.body| < 0x1_0000_0000
  }

  type Piece = c: Chunk | ProperChunk(c) witness Chunk([0, 0, 0, 0], [], [0, 0, 0, 0])

  function FourBytes(n: nat): (r: seq<byte>)
    requires n < 0x1_0000_0000
    ensures |r| == 4
  {
    [n / 256 / 256 / 256, n / 256 / 256 % 256, n / 256 % 256, n % 256]
  }

  lemma {:induction false} FourByteNumber(a: byte, b: byte, c: byte, d: byte)
    ensures BigEndian([a, b, c, d]) == 256 * (256 * (256 * (a as int) + (b as int)) + (c as int)) + (d as int)
  {
    ByteAfter([], a);
    ByteAfter([a], b);
    ByteAfter([a, b], c);
    ByteAfter([a, b, c], d);
    assert [] + [a] == [a] && [a] + [b] == [a, b] && [a, b] + [c] == [a, b, c] && [a, b, c] + [d] == [a, b, c, d];
  }

  lemma {:induction false} FourBytesRead(n: nat)
    requires n < 0x1_0000_0000
    ensures BigEndian(FourBytes(n)) == n
  {
    var a, b, c := n / 256, n / 256 / 256, n / 256 / 256 / 256;
    FourByteNumber(c, b % 256, a % 256, n % 256);
    assert b == 256 * c + b % 256 && a == 256 * b + a % 256 && n == 256 * a + n % 256;
  }

  function ChunkBytes(c: Piece): seq<byte>
  {
    FourBytes(|c.body|) + c.kind + c.body + c.crc
  }

  /** Where the chunks end: the signature takes the first eight bytes. */
  function ChunksEnd(chunks: seq<Piece>): nat
  {
    if chunks == [] then 8 else ChunksEnd(chunks[..|chunks| - 1]) + 12 + |chunks[|chunks| - 1].body|
  }

  predicate LaidChunks(data: seq<byte>, chunks: seq<Piece>)
  {
    chunks == []
    || (LaidChunks(data, chunks[..|chunks| - 1])
        && Held(data, ChunksEnd(chunks[..|chunks| - 1]), ChunkBytes(chunks[|chunks| - 1])))
  }

  const END_KIND: seq<byte> := [0x49, 0x45, 0x4E, 0x44]          // IEND
  const ANIMATION_KIND: seq<byte> := [0x61, 0x63, 0x54, 0x4C]    // acTL
  const EXIF_KIND: seq<byte> := [0x65, 0x58, 0x49, 0x66]         // eXIf

  /** The signature, the chunks, and IEND as the last of them and no other. */
  predicate IsPng(data: seq<byte>, chunks: seq<Piece>)
  {
    && LaidChunks(data, chunks) && chunks != []
    && forall i :: 0 <= i < |chunks| ==> (chunks[i].kind == END_KIND <==> i == |chunks| - 1)
  }

  lemma {:induction false} ChunkIsRead(data: seq<byte>, at: nat, c: Piece)
    requires Held(data, at, ChunkBytes(c))
    ensures ChunkLength(data, at) == |c.body| && ChunkKind(data, at) == c.kind && at + 12 + |c.body| <= |data|
  {
    var bytes := ChunkBytes(c);
    HeldSlice(data, at, bytes, 0, 4);
    HeldSlice(data, at, bytes, 4, 8);
    assert bytes[0..4] == FourBytes(|c.body|) && bytes[4..8] == c.kind;
    FourBytesRead(|c.body|);
  }

  lemma {:induction false} ChunksAreRead(data: seq<byte>, chunks: seq<Piece>, k: nat)
    requires LaidChunks(data, chunks) && k <= |chunks|
    ensures ChunkAt(data, k) == ChunksEnd(chunks[..k])
    ensures k < |chunks| ==> Held(data, ChunksEnd(chunks[..k]), ChunkBytes(chunks[k]))
  {
    var n := |chunks|;
    if k < n {
      ChunksAreRead(data, chunks[..n - 1], k);
      assert chunks[..n - 1][..k] == chunks[..k];
    } else if n > 0 {
      ChunksAreRead(data, chunks[..n - 1], n - 1);
      assert chunks[..n - 1][..n - 1] == chunks[..n - 1] && chunks[..n] == chunks;
      ChunkIsRead(data, ChunksEnd(chunks[..n - 1]), chunks[n - 1]);
    }
  }

  /** A PNG made of these chunks is let through exactly when none of them announces an animation and none is
   an EXIF chunk over 64 KiB. */
  lemma {:induction false} APngPassesExactly(data: seq<byte>, chunks: seq<Piece>)
    requires IsPng(data, chunks)
    ensures
      SafePng(data) <==>
      forall i :: 0 <= i < |chunks| ==>
        chunks[i].kind != ANIMATION_KIND && (chunks[i].kind == EXIF_KIND ==> |chunks[i].body| <= 65_536)
  {
    var n := |chunks|;
    forall k: nat | k < n
      ensures ChunkKind(data, ChunkAt(data, k)) == chunks[k].kind
      ensures ChunkLength(data, ChunkAt(data, k)) == |chunks[k].body| && ChunkAt(data, k) + 8 <= |data|
    {
      ChunksAreRead(data, chunks, k);
      ChunkIsRead(data, ChunkAt(data, k), chunks[k]);
    }
    assert EndChunk(data, n - 1);
    assert forall k: nat :: Reached(data, k) <==> k < n;
    if SafePng(data) {
      forall i | 0 <= i < n
        ensures chunks[i].kind != ANIMATION_KIND && (chunks[i].kind == EXIF_KIND ==> |chunks[i].body| <= 65_536)
      {
        assert Reached(data, i) && !BadChunk(data, i);
      }
    }
  }
}
