/**
 The structure check run on an upload before any decoder sees it: the walk over a JPEG's markers up
 to its first scan (section B.1.1 of ITU-T T.81) and over a PNG's chunks up to IEND (section 5.3 of
 the W3C PNG specification).
 */
module Photos {
  import opened Prelude

  type byte = x: int | 0 <= x < 256

  const SOI := 0xD8
  const EOI := 0xD9
  const SOS := 0xDA
  const APP1 := 0xE1
  const EXIF_CAP := 65_536
  const EXIF_HEADER: seq<byte> := [0x45, 0x78, 0x69, 0x66, 0, 0]
  const PNG_SIGNATURE: seq<byte> := [0x89, 0x50, 0x4E, 0x47, 0x0D, 0x0A, 0x1A, 0x0A]
  const ACTL: seq<byte> := [0x61, 0x63, 0x54, 0x4C]
  const EXIF_CHUNK: seq<byte> := [0x65, 0x58, 0x49, 0x66]
  const IEND: seq<byte> := [0x49, 0x45, 0x4E, 0x44]

  /** A slice that runs past the end is cut there. */
  function Slice(data: seq<byte>, from: nat, to: nat): (r: seq<byte>)
    requires from <= to
  {
    data[Min(from, |data|)..Min(to, |data|)]
  }

  /** An unsigned big-endian number, of however many bytes there are. */
  function BigEndian(bytes: seq<byte>): nat {
    if bytes == [] then 0 else 256 * BigEndian(bytes[..|bytes| - 1]) + bytes[|bytes| - 1]
  }

  // ---- A JPEG's markers ----

  datatype Marker = Marker(at: nat, code: byte)

  function LengthAt(data: seq<byte>, at: nat): nat {
    BigEndian(Slice(data, at + 2, at + 4))
  }

  predicate Standalone(code: byte) {
    code == 0x01 || 0xD0 <= code <= 0xD8
  }

  predicate Last(code: byte) {
    code == EOI || code == SOS
  }

  /** Where the bytes of a marker's segment end. */
  function SegmentEnd(data: seq<byte>, m: Marker): nat {
    if Standalone(m.code) then m.at + 2 else m.at + 2 + LengthAt(data, m.at)
  }

  predicate Fill(data: seq<byte>, from: nat, to: nat) {
    from <= to && forall j :: from <= j < to ==> j < |data| && data[j] == 0xFF
  }

  /** After fill bytes from `from` on, `m` is a marker. */
  predicate Starts(data: seq<byte>, from: nat, m: Marker) {
    && Fill(data, from, m.at) && m.at + 1 < |data|
    && data[m.at] == 0xFF && data[m.at + 1] == m.code && m.code != 0xFF
  }

  /** Where the marker after the first `k` is looked for: after SOI, then after each segment. */
  function EndOf(data: seq<byte>, ms: seq<Marker>, k: nat): nat
    requires k <= |ms|
  {
    if k == 0 then 2 else SegmentEnd(data, ms[k - 1])
  }

  /** The `k`-th marker starts where the segment before it ends, and that one was not EOI or SOS. */
  predicate Linked(data: seq<byte>, ms: seq<Marker>, k: nat)
    requires k < |ms|
  {
    Starts(data, EndOf(data, ms, k), ms[k]) && (k > 0 ==> !Last(ms[k - 1].code))
  }

  predicate Chain(data: seq<byte>, ms: seq<Marker>) {
    forall k {:trigger Linked(data, ms, k)} :: 0 <= k < |ms| ==> Linked(data, ms, k)
  }

  predicate Ended(ms: seq<Marker>) {
    ms != [] && Last(ms[|ms| - 1].code)
  }

  /** A chain that cannot go on. */
  ghost predicate Complete(data: seq<byte>, ms: seq<Marker>) {
    Ended(ms) || forall m :: !Starts(data, EndOf(data, ms, |ms|), m)
  }

  lemma {:induction false} ChainSnoc(data: seq<byte>, ms: seq<Marker>, m: Marker)
    requires Chain(data, ms) && Starts(data, EndOf(data, ms, |ms|), m) && !Ended(ms)
    ensures Chain(data, ms + [m])
    ensures EndOf(data, ms + [m], |ms| + 1) == SegmentEnd(data, m)
  {
    var all := ms + [m];
    forall k | 0 <= k < |all| ensures Linked(data, all, k) {
      if k < |ms| {
        assert Linked(data, ms, k);
        assert EndOf(data, all, k) == EndOf(data, ms, k);
      }
    }
  }

  /** Walks the markers segment by segment until one ends the walk or none follows. */
  method Markers(data: seq<byte>) returns (ms: seq<Marker>)
    ensures Chain(data, ms) && Complete(data, ms)
  {
    ms := [];
    var i := 2;
    ghost var from := 2;
    while i + 1 < |data| && data[i] == 0xFF
      invariant Chain(data, ms) && !Ended(ms) && from == EndOf(data, ms, |ms|)
      invariant Fill(data, from, i)
      invariant from < i ==> i < |data| && data[i] == 0xFF
      decreases |data| - i
    {
      var code := data[i + 1];
      if code == 0xFF {
        i := i + 1;
      } else {
        ChainSnoc(data, ms, Marker(i, code));
        ms := ms + [Marker(i, code)];
        if code == EOI || code == SOS {
          return;
        }
        if code == 0x01 || 0xD0 <= code <= 0xD8 {
          i := i + 2;
        } else {
          i := i + 2 + BigEndian(Slice(data, i + 2, i + 4));
        }
        from := i;
      }
    }
    forall m ensures !Starts(data, from, m) {
      NothingStarts(data, from, i, m);
    }
  }

  lemma {:induction false} NothingStarts(data: seq<byte>, from: nat, i: nat, m: Marker)
    requires Fill(data, from, i) && (from < i ==> i < |data| && data[i] == 0xFF)
    requires i + 1 >= |data| || data[i] != 0xFF
    ensures !Starts(data, from, m)
  {
    assert Fill(data, from, m.at) && i < m.at && i < |data| ==> data[i] == 0xFF;
  }

  /** Fill bytes and a marker can be read in one way only. */
  lemma {:induction false} StartsOnce(data: seq<byte>, from: nat, m: Marker, n: Marker)
    requires Starts(data, from, m) && Starts(data, from, n)
    ensures m == n
  {
  }

  lemma {:induction false} ChainsAgree(data: seq<byte>, ms: seq<Marker>, ns: seq<Marker>, k: nat)
    requires Chain(data, ms) && Chain(data, ns) && k <= |ms| && k <= |ns|
    ensures forall j :: 0 <= j < k ==> ms[j] == ns[j]
  {
    if k > 0 {
      ChainsAgree(data, ms, ns, k - 1);
      assert Linked(data, ms, k - 1) && Linked(data, ns, k - 1);
      StartsOnce(data, EndOf(data, ms, k - 1), ms[k - 1], ns[k - 1]);
    }
  }

  lemma {:induction false} LinkOf(data: seq<byte>, ms: seq<Marker>, k: nat)
    requires Chain(data, ms) && k < |ms|
    ensures Starts(data, EndOf(data, ms, k), ms[k]) && (k > 0 ==> !Last(ms[k - 1].code))
  {
    assert Linked(data, ms, k);
  }

  /** A complete chain is as long as any. */
  lemma {:induction false} NoneLonger(data: seq<byte>, ms: seq<Marker>, ns: seq<Marker>)
    requires Chain(data, ms) && Chain(data, ns) && Complete(data, ms)
    ensures |ns| <= |ms|
  {
    var k := |ms|;
    if k < |ns| {
      ChainsAgree(data, ms, ns, k);
      assert EndOf(data, ns, k) == EndOf(data, ms, k);
      LinkOf(data, ns, k);
    }
  }

  /** A file has one complete chain. */
  lemma {:induction false} OneChain(data: seq<byte>, ms: seq<Marker>, ns: seq<Marker>)
    requires Chain(data, ms) && Chain(data, ns) && Complete(data, ms) && Complete(data, ns)
    ensures ms == ns
  {
    NoneLonger(data, ms, ns);
    NoneLonger(data, ns, ms);
    ChainsAgree(data, ms, ns, |ms|);
  }

  // ---- What a safe upload is ----

  predicate Lossless(code: byte) {
    code in {0xC3, 0xC7, 0xCB, 0xCF}
  }

  predicate IsExif(data: seq<byte>, m: Marker) {
    m.code == APP1 && Slice(data, m.at + 4, m.at + 10) == EXIF_HEADER
  }

  /** The EXIF bytes of every APP1 segment together. */
  function ExifBytes(data: seq<byte>, ms: seq<Marker>): nat {
    if ms == [] then 0
    else
      var m := ms[|ms| - 1];
      ExifBytes(data, ms[..|ms| - 1]) + if IsExif(data, m) then Max(LengthAt(data, m.at) - 2, 0) else 0
  }

  /** The markers walk from SOI to a first scan, past no FF00 and no lossless frame, with at most
   64 KiB of EXIF. */
  ghost predicate SafeJpeg(data: seq<byte>) {
    exists ms :: SafeChain(data, ms)
  }

  ghost predicate SafeChain(data: seq<byte>, ms: seq<Marker>) {
    && Chain(data, ms) && ms != [] && ms[|ms| - 1].code == SOS
    && (forall k :: 0 <= k < |ms| ==> ms[k].code != 0 && !Lossless(ms[k].code))
    && ExifBytes(data, ms) <= EXIF_CAP
  }

  /** Where the `k`-th chunk starts. */
  function ChunkAt(data: seq<byte>, k: nat): nat {
    if k == 0 then 8 else ChunkAt(data, k - 1) + 12 + ChunkLength(data, ChunkAt(data, k - 1))
  }

  function ChunkLength(data: seq<byte>, at: nat): nat {
    BigEndian(Slice(data, at, at + 4))
  }

  function ChunkKind(data: seq<byte>, at: nat): seq<byte> {
    Slice(data, at + 4, at + 8)
  }

  predicate EndChunk(data: seq<byte>, k: nat) {
    ChunkKind(data, ChunkAt(data, k)) == IEND
  }

  /** The `k`-th chunk's header is there, and no chunk before it is IEND. */
  predicate Reached(data: seq<byte>, k: nat) {
    ChunkAt(data, k) + 8 <= |data| && forall j: nat :: j < k ==> !EndChunk(data, j)
  }

  predicate BadChunk(data: seq<byte>, k: nat) {
    var at := ChunkAt(data, k);
    ChunkKind(data, at) == ACTL || (ChunkKind(data, at) == EXIF_CHUNK && ChunkLength(data, at) > EXIF_CAP)
  }

  /** Up to IEND there is no animation and no EXIF over 64 KiB. */
  ghost predicate SafePng(data: seq<byte>) {
    forall k: nat :: Reached(data, k) ==> !BadChunk(data, k)
  }

  lemma {:induction false} ChunksAdvance(data: seq<byte>, j: nat, k: nat)
    requires j <= k
    ensures ChunkAt(data, j) <= ChunkAt(data, k)
    decreases k - j
  {
    if j < k { ChunksAdvance(data, j, k - 1); }
  }

  lemma {:induction false} LastDecides(data: seq<byte>, ms: seq<Marker>)
    requires Chain(data, ms) && Complete(data, ms)
    ensures SafeJpeg(data) <==> SafeChain(data, ms)
  {
    if ns :| SafeChain(data, ns) {
      OneChain(data, ms, ns);
    }
  }

  // ---- The checks ----

  /**
   The check before decoding: true refuses the upload. A JPEG passes exactly when its markers walk safely
   to a first scan, a PNG exactly when no chunk up to IEND is bad; anything else passes.
   */
  method UnsafeContainer(data: seq<byte>) returns (unsafe: bool)
    ensures Slice(data, 0, 2) == [0xFF, SOI] ==> (unsafe <==> !SafeJpeg(data))
    ensures Slice(data, 0, 2) != [0xFF, SOI] && Slice(data, 0, 8) == PNG_SIGNATURE ==> (unsafe <==> !SafePng(data))
    ensures Slice(data, 0, 2) != [0xFF, SOI] && Slice(data, 0, 8) != PNG_SIGNATURE ==> !unsafe
  {
    if Slice(data, 0, 2) == [0xFF, SOI] {
      unsafe := UnsafeJpeg(data);
    } else if Slice(data, 0, 8) == PNG_SIGNATURE {
      unsafe := UnsafePng(data);
    } else {
      unsafe := false;
    }
  }

  method UnsafeJpeg(data: seq<byte>) returns (unsafe: bool)
    ensures unsafe <==> !SafeJpeg(data)
  {
    var last: Option<byte>, exif := None, 0;
    var ms := Markers(data);
    LastDecides(data, ms);
    for k := 0 to |ms|
      invariant exif == ExifBytes(data, ms[..k])
      invariant last == if k == 0 then None else Some(ms[k - 1].code)
      invariant forall j :: 0 <= j < k ==> ms[j].code != 0 && !Lossless(ms[j].code)
    {
      var i, code := ms[k].at, ms[k].code;
      if code == 0x00 || code in {0xC3, 0xC7, 0xCB, 0xCF} {
        return true;
      }
      assert ms[..k + 1][..k] == ms[..k];
      if code == APP1 && Slice(data, i + 4, i + 10) == EXIF_HEADER {
        exif := exif + Max(BigEndian(Slice(data, i + 2, i + 4)) - 2, 0);
      }
      last := Some(code);
    }
    assert ms[..|ms|] == ms;
    unsafe := last != Some(SOS) || exif > EXIF_CAP;
  }

  method UnsafePng(data: seq<byte>) returns (unsafe: bool)
    ensures unsafe <==> !SafePng(data)
  {
    var i := 8;
    ghost var k: nat := 0;
    while i + 8 <= |data|
      invariant i == ChunkAt(data, k)
      invariant forall j: nat :: j < k ==> !EndChunk(data, j) && !BadChunk(data, j)
      decreases |data| - i
    {
      var length, kind := ChunkLength(data, i), ChunkKind(data, i);
      if kind == ACTL || (kind == EXIF_CHUNK && length > EXIF_CAP) {
        assert Reached(data, k) && BadChunk(data, k);
        return true;
      }
      if kind == IEND {
        SafeSoFar(data, k);
        return false;
      }
      i, k := i + 12 + length, k + 1;
    }
    SafeSoFar(data, k);
    return false;
  }

  /** Past the data, or past IEND, no chunk is reached. */
  lemma {:induction false} SafeSoFar(data: seq<byte>, k: nat)
    requires forall j: nat :: j < k ==> !BadChunk(data, j)
    requires ChunkAt(data, k) + 8 > |data| || (EndChunk(data, k) && !BadChunk(data, k))
    ensures SafePng(data)
  {
    forall j: nat | Reached(data, j) ensures !BadChunk(data, j) {
      if k <= j { ChunksAdvance(data, k, j); }
    }
  }

  // ---- One scan or several ----

  predicate FrameMarker(code: byte) {
    0xC0 <= code <= 0xCF && code != 0xC4 && code != 0xC8 && code != 0xCC
  }

  /** The first frame names no more components than the first scan codes, and both can be read. */
  ghost predicate OneScan(data: seq<byte>) {
    exists ms, f :: OneScanChain(data, ms, f)
  }

  ghost predicate OneScanChain(data: seq<byte>, ms: seq<Marker>, f: nat) {
    && Chain(data, ms) && ms != [] && ms[|ms| - 1].code == SOS
    && f < |ms| && FrameMarker(ms[f].code) && (forall j :: 0 <= j < f ==> !FrameMarker(ms[j].code))
    && ms[f].at + 9 < |data| && ms[|ms| - 1].at + 4 < |data|
    && data[ms[f].at + 9] <= data[ms[|ms| - 1].at + 4]
  }

  /** True unless the first scan is seen to code the whole of the first frame. */
  method MultiScan(data: seq<byte>) returns (several: bool)
    ensures several <==> !OneScan(data)
  {
    var frame: Option<byte> := None;
    var ms := Markers(data);
    ghost var f: nat := 0;
    forall ns, g: nat | OneScanChain(data, ns, g) ensures ns == ms { OneChain(data, ms, ns); }
    for k := 0 to |ms|
      invariant frame.None? ==> forall j :: 0 <= j < k ==> !FrameMarker(ms[j].code)
      invariant frame.Some? ==>
                  && f < k && FrameMarker(ms[f].code) && (forall j :: 0 <= j < f ==> !FrameMarker(ms[j].code))
                  && ms[f].at + 9 < |data| && frame.value == data[ms[f].at + 9]
      invariant forall j :: 0 <= j < k ==> ms[j].code != SOS
    {
      var i, code := ms[k].at, ms[k].code;
      if code == SOS {
        if k + 1 < |ms| { LinkOf(data, ms, k + 1); }
        if frame.None? {
          return true;
        }
        if i + 4 >= |data| {
          return true;   // the component count is past the end
        }
        several := data[i + 4] < frame.value;
        FirstFrame(data, ms, f);
        assert several <==> !OneScanChain(data, ms, f);
        return;
      }
      if FrameMarker(code) && frame.None? {
        if i + 9 >= |data| {
          FirstFrame(data, ms, k);
          return true;   // the frame header is cut short
        }
        frame, f := Some(data[i + 9]), k;
      }
    }
    return true;
  }

  lemma {:induction false} FirstFrame(data: seq<byte>, ms: seq<Marker>, f: nat)
    requires f < |ms| && FrameMarker(ms[f].code) && forall j :: 0 <= j < f ==> !FrameMarker(ms[j].code)
    ensures forall g: nat :: OneScanChain(data, ms, g) ==> g == f
  {
  }
}
