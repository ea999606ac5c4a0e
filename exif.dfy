/**
 * lib/exif.ts: reading the EXIF orientation tag of a JPEG and the canvas
 * transform for each orientation. The parser walks the JPEG markers from the
 * SOI to the first APP1 segment, checks its "Exif" identifier, reads the TIFF
 * header (byte order "II" or "MM", magic 42, the offset of IFD0; section 2 of
 * TIFF 6.0) and scans the 12-byte entries of IFD0 for tag 0x0112.
 *
 * The buffer is a sequence of bytes; `DataView` reads become sequence
 * indexing, `U16` and `U32`, whose preconditions are the bounds every read in
 * the parser meets, so verifying the parser shows no read leaves the buffer.
 * The recursive functions say what the parser computes; the methods are the
 * parser's own loops, proved to compute it.
 */
module Exif {
  type byte = x: int | 0 <= x < 256

  /** Marker bytes after 0xFF: APP1, and the two markers without a length field. */
  const APP1: byte := 0xE1
  const SOI_MARKER: byte := 0xD8
  const EOI_MARKER: byte := 0xD9

  /** The four identifier bytes "Exif" the parser compares (the two NULs after them are skipped unread). */
  const EXIF_ID: seq<byte> := [0x45, 0x78, 0x69, 0x66]

  const LITTLE_ENDIAN_MARK := 0x4949
  const TIFF_MAGIC := 0x002A
  const ORIENTATION_TAG := 0x0112
  const IFD_ENTRY_SIZE := 12

  /** `getExifOrientation` reads at most this many leading bytes. */
  const EXIF_READ_LIMIT := 65536

  /** The orientation that means "no transform", and the answer to anything unreadable. */
  const NORMAL := 1

  /** `getUint16(i, littleEndian)`. */
  function U16(buf: seq<byte>, i: nat, little: bool): (r: nat)
    requires i + 2 <= |buf|
    ensures r < 0x1_0000
    ensures little ==> r % 256 == buf[i] && r / 256 == buf[i + 1]
    ensures !little ==> r / 256 == buf[i] && r % 256 == buf[i + 1]
  {
    var first: int, second: int := buf[i], buf[i + 1];
    if little then first + 256 * second else 256 * first + second
  }

  /** `getUint32(i, littleEndian)`: two halfwords, in the byte order's sequence. */
  function U32(buf: seq<byte>, i: nat, little: bool): (r: nat)
    requires i + 4 <= |buf|
    ensures r < 0x1_0000_0000
    ensures little ==> r % 0x1_0000 == U16(buf, i, true) && r / 0x1_0000 == U16(buf, i + 2, true)
    ensures !little ==> r / 0x1_0000 == U16(buf, i, false) && r % 0x1_0000 == U16(buf, i + 2, false)
  {
    if little then U16(buf, i, true) + 0x1_0000 * U16(buf, i + 2, true)
    else 0x1_0000 * U16(buf, i, false) + U16(buf, i + 2, false)
  }

  /** The buffer starts with the JPEG SOI marker 0xFFD8. */
  predicate HasSoi(buf: seq<byte>)
  {
    |buf| >= 2 && U16(buf, 0, false) == 0xFFD8
  }

  /** An APP1 marker (0xFF 0xE1) sits at offset `k`. */
  predicate IsApp1At(buf: seq<byte>, k: nat)
  {
    k + 1 < |buf| && buf[k] == 0xFF && buf[k + 1] == APP1
  }

  /** SOI and EOI carry no length field. */
  predicate IsStandalone(marker: byte)
  {
    marker == SOI_MARKER || marker == EOI_MARKER
  }

  /**
   * The marker scan goes on past offset `offset`: a marker other than APP1
   * is there, and a marker with a length field has its two length bytes.
   */
  predicate Continues(buf: seq<byte>, offset: nat)
  {
    offset + 1 < |buf| && buf[offset] == 0xFF && buf[offset + 1] != APP1 &&
    (IsStandalone(buf[offset + 1]) || offset + 3 < |buf|)
  }

  /** Where the scan goes after the marker at `offset`: past the marker, and past its segment when it has one. */
  function NextSegment(buf: seq<byte>, offset: nat): (next: nat)
    requires Continues(buf, offset)
    ensures next >= offset + 2
    ensures IsStandalone(buf[offset + 1]) ==> next == offset + 2
  {
    if IsStandalone(buf[offset + 1]) then offset + 2 else offset + 2 + U16(buf, offset + 2, false)
  }

  /**
   * The marker loop of `parseExifOrientation` from `offset` on: the first
   * APP1 decides, a byte other than 0xFF, a cut-off length field or the end
   * of the buffer give 1.
   */
  function ScanMarkers(buf: seq<byte>, offset: nat): (r: int)
    ensures NORMAL <= r <= 8
    decreases |buf| - offset
  {
    if IsApp1At(buf, offset) then App1Orientation(buf, offset + 2)
    else if Continues(buf, offset) then ScanMarkers(buf, NextSegment(buf, offset))
    else NORMAL
  }

  /** What `parseExifOrientation` returns for a buffer. */
  function ExifOrientation(buf: seq<byte>): (r: int)
    ensures NORMAL <= r <= 8
    ensures !HasSoi(buf) ==> r == NORMAL
  {
    if HasSoi(buf) then ScanMarkers(buf, 2) else NORMAL
  }

  /**
   * What `parseApp1` returns for the APP1 segment whose length field is at
   * `start`: 1 unless the identifier, the TIFF byte order and magic, IFD0
   * and an in-range orientation entry are all there.
   */
  function App1Orientation(buf: seq<byte>, start: nat): (r: int)
    ensures NORMAL <= r <= 8
  {
    var id := start + 2;
    var tiff := id + 6;
    if id + 6 >= |buf| || buf[id..id + 4] != EXIF_ID then NORMAL
    else if tiff + 4 >= |buf| then NORMAL
    else
      var little := U16(buf, tiff, false) == LITTLE_ENDIAN_MARK;
      if U16(buf, tiff + 2, little) != TIFF_MAGIC || tiff + 8 >= |buf| then NORMAL
      else
        var ifd := tiff + U32(buf, tiff + 4, little);
        if ifd + 2 >= |buf| then NORMAL
        else IfdOrientation(buf, ifd + 2, little, U16(buf, ifd, little))
  }

  /** An orientation value read from the file: 1 to 8 are kept, anything else is 1. */
  function ValidOrientation(value: int): (r: int)
    ensures NORMAL <= r <= 8
    ensures 1 <= value <= 8 <==> r == value
    ensures !(1 <= value <= 8) ==> r == NORMAL
  {
    if 1 <= value <= 8 then value else NORMAL
  }

  /**
   * The entry loop of `parseApp1`: `count` entries from `entry` on, the
   * first Orientation tag deciding; an entry that does not fit gives 1.
   */
  function IfdOrientation(buf: seq<byte>, entry: nat, little: bool, count: nat): (r: int)
    ensures NORMAL <= r <= 8
    decreases count
  {
    if count == 0 || entry + IFD_ENTRY_SIZE > |buf| then NORMAL
    else if U16(buf, entry, little) == ORIENTATION_TAG then ValidOrientation(U16(buf, entry + 8, little))
    else IfdOrientation(buf, entry + IFD_ENTRY_SIZE, little, count - 1)
  }

  /** `parseExifOrientation`: the marker loop over a mutable offset. */
  method ParseExifOrientation(buf: seq<byte>) returns (o: int)
    ensures o == ExifOrientation(buf)
  {
    if |buf| < 2 || U16(buf, 0, false) != 0xFFD8 {
      return NORMAL;
    }
    var offset := 2;
    var length := |buf|;
    while offset < length - 1
      invariant offset >= 2
      invariant ScanMarkers(buf, offset) == ExifOrientation(buf)
      decreases length - offset
    {
      if buf[offset] != 0xFF {
        return NORMAL;
      }
      var marker := buf[offset + 1];
      if marker == APP1 {
        o := ParseApp1(buf, offset + 2);
        return;
      }
      if marker == SOI_MARKER || marker == EOI_MARKER {
        offset := offset + 2;
      } else {
        if offset + 3 >= length {
          return NORMAL;
        }
        var segLength := U16(buf, offset + 2, false);
        offset := offset + 2 + segLength;
      }
    }
    return NORMAL;
  }

  /** `parseApp1`: the header checks, then the entry loop over IFD0. */
  method ParseApp1(buf: seq<byte>, start: nat) returns (o: int)
    ensures o == App1Orientation(buf, start)
  {
    var offset: nat := start;
    if offset + 2 >= |buf| {
      return NORMAL;
    }
    offset := offset + 2;
    if offset + 6 >= |buf| {
      return NORMAL;
    }
    var exifId := buf[offset..offset + 4];
    if exifId != EXIF_ID {
      return NORMAL;
    }
    offset := offset + 6;
    var tiffStart := offset;
    if offset + 2 >= |buf| {
      return NORMAL;
    }
    var byteOrder := U16(buf, offset, false);
    var little := byteOrder == LITTLE_ENDIAN_MARK;
    if offset + 4 >= |buf| {
      return NORMAL;
    }
    var magic := U16(buf, offset + 2, little);
    if magic != TIFF_MAGIC {
      return NORMAL;
    }
    if offset + 8 >= |buf| {
      return NORMAL;
    }
    var ifdOffset := U32(buf, offset + 4, little);
    offset := tiffStart + ifdOffset;
    if offset + 2 >= |buf| {
      return NORMAL;
    }
    var numEntries := U16(buf, offset, little);
    o := ScanIfd(buf, offset + 2, little, numEntries);
  }

  /** The entry loop of `parseApp1` over `numEntries` entries from `offset`. */
  method ScanIfd(buf: seq<byte>, offset: nat, little: bool, numEntries: nat) returns (o: int)
    ensures o == IfdOrientation(buf, offset, little, numEntries)
  {
    var entry := offset;
    for i := 0 to numEntries
      invariant entry == offset + IFD_ENTRY_SIZE * i
      invariant IfdOrientation(buf, entry, little, numEntries - i) == IfdOrientation(buf, offset, little, numEntries)
    {
      if entry + IFD_ENTRY_SIZE > |buf| {
        return NORMAL;
      }
      var tag := U16(buf, entry, little);
      if tag == ORIENTATION_TAG {
        var value := U16(buf, entry + 8, little);
        return if value >= 1 && value <= 8 then value else NORMAL;
      }
      entry := entry + IFD_ENTRY_SIZE;
    }
    return NORMAL;
  }

  /** The marker scan starting at `from` passes through offset `k`. */
  ghost predicate Reaches(buf: seq<byte>, from: nat, k: nat)
    decreases |buf| - from
  {
    from == k || (Continues(buf, from) && Reaches(buf, NextSegment(buf, from), k))
  }

  /** From any offset it passes through, the scan ends at the first APP1 it meets. */
  lemma {:induction false} ScanReachesApp1(buf: seq<byte>, from: nat, k: nat)
    requires Reaches(buf, from, k) && IsApp1At(buf, k)
    ensures ScanMarkers(buf, from) == App1Orientation(buf, k + 2)
    decreases |buf| - from
  {
    if from != k {
      ScanReachesApp1(buf, NextSegment(buf, from), k);
    }
  }

  /**
   * The first APP1 segment the scan reaches decides the orientation: if it
   * is not a well-formed EXIF segment the answer is 1, whatever follows it.
   */
  lemma FirstApp1Decides(buf: seq<byte>, k: nat)
    requires HasSoi(buf) && Reaches(buf, 2, k) && IsApp1At(buf, k)
    ensures ExifOrientation(buf) == App1Orientation(buf, k + 2)
  {
    ScanReachesApp1(buf, 2, k);
  }

  /** Without an APP1 marker anywhere after `from`, the scan gives 1. */
  lemma {:induction false} ScanWithoutApp1(buf: seq<byte>, from: nat)
    requires forall i: nat | from <= i :: !IsApp1At(buf, i)
    ensures ScanMarkers(buf, from) == NORMAL
    decreases |buf| - from
  {
    if Continues(buf, from) {
      ScanWithoutApp1(buf, NextSegment(buf, from));
    }
  }

  /** Only an APP1 segment can give an orientation other than 1. */
  lemma OrientationNeedsApp1(buf: seq<byte>)
    requires ExifOrientation(buf) != NORMAL
    ensures HasSoi(buf) && exists k: nat :: 2 <= k && IsApp1At(buf, k)
  {
    if forall k: nat | 2 <= k :: !IsApp1At(buf, k) {
      ScanWithoutApp1(buf, 2);
    }
  }

  /**
   * The smallest JPEG carrying an orientation: SOI, an APP1 segment with
   * "Exif\0\0", a little-endian TIFF header whose IFD0 follows it, one
   * Orientation entry of type SHORT holding `value`, and EOI (40 bytes).
   */
  function OrientedJpeg(value: byte): (buf: seq<byte>)
    ensures |buf| == 40
  {
    [0xFF, 0xD8, 0xFF, 0xE1, 0x00, 0x20] + [0x45, 0x78, 0x69, 0x66, 0x00, 0x00] +
    [0x49, 0x49, 0x2A, 0x00, 0x08, 0x00, 0x00, 0x00] + [0x01, 0x00] +
    [0x12, 0x01, 0x03, 0x00, 0x01, 0x00, 0x00, 0x00, value, 0x00, 0x00, 0x00] +
    [0xFF, 0xD9, 0x00, 0x00, 0x00, 0x00]
  }

  /** The orientation written into `OrientedJpeg` is the one read back, when it is valid. */
  lemma OrientedJpegRoundTrip(value: byte)
    ensures ExifOrientation(OrientedJpeg(value)) == ValidOrientation(value)
  {
  }

  /** A JPEG with SOI and EOI and nothing between them has orientation 1. */
  lemma BareJpeg()
    ensures ExifOrientation([0xFF, 0xD8, 0xFF, 0xD9]) == NORMAL
  {
  }

  /**
   * `getExifOrientation` on a file of type `fileType` whose bytes are
   * `contents`. `readFails` stands for the FileReader rejecting, which the
   * function catches. A non-empty type other than image/jpeg is not read.
   */
  function GetExifOrientation(fileType: string, contents: seq<byte>, readFails: bool): (r: int)
    ensures NORMAL <= r <= 8
    ensures fileType != "" && fileType != "image/jpeg" ==> r == NORMAL
    ensures readFails ==> r == NORMAL
  {
    if fileType != "" && fileType != "image/jpeg" then NORMAL
    else if readFails then NORMAL
    else ExifOrientation(contents[..if |contents| < EXIF_READ_LIMIT then |contents| else EXIF_READ_LIMIT])
  }

  /** Bytes past the first 64 KiB never change the orientation. */
  lemma ReadLimit(fileType: string, head: seq<byte>, tail: seq<byte>, readFails: bool)
    requires |head| >= EXIF_READ_LIMIT
    ensures GetExifOrientation(fileType, head + tail, readFails) == GetExifOrientation(fileType, head, readFails)
  {
    assert (head + tail)[..EXIF_READ_LIMIT] == head[..EXIF_READ_LIMIT];
  }

  /**
   * `needsSwapDimensions`: orientations 5 to 8 turn the image by a quarter:
   * exactly those whose transform sends the x axis onto the y axis.
   */
  predicate NeedsSwapDimensions(orientation: int)
    ensures NeedsSwapDimensions(orientation) <==> OrientationTransform(0, 0, orientation).a == 0
  {
    5 <= orientation <= 8
  }

  /**
   * The arguments of `ctx.transform(a, b, c, d, e, f)`: a point (x, y) goes
   * to (a x + c y + e, b x + d y + f).
   */
  datatype Transform = Transform(a: int, b: int, c: int, d: int, e: int, f: int)

  function Apply(t: Transform, x: int, y: int): (int, int)
  {
    (t.a * x + t.c * y + t.e, t.b * x + t.d * y + t.f)
  }

  /**
   * The switch of `applyExifOrientation`: the transform for each orientation,
   * none (the identity) for 1 and for any unknown value. Every one is a rigid
   * motion of the pixel grid: its linear part has orthonormal columns.
   */
  function OrientationTransform(width: int, height: int, orientation: int): (t: Transform)
    ensures t.a * t.a + t.b * t.b == 1 && t.c * t.c + t.d * t.d == 1 && t.a * t.c + t.b * t.d == 0
    ensures !(2 <= orientation <= 8) ==> t == Transform(1, 0, 0, 1, 0, 0)
    ensures 2 <= orientation <= 8 ==> t != Transform(1, 0, 0, 1, 0, 0)
  {
    match orientation
    case 2 => Transform(-1, 0, 0, 1, width, 0)
    case 3 => Transform(-1, 0, 0, -1, width, height)
    case 4 => Transform(1, 0, 0, -1, 0, height)
    case 5 => Transform(0, 1, 1, 0, 0, 0)
    case 6 => Transform(0, 1, -1, 0, height, 0)
    case 7 => Transform(0, -1, -1, 0, height, width)
    case 8 => Transform(0, -1, 1, 0, 0, width)
    case _ => Transform(1, 0, 0, 1, 0, 0)
  }

  /**
   * Every orientation's transform puts the width-by-height image onto the
   * canvas, whose sides are swapped exactly when `NeedsSwapDimensions` says so.
   */
  lemma OrientedImageFillsCanvas(width: nat, height: nat, orientation: int, x: int, y: int)
    requires 0 <= x <= width && 0 <= y <= height
    ensures var p := Apply(OrientationTransform(width, height, orientation), x, y);
      var (w, h) := if NeedsSwapDimensions(orientation) then (height, width) else (width, height);
      0 <= p.0 <= w && 0 <= p.1 <= h
  {
  }
}
