/**
 * The arithmetic of the scan read engine: where plane bytes land in the
 * interleaved RGB image, the colour inversion of a chunk, the expected image
 * size and the progress percentage.
 */
module ScanLayout {
  import opened Sane
  import opened Device

  /** KSaneScanThread::ReadStatus */
  datatype ReadStatus = ReadReady | ReadOnGoing | ReadError | ReadCancel

  /** A single-channel plane frame. */
  predicate IsPlane(f: Frame) {
    f == FrameRed || f == FrameGreen || f == FrameBlue
  }

  /** The channel a plane frame carries: 0 red, 1 green, 2 blue. */
  function Channel(f: Frame): (c: nat)
    requires IsPlane(f)
    ensures c < 3
    ensures c == 0 <==> f == FrameRed
    ensures c == 1 <==> f == FrameGreen
  {
    if f == FrameRed then 0 else if f == FrameGreen then 1 else 2
  }

  predicate PlaneDepth(depth: int) {
    depth == 8 || depth == 16
  }

  /**
   * The index_<colour><depth>_to_rgb<depth> macros: the image position of
   * byte k of plane c. At 8 bits a pixel is three bytes; at 16 bits it is
   * three two-byte samples, so byte k sits in pixel k / 2, half k % 2.
   */
  function PlaneIndex(depth: int, c: nat, k: nat): nat
    requires PlaneDepth(depth) && c < 3
  {
    if depth == 8 then k * 3 + c else (k / 2) * 6 + k % 2 + 2 * c
  }

  /** The plane an image position belongs to. */
  function PlaneOf(depth: int, p: nat): (c: nat)
    requires PlaneDepth(depth)
    ensures c < 3
  {
    if depth == 8 then p % 3 else (p % 6) / 2
  }

  /** The plane byte an image position holds. */
  function ByteOf(depth: int, p: nat): nat
    requires PlaneDepth(depth)
  {
    if depth == 8 then p / 3 else (p / 6) * 2 + p % 2
  }

  lemma DivMod2(a: int, q: int, r: int)
    requires 0 <= r < 2 && a == q * 2 + r
    ensures a / 2 == q && a % 2 == r
  {
  }

  lemma DivMod3(a: int, q: int, r: int)
    requires 0 <= r < 3 && a == q * 3 + r
    ensures a / 3 == q && a % 3 == r
  {
  }

  lemma DivMod6(a: int, q: int, r: int)
    requires 0 <= r < 6 && a == q * 6 + r
    ensures a / 6 == q && a % 6 == r
  {
  }

  /** Every plane byte has one position, and the position tells the byte back. */
  lemma {:induction false} PlaneIndexInverse(depth: int, c: nat, k: nat)
    requires PlaneDepth(depth) && c < 3
    ensures PlaneOf(depth, PlaneIndex(depth, c, k)) == c
    ensures ByteOf(depth, PlaneIndex(depth, c, k)) == k
  {
    var p := PlaneIndex(depth, c, k);
    if depth == 8 {
      DivMod3(p, k, c);
    } else {
      var q := k / 2;
      var h := k % 2;
      DivMod2(k, q, h);
      DivMod6(p, q, h + 2 * c);
      DivMod2(h + 2 * c, c, h);
      DivMod2(p, 3 * q + c, h);
    }
  }

  /** Every image position is the position of some plane byte. */
  lemma {:induction false} PlaneIndexOnto(depth: int, p: nat)
    requires PlaneDepth(depth)
    ensures PlaneIndex(depth, PlaneOf(depth, p), ByteOf(depth, p)) == p
  {
    if depth == 16 {
      var q := p / 6;
      var r := p % 6;
      var c := r / 2;
      var h := r % 2;
      DivMod2(p, 3 * q + c, h);
      DivMod2(q * 2 + h, q, h);
    }
  }

  /** The maps are injective and pairwise disjoint: no two plane bytes share a position. */
  lemma PlaneIndexInjective(depth: int, c1: nat, k1: nat, c2: nat, k2: nat)
    requires PlaneDepth(depth) && c1 < 3 && c2 < 3
    requires PlaneIndex(depth, c1, k1) == PlaneIndex(depth, c2, k2)
    ensures c1 == c2 && k1 == k2
  {
    PlaneIndexInverse(depth, c1, k1);
    PlaneIndexInverse(depth, c2, k2);
  }

  /** Within a plane, later bytes land further on. */
  lemma {:induction false} PlaneIndexMonotone(depth: int, c: nat, k: nat)
    requires PlaneDepth(depth) && c < 3
    ensures PlaneIndex(depth, c, k) < PlaneIndex(depth, c, k + 1)
  {
    if depth == 16 {
      if k % 2 == 0 {
        assert (k + 1) / 2 == k / 2 && (k + 1) % 2 == 1;
      } else {
        assert (k + 1) / 2 == k / 2 + 1 && (k + 1) % 2 == 0;
      }
    }
  }

  /** Plane bytes 0..n-1 land inside the first 3n positions (for 16 bits, n even). */
  lemma {:induction false} PlaneIndexBound(depth: int, c: nat, k: nat, n: nat)
    requires PlaneDepth(depth) && c < 3 && k < n
    requires depth == 16 ==> n % 2 == 0
    ensures PlaneIndex(depth, c, k) < 3 * n
  {
    if depth == 16 {
      assert k / 2 < n / 2 by {
        assert k / 2 * 2 <= k;
        assert n == n / 2 * 2;
      }
      assert (k / 2) * 6 + 6 <= (n / 2) * 6;
    }
  }

  // ---------------------------------------------------------------------------
  // Writing into the image

  /**
   * (*m_data)[p] = b on a QByteArray: overwrite a byte that exists, or grow
   * the array to p + 1 bytes first (the new bytes read as 0 here).
   */
  function SetAt(image: seq<Byte>, p: nat, b: Byte): (r: seq<Byte>)
    ensures |r| == if p < |image| then |image| else p + 1
    ensures r[p] == b
    ensures forall q :: 0 <= q < |image| && q != p ==> r[q] == image[q]
  {
    if p < |image| then image[p := b] else image + Zeros(p - |image|) + [b]
  }

  /** The image after the plane loop of copyToScanData wrote `data` as bytes start, start+1, ... of plane c. */
  function PlaceAll(image: seq<Byte>, depth: int, c: nat, start: nat, data: seq<Byte>): (r: seq<Byte>)
    requires PlaneDepth(depth) && c < 3
    decreases |data|
  {
    if data == [] then image
    else
      var n := |data| - 1;
      SetAt(PlaceAll(image, depth, c, start, data[..n]), PlaneIndex(depth, c, start + n), data[n])
  }

  /** The image grows exactly to hold the last byte written. */
  lemma {:induction false} PlaceAllLength(image: seq<Byte>, depth: int, c: nat, start: nat, data: seq<Byte>)
    requires PlaneDepth(depth) && c < 3
    ensures |PlaceAll(image, depth, c, start, data)| ==
      (if data == [] then |image| else Max(|image|, PlaneIndex(depth, c, start + |data| - 1) + 1))
    decreases |data|
  {
    if data != [] {
      var n := |data| - 1;
      PlaceAllLength(image, depth, c, start, data[..n]);
      if n > 0 {
        PlaneIndexMonotone(depth, c, start + n - 1);
      }
    }
  }

  /** Every byte of `data` sits at its plane position. */
  lemma {:induction false} PlaceAllWrites(image: seq<Byte>, depth: int, c: nat, start: nat, data: seq<Byte>, i: nat)
    requires PlaneDepth(depth) && c < 3 && i < |data|
    ensures PlaneIndex(depth, c, start + i) < |PlaceAll(image, depth, c, start, data)|
    ensures PlaceAll(image, depth, c, start, data)[PlaneIndex(depth, c, start + i)] == data[i]
    decreases |data|
  {
    var n := |data| - 1;
    var prefix := data[..n];
    var p := PlaneIndex(depth, c, start + n);
    if i < n {
      PlaceAllWrites(image, depth, c, start, prefix, i);
      assert prefix[i] == data[i];
      PlaneIndexInverse(depth, c, start + i);
      PlaneIndexInverse(depth, c, start + n);
    }
  }

  /** Every position that is not one of the written plane bytes keeps its byte. */
  lemma {:induction false} PlaceAllKeeps(image: seq<Byte>, depth: int, c: nat, start: nat, data: seq<Byte>, q: nat)
    requires PlaneDepth(depth) && c < 3 && q < |image|
    requires !Hit(depth, c, start, |data|, q)
    ensures q < |PlaceAll(image, depth, c, start, data)|
    ensures PlaceAll(image, depth, c, start, data)[q] == image[q]
    decreases |data|
  {
    if data != [] {
      var n := |data| - 1;
      PlaceAllKeeps(image, depth, c, start, data[..n], q);
      PlaneIndexInverse(depth, c, start + n);
    }
  }

  function Max(a: int, b: int): int {
    if a < b then b else a
  }

  /** Position p holds one of plane c's bytes start .. start+count-1. */
  predicate Hit(depth: int, c: nat, start: nat, count: nat, p: nat)
    requires PlaneDepth(depth) && c < 3
  {
    PlaneOf(depth, p) == c && start <= ByteOf(depth, p) < start + count
  }

  /**
   * Three full planes of n bytes, written red, green, blue into an empty
   * image, give exactly the 3n-byte interleaved image: byte k of each plane
   * sits at its plane position and nothing else is left over.
   */
  lemma {:induction false} ThreePlanes(depth: int, r: seq<Byte>, g: seq<Byte>, b: seq<Byte>)
    requires PlaneDepth(depth)
    requires |r| == |g| == |b| > 0
    requires depth == 16 ==> |r| % 2 == 0
    ensures var img := PlaceAll(PlaceAll(PlaceAll([], depth, 0, 0, r), depth, 1, 0, g), depth, 2, 0, b);
      && |img| == 3 * |r|
      && forall k :: 0 <= k < |r| ==>
           img[PlaneIndex(depth, 0, k)] == r[k] && img[PlaneIndex(depth, 1, k)] == g[k]
           && img[PlaneIndex(depth, 2, k)] == b[k]
  {
    ThreePlanesLength(depth, r, g, b);
    forall k | 0 <= k < |r|
      ensures var img := PlaceAll(PlaceAll(PlaceAll([], depth, 0, 0, r), depth, 1, 0, g), depth, 2, 0, b);
        img[PlaneIndex(depth, 0, k)] == r[k] && img[PlaneIndex(depth, 1, k)] == g[k]
        && img[PlaneIndex(depth, 2, k)] == b[k]
    {
      ThreePlanesAt(depth, r, g, b, k);
    }
  }

  lemma {:induction false} ThreePlanesLength(depth: int, r: seq<Byte>, g: seq<Byte>, b: seq<Byte>)
    requires PlaneDepth(depth)
    requires |r| == |g| == |b| > 0
    requires depth == 16 ==> |r| % 2 == 0
    ensures |PlaceAll(PlaceAll(PlaceAll([], depth, 0, 0, r), depth, 1, 0, g), depth, 2, 0, b)| == 3 * |r|
  {
    var n := |r|;
    var i1 := PlaceAll([], depth, 0, 0, r);
    var i2 := PlaceAll(i1, depth, 1, 0, g);
    PlaceAllLength([], depth, 0, 0, r);
    PlaceAllLength(i1, depth, 1, 0, g);
    PlaceAllLength(i2, depth, 2, 0, b);
    if depth == 16 {
      DivMod2(n - 1, n / 2 - 1, 1);
    }
  }

  lemma {:induction false} ThreePlanesAt(depth: int, r: seq<Byte>, g: seq<Byte>, b: seq<Byte>, k: nat)
    requires PlaneDepth(depth)
    requires |r| == |g| == |b| && k < |r|
    ensures var img := PlaceAll(PlaceAll(PlaceAll([], depth, 0, 0, r), depth, 1, 0, g), depth, 2, 0, b);
      && PlaneIndex(depth, 0, k) < |img| && img[PlaneIndex(depth, 0, k)] == r[k]
      && PlaneIndex(depth, 1, k) < |img| && img[PlaneIndex(depth, 1, k)] == g[k]
      && PlaneIndex(depth, 2, k) < |img| && img[PlaneIndex(depth, 2, k)] == b[k]
  {
    var i1 := PlaceAll([], depth, 0, 0, r);
    var i2 := PlaceAll(i1, depth, 1, 0, g);
    RedSurvives(depth, r, g, b, k);
    GreenSurvives(i1, depth, g, b, k);
    PlaceAllWrites(i2, depth, 2, 0, b, k);
  }

  lemma {:induction false} RedSurvives(depth: int, r: seq<Byte>, g: seq<Byte>, b: seq<Byte>, k: nat)
    requires PlaneDepth(depth) && k < |r|
    ensures var img := PlaceAll(PlaceAll(PlaceAll([], depth, 0, 0, r), depth, 1, 0, g), depth, 2, 0, b);
      PlaneIndex(depth, 0, k) < |img| && img[PlaneIndex(depth, 0, k)] == r[k]
  {
    var i1 := PlaceAll([], depth, 0, 0, r);
    var i2 := PlaceAll(i1, depth, 1, 0, g);
    PlaceAllWrites([], depth, 0, 0, r, k);
    OtherPlaneKeeps(i1, depth, 0, 1, g, k);
    OtherPlaneKeeps(i2, depth, 0, 2, b, k);
  }

  lemma {:induction false} GreenSurvives(i1: seq<Byte>, depth: int, g: seq<Byte>, b: seq<Byte>, k: nat)
    requires PlaneDepth(depth) && k < |g|
    ensures var img := PlaceAll(PlaceAll(i1, depth, 1, 0, g), depth, 2, 0, b);
      PlaneIndex(depth, 1, k) < |img| && img[PlaneIndex(depth, 1, k)] == g[k]
  {
    PlaceAllWrites(i1, depth, 1, 0, g, k);
    OtherPlaneKeeps(PlaceAll(i1, depth, 1, 0, g), depth, 1, 2, b, k);
  }

  /** Writing plane c2 leaves every byte of another plane c where it was. */
  lemma {:induction false} OtherPlaneKeeps(image: seq<Byte>, depth: int, c: nat, c2: nat, data: seq<Byte>, k: nat)
    requires PlaneDepth(depth) && c < 3 && c2 < 3 && c != c2
    requires PlaneIndex(depth, c, k) < |image|
    ensures PlaneIndex(depth, c, k) < |PlaceAll(image, depth, c2, 0, data)|
    ensures PlaceAll(image, depth, c2, 0, data)[PlaneIndex(depth, c, k)] == image[PlaneIndex(depth, c, k)]
  {
    PlaneIndexInverse(depth, c, k);
    PlaceAllKeeps(image, depth, c2, 0, data, PlaneIndex(depth, c, k));
  }

  // ---------------------------------------------------------------------------
  // Colour inversion

  /** ~b on an unsigned char: the complement, truncated back to eight bits. */
  function BitNot(b: Byte): Byte {
    (-(b as int) - 1) % 256
  }

  /** The 16-bit sample two bytes hold in host order. */
  function Sample16(b0: Byte, b1: Byte, bigEndian: bool): (w: int)
    ensures 0 <= w < 0x1_0000
  {
    if bigEndian then b0 * 256 + b1 else b1 * 256 + b0
  }

  /** Whether the inversion of a chunk of n bytes at this depth touches byte i. */
  predicate Inverts(depth: int, n: int, i: int) {
    depth == 8 || depth == 1 || (depth == 16 && i < n / 2 * 2)
  }

  /**
   * The chunk after the inversion step of copyToScanData: at 8 and 1 bits
   * every byte is complemented; at 16 bits every whole 16-bit sample is
   * (an odd trailing byte is left as it is); other depths are not inverted.
   */
  function Inverted(data: seq<Byte>, depth: int): (r: seq<Byte>)
    ensures |r| == |data|
    ensures forall i :: 0 <= i < |data| && !Inverts(depth, |data|, i) ==> r[i] == data[i]
    ensures forall i :: 0 <= i < |data| && Inverts(depth, |data|, i) ==> r[i] == 255 - data[i]
  {
    seq(|data|, i requires 0 <= i < |data| =>
      if Inverts(depth, |data|, i) then 255 - data[i] else data[i])
  }

  /** Complementing a 16-bit sample complements each of its bytes, in either byte order. */
  lemma Complement16(b0: Byte, b1: Byte, bigEndian: bool)
    ensures 0xFFFF - Sample16(b0, b1, bigEndian) == Sample16(255 - b0, 255 - b1, bigEndian)
  {
  }

  /** ~b and 0xFF - b agree on every byte. */
  lemma {:induction false} BitNotComplement(b: Byte)
    ensures BitNot(b) == 255 - b
  {
    DivModOf256(-(b as int) - 1, 255 - b);
  }

  lemma DivModOf256(a: int, r: int)
    requires 0 <= r < 256 && a == r - 256
    ensures a % 256 == r
  {
  }

  /** Inverting a chunk twice gives the chunk back, at every depth. */
  lemma {:induction false} InvertedTwice(data: seq<Byte>, depth: int)
    ensures Inverted(Inverted(data, depth), depth) == data
  {
    var once := Inverted(data, depth);
    var twice := Inverted(once, depth);
    assert |twice| == |data|;
    forall i | 0 <= i < |data|
      ensures twice[i] == data[i]
    {
    }
  }

  // ---------------------------------------------------------------------------
  // Placement of a chunk

  /** copyToScanData's outcome: the image, m_frameRead, and whether the format was handled. */
  datatype Placed = Placed(image: seq<Byte>, frameRead: int, ok: bool)

  /** The frame formats copyToScanData handles at a given depth. */
  predicate Handled(p: Parameters) {
    || p.format == FrameGray
    || (p.format == FrameRgb && p.depth != 1)
    || (IsPlane(p.format) && PlaneDepth(p.depth))
  }

  /**
   * The placement step of copyToScanData for a chunk `data`: GRAY and RGB
   * append, plane frames scatter their bytes to the plane positions, and
   * anything else leaves the image and m_frameRead as they were.
   */
  function Placement(image: seq<Byte>, frameRead: nat, p: Parameters, data: seq<Byte>): (pl: Placed)
    ensures pl.ok <==> Handled(p)
    ensures !pl.ok ==> pl.image == image && pl.frameRead == frameRead
    ensures pl.ok ==> pl.frameRead == frameRead + |data|
    ensures pl.ok && !IsPlane(p.format) ==> pl.image == image + data
    ensures pl.ok && IsPlane(p.format) ==>
      pl.image == PlaceAll(image, p.depth, Channel(p.format), frameRead, data)
  {
    match p.format
    case FrameGray => Placed(image + data, frameRead + |data|, true)
    case FrameRgb =>
      if p.depth == 1 then Placed(image, frameRead, false)
      else Placed(image + data, frameRead + |data|, true)
    case FrameOther(_) => Placed(image, frameRead, false)
    case _ =>
      if PlaneDepth(p.depth) then
        Placed(PlaceAll(image, p.depth, Channel(p.format), frameRead, data), frameRead + |data|, true)
      else Placed(image, frameRead, false)
  }

  // ---------------------------------------------------------------------------
  // Sizes and progress

  /** m_frameSize: the bytes of one frame. */
  function FrameBytes(p: Parameters): int {
    p.lines * p.bytesPerLine
  }

  /** m_dataSize: the bytes of the whole image; a plane frame is one of three. */
  function DataSize(p: Parameters): (n: int)
    ensures IsPlane(p.format) ==> n == 3 * FrameBytes(p)
    ensures !IsPlane(p.format) ==> n == FrameBytes(p)
  {
    if IsPlane(p.format) then FrameBytes(p) * 3 else FrameBytes(p)
  }

  /** Three plane frames of the announced size fill the expected image exactly. */
  lemma {:induction false} PlanesFillDataSize(p: Parameters, r: seq<Byte>, g: seq<Byte>, b: seq<Byte>)
    requires IsPlane(p.format) && PlaneDepth(p.depth)
    requires |r| == |g| == |b| == FrameBytes(p) > 0
    requires p.depth == 16 ==> FrameBytes(p) % 2 == 0
    ensures |PlaceAll(PlaceAll(PlaceAll([], p.depth, 0, 0, r), p.depth, 1, 0, g), p.depth, 2, 0, b)| == DataSize(p)
  {
    ThreePlanes(p.depth, r, g, b);
  }

  /** C integer division: the quotient truncated toward zero. */
  function TruncDiv(a: int, b: int): (q: int)
    requires b != 0
    ensures a >= 0 && b > 0 ==> q == a / b
    ensures a < 0 && b > 0 ==> q == -((-a) / b)
    ensures (a >= 0) == (b > 0) || a == 0 ==> q >= 0
  {
    var m := (if a < 0 then -a else a) / (if b < 0 then -b else b);
    if (a < 0) != (b < 0) then -m else m
  }

  /**
   * TruncDiv is C division: the remainder a - q * b takes the sign of the
   * dividend and is smaller than the divisor in magnitude.
   */
  lemma {:induction false} TruncDivRemainder(a: int, b: int)
    requires b != 0
    ensures var r := a - TruncDiv(a, b) * b;
      && (a >= 0 ==> 0 <= r < (if b < 0 then -b else b))
      && (a < 0 ==> -(if b < 0 then -b else b) < r <= 0)
  {
    if a >= 0 && b > 0 {
      DivRem(a, b);
    } else if a < 0 && b > 0 {
      RemainderNegPos(a, b);
    } else if a >= 0 {
      RemainderPosNeg(a, b);
    } else {
      RemainderNegNeg(a, b);
    }
  }

  lemma RemainderNegPos(a: int, b: int)
    requires a < 0 < b
    ensures -b < a - TruncDiv(a, b) * b <= 0
  {
    var x := (-a) / b;
    DivRem(-a, b);
    assert TruncDiv(a, b) == -x;
    assert -x * b == -(x * b);
  }

  lemma RemainderPosNeg(a: int, b: int)
    requires a >= 0 && b < 0
    ensures 0 <= a - TruncDiv(a, b) * b < -b
  {
    var x := a / (-b);
    DivRem(a, -b);
    assert TruncDiv(a, b) == -x;
    assert -x * b == x * (-b);
  }

  lemma RemainderNegNeg(a: int, b: int)
    requires a < 0 && b < 0
    ensures b < a - TruncDiv(a, b) * b <= 0
  {
    var x := (-a) / (-b);
    DivRem(-a, -b);
    assert TruncDiv(a, b) == x;
    assert x * b == -(x * (-b));
  }

  /** Euclidean division of naturals leaves a remainder below the divisor. */
  lemma DivRem(a: int, b: int)
    requires a >= 0 && b > 0
    ensures 0 <= a - (a / b) * b < b
  {
  }

  /** The byte count scanProgress measures: earlier frames of a plane scan count in full. */
  function BytesRead(frameSize: int, frameRead: int, count: int, dataSize: int): int {
    if frameSize < dataSize then frameRead + frameSize * count else frameRead
  }

  /** scanProgress: the percentage of the expected image read so far. */
  function Progress(frameSize: int, frameRead: int, count: int, dataSize: int): (pc: int)
    ensures dataSize == 0 ==> pc == 0
    ensures dataSize > 0 && BytesRead(frameSize, frameRead, count, dataSize) >= 0 ==>
      pc == BytesRead(frameSize, frameRead, count, dataSize) * 100 / dataSize
  {
    if dataSize == 0 then 0
    else TruncDiv(BytesRead(frameSize, frameRead, count, dataSize) * 100, dataSize)
  }

  /** The percentage lies in [0, 100] whenever the bytes read do not exceed the expected size. */
  lemma {:induction false} ProgressRange(frameSize: int, frameRead: int, count: int, dataSize: int)
    requires dataSize > 0
    requires 0 <= BytesRead(frameSize, frameRead, count, dataSize) <= dataSize
    ensures 0 <= Progress(frameSize, frameRead, count, dataSize) <= 100
    ensures BytesRead(frameSize, frameRead, count, dataSize) == dataSize ==>
      Progress(frameSize, frameRead, count, dataSize) == 100
  {
    var n := BytesRead(frameSize, frameRead, count, dataSize);
    MulDivBound(n, dataSize);
  }

  lemma MulDivBound(n: int, d: int)
    requires 0 <= n <= d && d > 0
    ensures 0 <= n * 100 / d <= 100
    ensures n == d ==> n * 100 / d == 100
  {
    var q := n * 100 / d;
    var r := n * 100 % d;
    assert n * 100 == q * d + r && 0 <= r < d;
    MulMono(101, q, d);
    MulMono(q, -1, d);
    MulMono(q, 99, d);
    assert 101 * d == 100 * d + d;
    assert 99 * d == 100 * d - d;
    assert -1 * d == -d;
  }

  /** Multiplying by a non-negative factor keeps the order. */
  lemma MulMono(x: int, y: int, d: int)
    ensures x <= y && d >= 0 ==> x * d <= y * d
  {
    if x <= y && d >= 0 {
      assert y * d - x * d == (y - x) * d;
    }
  }

  /**
   * During a three-plane scan, while the current frame is not overfull and
   * at most two frames are complete, the percentage stays in [0, 100] and
   * reaches 100 at the end of the blue frame.
   */
  lemma {:induction false} PlaneProgress(p: Parameters, frameRead: int, count: int)
    requires IsPlane(p.format) && FrameBytes(p) > 0
    requires 0 <= frameRead <= FrameBytes(p) && 0 <= count <= 2
    ensures 0 <= Progress(FrameBytes(p), frameRead, count, DataSize(p)) <= 100
    ensures count == 2 && frameRead == FrameBytes(p) ==>
      Progress(FrameBytes(p), frameRead, count, DataSize(p)) == 100
  {
    var f := FrameBytes(p);
    assert f < DataSize(p);
    assert f * count <= f * 2 by {
      if count == 0 { } else if count == 1 { } else { }
    }
    ProgressRange(f, frameRead, count, DataSize(p));
  }

  // ---------------------------------------------------------------------------
  // Line-art bytes-per-line correction

  /**
   * The correction readData applies after a short 1-bit frame: when the
   * bytes read cover every pixel of the announced lines, bytes_per_line
   * becomes frameRead / lines.
   */
  function CorrectedParams(p: Parameters, frameRead: nat): (q: Parameters)
    ensures q.(bytesPerLine := p.bytesPerLine) == p
    ensures !(p.depth == 1 && p.lines > 0 && p.lines * p.pixelsPerLine <= frameRead * 8) ==> q == p
  {
    if p.depth == 1 && p.lines > 0 && p.lines * p.pixelsPerLine <= frameRead * 8 then
      p.(bytesPerLine := frameRead / p.lines)
    else p
  }

  /**
   * A corrected frame is the largest whole number of lines the bytes read
   * can fill: it never claims more bytes than were read, and one more line
   * per row would.
   */
  lemma {:induction false} CorrectedFrameFits(p: Parameters, frameRead: nat)
    requires p.depth == 1 && p.lines > 0 && p.lines * p.pixelsPerLine <= frameRead * 8
    ensures var q := CorrectedParams(p, frameRead);
      FrameBytes(q) <= frameRead < FrameBytes(q) + q.lines
  {
    var q := CorrectedParams(p, frameRead);
    var bpl := frameRead / p.lines;
    assert q.bytesPerLine == bpl;
    assert frameRead == p.lines * bpl + frameRead % p.lines;
  }
}
