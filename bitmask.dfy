/**
 * The bitmask generator: a texture sub-rectangle becomes a packed opacity
 * mask, one bit per pixel, row-major, eight pixels to a byte.
 */
module Bitmask {
  import opened Results
  import opened Geometry
  import opened CppInt

  /**
   * A texture as the pixels `copyToImage()` yields: the alpha byte of every
   * pixel, row by row. Colour channels play no part in the mask.
   */
  datatype Pixels = Pixels(sizeX: nat, sizeY: nat, alpha: seq<seq<bv8>>)

  type Image = img: Pixels | |img.alpha| == img.sizeY && forall y :: 0 <= y < |img.alpha| ==> |img.alpha[y]| == img.sizeX
    witness Pixels(0, 0, [])

  /**
   * The float `transparency` argument as the comparison sees it: whether it
   * is positive, and `static_cast<sf::Uint8>(transparency * 255)`.
   */
  datatype Threshold = Threshold(positive: bool, cutoff: bv8)

  /** The default `transparency = 0.0f` of both generators. */
  const DefaultThreshold := Threshold(false, 0)

  /** The default `rows = 1` of the bottom-rows generator. */
  const DefaultBottomRows: int32 := 1

  /** Whether a pixel of this alpha is opaque enough to set its bit. */
  predicate Passes(alpha: bv8, t: Threshold) {
    if t.positive then alpha >= t.cutoff else alpha > 128
  }


  /** The bounds test as the source writes it: the rectangle's size is never checked for sign. */
  predicate GuardAsWritten(img: Image, rect: IntRect) {
    !(rect.left < 0 || rect.top < 0 ||
      rect.left + rect.width > img.sizeX ||
      rect.top + rect.height > img.sizeY)
  }

  /** The bounds test the generators need: the guard plus a non-negative size. */
  predicate RectInImage(img: Image, rect: IntRect) {
    GuardAsWritten(img, rect) && 0 <= rect.width && 0 <= rect.height
  }

  /**
   * A negative width passes the guard; converted to `unsigned int` it
   * becomes 2^32 - 1, and the sampling loop then reads columns far past the
   * right edge of the texture.
   */
  lemma GuardAdmitsNegativeWidth()
    ensures var img, rect := Pixels(2, 1, [[0, 0]]), IntRect(1, 0, -1, 1);
            // the guard lets the rectangle through, yet the last column the
            // loop reads, left + width - 1 with width taken unsigned, lies
            // past the right edge of the image
            GuardAsWritten(img, rect) && rect.left + ToUnsigned32(rect.width) - 1 >= img.sizeX
  {
  }

  /** `(width * height) / 8 + ((width * height) % 8 != 0)`. */
  function MaskSize(width: nat, height: nat): (size: nat)
    ensures width * height <= 8 * size < width * height + 8
  {
    (width * height) / 8 + (if (width * height) % 8 != 0 then 1 else 0)
  }

  /** The mask holds just enough bytes for one bit per pixel: the ceiling of `width * height / 8`. */
  lemma MaskSizeIsCeiling(width: nat, height: nat)
    ensures MaskSize(width, height) == (width * height + 7) / 8
  {
  }

  /** Bit `i` of a packed mask as the generators write it: least significant bit first. */
  predicate BitAt(mask: seq<bv8>, i: nat)
    requires i / 8 < |mask|
  {
    (mask[i / 8] >> (i % 8)) & 1 == 1
  }

  /** One request to a generator: the image, the rectangle, the threshold and the first sampled row. */
  datatype RawSampling = RawSampling(img: Image, rect: IntRect, threshold: Threshold, startRow: nat)

  type Sampling = s: RawSampling | RectInImage(s.img, s.rect) && s.startRow <= s.rect.height
    witness RawSampling(Pixels(0, 0, []), EmptyIntRect, DefaultThreshold, 0)

  /**
   * Whether bit `i` of the mask is to be set: `i` is a pixel of the
   * rectangle (`i == y * width + x`), its row `y` is sampled, and the pixel at
   * `(left + x, top + y)` passes the threshold.
   */
  predicate Wanted(s: Sampling, i: int) {
    0 <= i < s.rect.width * s.rect.height &&
    (RowMajorBounds(i, s.rect.width, s.rect.height);
     i / s.rect.width >= s.startRow &&
     Passes(s.img.alpha[s.rect.top + i / s.rect.width][s.rect.left + i % s.rect.width], s.threshold))
  }

  /** The wanted flag of every bit index below `width * height`. */
  function WantedFlags(s: Sampling): (f: seq<bool>)
    ensures |f| == s.rect.width * s.rect.height
  {
    seq(s.rect.width * s.rect.height, i requires 0 <= i => Wanted(s, i))
  }

  /** Flag `i` of `want`, false past its end. */
  predicate Flag(want: seq<bool>, i: int) {
    0 <= i < |want| && want[i]
  }

  /** The flags of a request are exactly its wanted pixels. */
  lemma FlagIsWanted(s: Sampling, i: int)
    ensures Flag(WantedFlags(s), i) <==> Wanted(s, i)
  {
  }

  /**
   * Byte `j` of the buffer once every flagged bit with index below `k` has
   * been OR-ed in, restricted to bit positions below `n`.
   */
  function PackedBits(want: seq<bool>, j: nat, k: int, n: nat): bv8
    requires n <= 8
  {
    if n == 0 then 0
    else PackedBits(want, j, k, n - 1) | BitIf(8 * j + (n - 1) < k && Flag(want, 8 * j + (n - 1)), n - 1)
  }

  /** The byte with only bit `pos` set when `cond` holds, zero otherwise. */
  function BitIf(cond: bool, pos: nat): bv8
    requires pos < 8
  {
    if cond then (1 as bv8) << pos else 0
  }

  /** The mask a request yields: every wanted bit set, all other bits zero. */
  function ExpectedMask(s: Sampling): seq<bv8> {
    seq(MaskSize(s.rect.width, s.rect.height),
        j requires 0 <= j => PackedBits(WantedFlags(s), j, s.rect.width * s.rect.height, 8))
  }

  /** OR-ing in bit `k` changes only byte `k / 8`, at position `k % 8`. */
  lemma {:induction false} PackedBitsStep(want: seq<bool>, j: nat, k: nat, n: nat)
    requires n <= 8
    ensures PackedBits(want, j, k + 1, n) ==
            PackedBits(want, j, k, n) | BitIf(j == k / 8 && k % 8 < n && Flag(want, k), k % 8)
  {
    if n > 0 {
      PackedBitsStep(want, j, k, n - 1);
      var i := 8 * j + (n - 1);
      var p := PackedBits(want, j, k, n - 1);
      var c := j == k / 8 && k % 8 < n - 1 && Flag(want, k);
      var c' := j == k / 8 && k % 8 < n && Flag(want, k);
      var d := i < k && Flag(want, i);
      var d' := i < k + 1 && Flag(want, i);
      ByteOfBit(j, n - 1, k);
      if i == k {
        assert !c && !d && c' == d';
        OrZero(p, BitIf(d', n - 1));
      } else {
        assert c == c' && d == d';
        OrSwap(p, BitIf(c, k % 8), BitIf(d, n - 1));
      }
    }
  }

  /** Bit `k` of the mask is bit `b` of byte `j` exactly when `k == 8 * j + b`. */
  lemma ByteOfBit(j: int, b: int, k: int)
    requires 0 <= b < 8
    ensures k == 8 * j + b <==> k / 8 == j && k % 8 == b
  {
    RowMajorSplit(j, b, 8);
  }

  /** OR-ing in zero changes nothing. */
  lemma OrZero(p: bv8, x: bv8)
    ensures (p | 0) | x == (p | x) | 0
  {
  }

  /** Every byte of `buf` packs the flags of the first `k` pixels. */
  ghost predicate PackedUpTo(want: seq<bool>, buf: seq<bv8>, k: int) {
    forall j :: 0 <= j < |buf| ==> buf[j] == PackedBits(want, j, k, 8)
  }

  /** OR-ing the flag of pixel `k` into byte `k / 8` extends a buffer packed up to `k` to one packed up to `k + 1`. */
  lemma PackOneBit(want: seq<bool>, buf: seq<bv8>, k: nat)
    requires PackedUpTo(want, buf, k) && k / 8 < |buf|
    ensures PackedUpTo(want, buf[k / 8 := buf[k / 8] | BitIf(Flag(want, k), k % 8)], k + 1)
  {
    var buf' := buf[k / 8 := buf[k / 8] | BitIf(Flag(want, k), k % 8)];
    forall j | 0 <= j < |buf'|
      ensures buf'[j] == PackedBits(want, j, k + 1, 8)
    {
      PackOneByte(want, buf[j], j, k);
    }
  }

  /** Byte `j`, packed up to `k`, becomes the byte packed up to `k + 1` by OR-ing in bit `k` when it lives there. */
  lemma PackOneByte(want: seq<bool>, v: bv8, j: nat, k: nat)
    requires v == PackedBits(want, j, k, 8)
    ensures (if j == k / 8 then v | BitIf(Flag(want, k), k % 8) else v) == PackedBits(want, j, k + 1, 8)
  {
    PackedBitsStep(want, j, k, 8);
    if j != k / 8 {
      OrNothing(v, k % 8);
    }
  }

  /** OR-ing in an unset `BitIf` changes nothing. */
  lemma OrNothing(v: bv8, pos: nat)
    requires pos < 8
    ensures v | BitIf(false, pos) == v
  {
  }

  /** OR-ing in `BitIf` sets bit `pos` when the condition holds and changes nothing otherwise. */
  lemma OrBitIf(v: bv8, cond: bool, pos: nat)
    requires pos < 8
    ensures v | BitIf(cond, pos) == if cond then v | ((1 as bv8) << pos) else v
  {
  }

  /** OR is associative and commutative on bytes. */
  lemma OrSwap(p: bv8, e: bv8, b: bv8)
    ensures (p | e) | b == (p | b) | e
  {
  }

  /** Bit `b` of `p | c` is set when it is set in `p` or in `c`. */
  lemma OrBit(p: bv8, c: bv8, b: nat)
    requires b < 8
    ensures ((p | c) >> b) & 1 == 1 <==> (p >> b) & 1 == 1 || (c >> b) & 1 == 1
  {
  }

  /** The only bit `BitIf` may set is bit `pos`. */
  lemma BitIfAt(cond: bool, pos: nat, b: nat)
    requires pos < 8 && b < 8
    ensures (BitIf(cond, pos) >> b) & 1 == 1 <==> cond && pos == b
  {
  }

  /** Bit `b` of a packed byte is set exactly when its pixel is flagged and already visited. */
  lemma {:induction false} PackedBitsAt(want: seq<bool>, j: nat, k: int, n: nat, b: nat)
    requires n <= 8 && b < 8
    ensures (PackedBits(want, j, k, n) >> b) & 1 == 1 <==> b < n && 8 * j + b < k && Flag(want, 8 * j + b)
  {
    if n > 0 {
      PackedBitsAt(want, j, k, n - 1, b);
      var i := 8 * j + (n - 1);
      OrBit(PackedBits(want, j, k, n - 1), BitIf(i < k && Flag(want, i), n - 1), b);
      BitIfAt(i < k && Flag(want, i), n - 1, b);
    }
  }

  /** Nothing is wanted above the first sampled row, so the buffer starts out right. */
  lemma {:induction false} PackedBitsBeforeStart(s: Sampling, j: nat, k: int, n: nat)
    requires n <= 8 && k <= s.startRow * s.rect.width
    ensures PackedBits(WantedFlags(s), j, k, n) == 0
  {
    if n > 0 {
      PackedBitsBeforeStart(s, j, k, n - 1);
      var i := 8 * j + (n - 1);
      if i < k && 0 < s.rect.width {
        RowBelow(i, s.rect.width, s.startRow);
        FlagIsWanted(s, i);
      }
    }
  }

  /** Pixel `(x, y)` of a sampled row has bit `y * width + x`, which lies in the mask and is flagged exactly when the pixel passes. */
  lemma SampledPixel(s: Sampling, y: nat, x: nat)
    requires s.startRow <= y < s.rect.height && x < s.rect.width
    ensures var k := y * s.rect.width + x;
            k < s.rect.width * s.rect.height && k / 8 < MaskSize(s.rect.width, s.rect.height) &&
            (Flag(WantedFlags(s), k) <==> Passes(s.img.alpha[s.rect.top + y][s.rect.left + x], s.threshold))
  {
    var k := y * s.rect.width + x;
    RowMajorSplit(y, x, s.rect.width);
    RowMajorIndexBelow(y, x, s.rect.width, s.rect.height);
    MaskSizeIsCeiling(s.rect.width, s.rect.height);
    FlagIsWanted(s, k);
  }

  /**
   * The nested row/column loops of both generators: a zeroed buffer of
   * `MaskSize` bytes, into which the bit of every passing pixel of rows
   * `startRow .. height - 1` is OR-ed.
   */
  method SampleRows(s: Sampling) returns (mask: seq<bv8>)
    ensures mask == ExpectedMask(s)
  {
    var width, height := s.rect.width, s.rect.height;
    var size := MaskSize(width, height);
    var buffer := new bv8[size](_ => 0);
    var y := s.startRow;
    ghost var want := WantedFlags(s);
    forall j | 0 <= j < size
      ensures buffer[j] == PackedBits(want, j, y * width, 8)
    {
      PackedBitsBeforeStart(s, j, y * width, 8);
    }
    while y < height
      invariant s.startRow <= y <= height
      invariant PackedUpTo(want, buffer[..], y * width)
    {
      SampleRow(s, buffer, y);
      assert y * width + width == (y + 1) * width;
      y := y + 1;
    }
    assert y * width == width * height;
    mask := buffer[..];
  }

  /** The inner loop of the generators: the bits of row `y`, OR-ed into the buffer one pixel at a time. */
  method SampleRow(s: Sampling, buffer: array<bv8>, y: nat)
    requires s.startRow <= y < s.rect.height
    requires buffer.Length == MaskSize(s.rect.width, s.rect.height)
    requires PackedUpTo(WantedFlags(s), buffer[..], y * s.rect.width)
    modifies buffer
    ensures PackedUpTo(WantedFlags(s), buffer[..], y * s.rect.width + s.rect.width)
  {
    var x := 0;
    while x < s.rect.width
      invariant 0 <= x <= s.rect.width
      invariant PackedUpTo(WantedFlags(s), buffer[..], y * s.rect.width + x)
    {
      SamplePixel(s, buffer, y, x);
      x := x + 1;
    }
  }

  /** The body of the inner loop: the bit of pixel `(x, y)` is set in its byte when the pixel passes. */
  method SamplePixel(s: Sampling, buffer: array<bv8>, y: nat, x: nat)
    requires s.startRow <= y < s.rect.height && x < s.rect.width
    requires buffer.Length == MaskSize(s.rect.width, s.rect.height)
    requires PackedUpTo(WantedFlags(s), buffer[..], y * s.rect.width + x)
    modifies buffer
    ensures PackedUpTo(WantedFlags(s), buffer[..], y * s.rect.width + x + 1)
  {
    ghost var want := WantedFlags(s);
    ghost var buf := buffer[..];
    var bitIndex := y * s.rect.width + x;
    var byteIndex := bitIndex / 8;
    var bitPosition := bitIndex % 8;
    SampledPixel(s, y, x);
    var passes := Passes(s.img.alpha[s.rect.top + y][s.rect.left + x], s.threshold);
    ghost var packed := buf[byteIndex := buf[byteIndex] | BitIf(Flag(want, bitIndex), bitPosition)];
    PackOneBit(want, buf, bitIndex);
    OrBitIf(buffer[byteIndex], passes, bitPosition);
    if passes {
      buffer[byteIndex] := buffer[byteIndex] | (1 << bitPosition);
    }
    assert buffer[..] == packed;
  }

  /**
   * `createBitmask`: no mask when the texture is absent or the rectangle
   * does not lie inside it; otherwise the mask of every row of the rectangle.
   */
  method CreateBitmask(texture: Option<Image>, rect: IntRect, transparency: Threshold) returns (mask: Option<seq<bv8>>)
    ensures mask.Some? <==> texture.Some? && RectInImage(texture.value, rect)
    ensures mask.Some? ==> mask.value == ExpectedMask(RawSampling(texture.value, rect, transparency, 0))
  {
    if texture.None? {
      return None;
    }
    var img := texture.value;
    if !RectInImage(img, rect) {
      return None;
    }
    var bits := SampleRows(RawSampling(img, rect, transparency, 0));
    return Some(bits);
  }

  /**
   * The first sampled row of `createBitmaskForBottom`: `rows` is compared
   * with the unsigned height after its own conversion to `unsigned int`.
   */
  function BottomStartRow(height: nat, rows: int32): (startRow: nat)
    ensures startRow <= height
  {
    var rowsU := ToUnsigned32(rows as int);
    if height >= rowsU then height - rowsU else 0
  }

  /**
   * The last `rows` rows are sampled when `0 <= rows <= height`, the whole
   * rectangle when `rows` exceeds the height, and also when `rows` is
   * negative, since its unsigned image then exceeds every `int` height.
   */
  lemma BottomStartRowCases(height: nat, rows: int32)
    requires height < 0x8000_0000
    ensures 0 <= rows as int <= height ==> BottomStartRow(height, rows) == height - rows as int
    ensures rows as int > height ==> BottomStartRow(height, rows) == 0
    ensures rows < 0 ==> BottomStartRow(height, rows) == 0
  {
  }

  /**
   * `createBitmaskForBottom`: the same failure cases as `createBitmask`;
   * otherwise only the rows from `BottomStartRow` on are sampled.
   */
  method CreateBitmaskForBottom(texture: Option<Image>, rect: IntRect, transparency: Threshold, rows: int32)
    returns (mask: Option<seq<bv8>>)
    ensures mask.Some? <==> texture.Some? && RectInImage(texture.value, rect)
    ensures mask.Some? ==>
      mask.value == ExpectedMask(RawSampling(texture.value, rect, transparency, BottomStartRow(rect.height, rows)))
  {
    if texture.None? {
      return None;
    }
    var img := texture.value;
    if !RectInImage(img, rect) {
      return None;
    }
    var startRow := BottomStartRow(rect.height, rows);
    var bits := SampleRows(RawSampling(img, rect, transparency, startRow));
    return Some(bits);
  }

  /** What `createBitmask` returns: null on a missing texture or a bad rectangle, else the mask. */
  function BitmaskOf(texture: Option<Image>, rect: IntRect, t: Threshold): Option<seq<bv8>> {
    if texture.Some? && RectInImage(texture.value, rect) then
      Some(ExpectedMask(RawSampling(texture.value, rect, t, 0)))
    else
      None
  }

  /** What `createBitmaskForBottom` returns. */
  function BottomBitmaskOf(texture: Option<Image>, rect: IntRect, t: Threshold, rows: int32): Option<seq<bv8>> {
    if texture.Some? && RectInImage(texture.value, rect) then
      Some(ExpectedMask(RawSampling(texture.value, rect, t, BottomStartRow(rect.height, rows))))
    else
      None
  }

  /**
   * The meaning of a mask: bit `i` (byte `i / 8`, position `i % 8`) is set
   * exactly when `i == y * width + x` is a sampled pixel whose alpha passes;
   * every other bit, the padding of the last byte included, is zero.
   */
  lemma MaskBitIsPixelTest(s: Sampling, i: nat)
    requires i < 8 * |ExpectedMask(s)|
    ensures BitAt(ExpectedMask(s), i) <==> Wanted(s, i)
  {
    PackedBitsAt(WantedFlags(s), i / 8, s.rect.width * s.rect.height, 8, i % 8);
    FlagIsWanted(s, i);
  }

  /**
   * With the default `transparency = 0`, bit `y * width + x` of a generated
   * mask is set exactly when row `y` is sampled and pixel `(x, y)` of the
   * rectangle has an alpha above 128.
   */
  lemma DefaultMaskIsAbove128(s: Sampling, y: nat, x: nat)
    requires s.threshold == DefaultThreshold && y < s.rect.height && x < s.rect.width
    ensures var k := y * s.rect.width + x;
            k < 8 * |ExpectedMask(s)| &&
            (BitAt(ExpectedMask(s), k) <==> y >= s.startRow && s.img.alpha[s.rect.top + y][s.rect.left + x] > 128)
  {
    var w := s.rect.width;
    var k := y * w + x;
    RowMajorSplit(y, x, w);
    RowMajorIndexBelow(y, x, w, s.rect.height);
    MaskBitIsPixelTest(s, k);
  }

  /**
   * The bottom-rows mask agrees with the full mask on every row from
   * `startRow` on and is zero above it.
   */
  lemma BottomMaskMatchesFullMask(img: Image, rect: IntRect, t: Threshold, rows: int32, i: nat)
    requires RectInImage(img, rect) && 0 < rect.width
    requires i < 8 * MaskSize(rect.width, rect.height)
    ensures var full := ExpectedMask(RawSampling(img, rect, t, 0));
            var bottom := ExpectedMask(RawSampling(img, rect, t, BottomStartRow(rect.height, rows)));
            BitAt(bottom, i) <==> i / rect.width >= BottomStartRow(rect.height, rows) && BitAt(full, i)
  {
    MaskBitIsPixelTest(RawSampling(img, rect, t, 0), i);
    MaskBitIsPixelTest(RawSampling(img, rect, t, BottomStartRow(rect.height, rows)), i);
  }

  /** Bit `i` as `printBitmaskDebug` reads it: position `7 - i % 8`, most significant bit first. */
  predicate DebugBitAt(mask: seq<bv8>, i: nat) {
    i / 8 < |mask| && mask[i / 8] & ((1 as bv8) << (7 - i % 8)) != 0
  }

  /** The first `n` bits of `mask` in the printer's reading order. */
  function DebugBits(mask: seq<bv8>, n: nat): (bits: seq<bool>)
    ensures |bits| == n
  {
    seq(n, i requires 0 <= i => DebugBitAt(mask, i))
  }

  /** The printer's character for pixel `i`. */
  function PixelChar(bits: seq<bool>, i: nat): char {
    if i < |bits| && bits[i] then '1' else '0'
  }

  /** Row `y` of the debug text, its first `x` characters. */
  function DebugRow(bits: seq<bool>, width: nat, y: nat, x: nat): string {
    if x == 0 then "" else DebugRow(bits, width, y, x - 1) + [PixelChar(bits, y * width + x - 1)]
  }

  /** The first `rows` lines of the debug text, each ended by a newline. */
  function DebugText(bits: seq<bool>, width: nat, rows: nat): string {
    if rows == 0 then "" else DebugText(bits, width, rows - 1) + DebugRow(bits, width, rows - 1, width) + "\n"
  }

  /** `printBitmaskDebug`: builds the text it logs, one line of '0'/'1' per row. */
  method PrintBitmaskDebug(mask: seq<bv8>, width: nat, height: nat) returns (text: string)
    requires width * height <= 8 * |mask|
    ensures text == DebugText(DebugBits(mask, width * height), width, height)
  {
    text := "";
    var y := 0;
    while y < height
      invariant 0 <= y <= height
      invariant text == DebugText(DebugBits(mask, width * height), width, y)
    {
      var line := PrintDebugRow(mask, width, height, y);
      text := text + line + "\n";
      y := y + 1;
    }
  }

  /** The inner loop of `printBitmaskDebug`: the characters of row `y`. */
  method PrintDebugRow(mask: seq<bv8>, width: nat, height: nat, y: nat) returns (line: string)
    requires width * height <= 8 * |mask| && y < height
    ensures line == DebugRow(DebugBits(mask, width * height), width, y, width)
  {
    ghost var bits := DebugBits(mask, width * height);
    line := "";
    var x := 0;
    while x < width
      invariant 0 <= x <= width
      invariant line == DebugRow(bits, width, y, x)
    {
      var bitIndex := y * width + x;
      DebugIndexInMask(mask, width, height, y, x);
      var c := if DebugBitAt(mask, bitIndex) then '1' else '0';
      DebugBitsChar(mask, width * height, bitIndex);
      line := line + [c];
      x := x + 1;
    }
  }

  lemma DebugIndexInMask(mask: seq<bv8>, width: nat, height: nat, y: nat, x: nat)
    requires width * height <= 8 * |mask| && y < height && x < width
    ensures y * width + x < width * height
    ensures (y * width + x) / 8 < |mask|
  {
    RowMajorIndexBelow(y, x, width, height);
  }

  lemma DebugBitsChar(mask: seq<bv8>, n: nat, k: nat)
    requires k < n
    ensures PixelChar(DebugBits(mask, n), k) == if DebugBitAt(mask, k) then '1' else '0'
  {
  }

  lemma {:induction false} DebugRowLength(bits: seq<bool>, width: nat, y: nat, x: nat)
    ensures |DebugRow(bits, width, y, x)| == x
  {
    if x > 0 {
      DebugRowLength(bits, width, y, x - 1);
    }
  }

  lemma {:induction false} DebugRowAt(bits: seq<bool>, width: nat, y: nat, x: nat, c: nat)
    requires c < x
    ensures |DebugRow(bits, width, y, x)| == x
    ensures DebugRow(bits, width, y, x)[c] == PixelChar(bits, y * width + c)
  {
    DebugRowLength(bits, width, y, x);
    if c < x - 1 {
      DebugRowAt(bits, width, y, x - 1, c);
    }
  }

  lemma {:induction false} DebugTextLength(bits: seq<bool>, width: nat, rows: nat)
    ensures |DebugText(bits, width, rows)| == rows * (width + 1)
  {
    if rows > 0 {
      DebugTextLength(bits, width, rows - 1);
      DebugRowLength(bits, width, rows - 1, width);
    }
  }

  /**
   * The layout of the debug text: `height` lines of `width + 1` characters;
   * character `x` of line `y` shows pixel `y * width + x`, and the last
   * character of each line is a newline.
   */
  lemma {:induction false} DebugTextAt(bits: seq<bool>, width: nat, height: nat, y: nat, x: nat)
    requires y < height && x <= width
    ensures |DebugText(bits, width, height)| == height * (width + 1)
    ensures y * (width + 1) + x < height * (width + 1) &&
            DebugText(bits, width, height)[y * (width + 1) + x] ==
            if x == width then '\n' else PixelChar(bits, y * width + x)
  {
    var w := width + 1;
    MulMonotone(0, y, w);
    var start: nat := y * w;
    DebugTextLength(bits, width, height);
    DebugTextLength(bits, width, height - 1);
    LineOffsets(y, height, w);
    var prev := DebugText(bits, width, height - 1);
    var row := DebugRow(bits, width, height - 1, width);
    assert DebugText(bits, width, height) == prev + (row + "\n");
    if y < height - 1 {
      DebugTextAt(bits, width, height - 1, y, x);
      ConcatLeft(prev, row + "\n", start + x);
    } else {
      DebugRowLength(bits, width, height - 1, width);
      ConcatRight(prev, row + "\n", x);
      if x < width {
        DebugRowAt(bits, width, y, width, x);
      }
    }
  }

  lemma ConcatLeft(a: string, b: string, i: nat)
    requires i < |a|
    ensures (a + b)[i] == a[i]
  {
  }

  lemma ConcatRight(a: string, b: string, i: nat)
    requires i < |b|
    ensures (a + b)[|a| + i] == b[i]
  {
  }

  lemma LineOffsets(y: nat, height: nat, w: nat)
    requires y < height
    ensures y * w + w <= height * w
    ensures height * w == (height - 1) * w + w
    ensures y < height - 1 ==> y * w + w <= (height - 1) * w
    ensures y == height - 1 ==> y * w == (height - 1) * w
  {
    MulMonotone(y + 1, height, w);
    if y < height - 1 {
      MulMonotone(y + 1, height - 1, w);
    }
  }

  /**
   * The printer reads each byte in mirror order: the bit it shows for pixel
   * `i` is the one the generator wrote for pixel `8 * (i / 8) + 7 - i % 8`.
   */
  lemma DebugBitMirrorsWriterBit(mask: seq<bv8>, i: nat)
    requires i / 8 < |mask|
    ensures DebugBitAt(mask, i) <==> BitAt(mask, 8 * (i / 8) + 7 - i % 8)
  {
    var j := 8 * (i / 8) + 7 - i % 8;
    RowMajorSplit(i / 8, 7 - i % 8, 8);
    assert j == (i / 8) * 8 + (7 - i % 8);
    var v := mask[i / 8];
    var b := 7 - i % 8;
    assert 0 <= b < 8;
    assert v & ((1 as bv8) << b) != 0 <==> (v >> b) & 1 == 1 by {
      ShiftedBitTest(v, b);
    }
  }

  lemma ShiftedBitTest(v: bv8, b: nat)
    requires b < 8
    ensures v & ((1 as bv8) << b) != 0 <==> (v >> b) & 1 == 1
  {
  }

  /**
   * The two bit orders disagree: a 1x1 opaque texture yields a mask whose
   * bit 0 is set, yet the printer shows that pixel as '0'.
   */
  lemma DebugPrintMisreadsSinglePixel()
    ensures var s: Sampling := RawSampling(Pixels(1, 1, [[255]]), IntRect(0, 0, 1, 1), DefaultThreshold, 0);
            |ExpectedMask(s)| == 1 && BitAt(ExpectedMask(s), 0) &&
            PixelChar(DebugBits(ExpectedMask(s), 1), 0) == '0'
  {
    var s: Sampling := RawSampling(Pixels(1, 1, [[255]]), IntRect(0, 0, 1, 1), DefaultThreshold, 0);
    var mask := ExpectedMask(s);
    assert |mask| == 1;
    MaskBitIsPixelTest(s, 0);
    assert Wanted(s, 0);
    MaskBitIsPixelTest(s, 7);
    assert !Wanted(s, 7);
    DebugBitMirrorsWriterBit(mask, 0);
  }

  /** The first `n` bits of `mask` in the generators' order, least significant bit of each byte first. */
  function WriterBits(mask: seq<bv8>, n: nat): (bits: seq<bool>)
    ensures |bits| == n
  {
    seq(n, i requires 0 <= i => i / 8 < |mask| && BitAt(mask, i))
  }

  /** Column `x` of line `y` of the text shows bit `y * width + x` of `bits`. */
  lemma TextShows(bits: seq<bool>, width: nat, height: nat, y: nat, x: nat, shown: bool)
    requires |bits| == width * height && y < height && x < width
    requires y * width + x < |bits| ==> bits[y * width + x] == shown
    ensures var text := DebugText(bits, width, height);
            y * (width + 1) + x < |text| &&
            text[y * (width + 1) + x] == if shown then '1' else '0'
  {
    RowMajorIndexBelow(y, x, width, height);
    DebugTextAt(bits, width, height, y, x);
  }

  /**
   * A printer that reads bits in the generators' order shows every pixel
   * of the rectangle as its own test: '1' exactly when the pixel is
   * sampled and passes, at column `x` of line `y`.
   */
  lemma CorrectedDebugTextShowsPixels(s: Sampling, y: nat, x: nat)
    requires y < s.rect.height && x < s.rect.width
    ensures var w, h := s.rect.width, s.rect.height;
            var text := DebugText(WriterBits(ExpectedMask(s), w * h), w, h);
            y * (w + 1) + x < |text| &&
            text[y * (w + 1) + x] == if Wanted(s, y * w + x) then '1' else '0'
  {
    var w, h := s.rect.width, s.rect.height;
    var k := y * w + x;
    MaskSizeIsCeiling(w, h);
    RowMajorIndexBelow(y, x, w, h);
    MaskBitIsPixelTest(s, k);
    var bits := WriterBits(ExpectedMask(s), w * h);
    assert bits[k] == Wanted(s, k);
    TextShows(bits, w, h, y, x, Wanted(s, k));
  }
}
