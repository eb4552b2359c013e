/**
 * The parts of C++ integer arithmetic the game relies on, written out because
 * Dafny's integers are unbounded and its `/` and `%` are Euclidean.
 */
module CppInt {

  const TwoTo32: int := 0x1_0000_0000
  const TwoTo64: int := 0x1_0000_0000_0000_0000

  /** A 32-bit `int`. */
  newtype int32 = x: int | -0x8000_0000 <= x < 0x8000_0000

  /** Conversion of an integer to `unsigned int`: reduction modulo 2^32. */
  function ToUnsigned32(x: int): (u: nat)
    ensures u < TwoTo32
    ensures 0 <= x < TwoTo32 ==> u == x
    ensures -TwoTo32 <= x < 0 ==> u == x + TwoTo32
  {
    x % TwoTo32
  }

  /** Conversion of an integer to `size_t` (64 bits): reduction modulo 2^64. */
  function ToSizeT(x: int): (u: nat)
    ensures u < TwoTo64
    ensures 0 <= x < TwoTo64 ==> u == x
    ensures -TwoTo64 <= x < 0 ==> u == x + TwoTo64
  {
    x % TwoTo64
  }

  function Abs(x: int): nat { if x < 0 then -x else x }

  /**
   * C++ integer `/`: the quotient is truncated toward zero. Its magnitude is
   * the largest `m` with `m * |b| <= |a|`, and its sign is the product of
   * the operands' signs (or it is 0).
   */
  function TDiv(a: int, b: int): (q: int)
    requires b != 0
    ensures Abs(b) * Abs(q) <= Abs(a) < Abs(b) * (Abs(q) + 1)
    ensures (a < 0) == (b < 0) ==> q >= 0
    ensures (a < 0) != (b < 0) ==> q <= 0
    ensures a >= 0 && b > 0 ==> q == a / b
  {
    var m, n := Abs(a), Abs(b);
    QuotientBounds(m, n);
    if (a < 0) == (b < 0) then m / n else -(m / n)
  }

  /** `m / n` is the largest multiple count of `n` that fits in `m`. */
  lemma QuotientBounds(m: nat, n: nat)
    requires n > 0
    ensures 0 <= m / n && n * (m / n) <= m < n * (m / n + 1)
  {
    var d := m / n;
    assert m == n * d + m % n && 0 <= m % n < n;
    assert n * (d + 1) == n * d + n;
  }

  /** C++ integer `%`: `a == b * (a / b) + a % b` with the truncating `/`. */
  function TRem(a: int, b: int): int
    requires b != 0
  {
    a - b * TDiv(a, b)
  }

  /** The remainder takes the sign of the dividend and is smaller than the divisor in magnitude. */
  lemma TRemRange(a: int, b: int)
    requires b > 0
    ensures a >= 0 ==> 0 <= TRem(a, b) < b && TRem(a, b) == a % b
    ensures a < 0 ==> -b < TRem(a, b) <= 0
  {
    if a < 0 {
      var q := (-a) / b;
      assert TRem(a, b) == a + b * q;
      assert -a == b * q + (-a) % b;
    }
  }

  /** `std::clamp(v, lo, hi)`, which requires `lo <= hi`. */
  function Clamp(v: int, lo: int, hi: int): (c: int)
    requires lo <= hi
    ensures lo <= c <= hi
    ensures lo <= v <= hi ==> c == v
    ensures v < lo ==> c == lo
    ensures v > hi ==> c == hi
  {
    if v < lo then lo else if hi < v then hi else v
  }

  /** `static_cast<int>(f)` for a float `f`: the fractional part is discarded (rounding toward zero). */
  function TruncToInt(r: real): (n: int)
    ensures r >= 0.0 ==> n as real <= r < n as real + 1.0
    ensures r < 0.0 ==> n as real - 1.0 < r <= n as real
  {
    if r >= 0.0 then r.Floor else -((-r).Floor)
  }

  /** Row-major index arithmetic: cell `(row, col)` of a grid `width` wide sits at `row * width + col`. */
  lemma RowMajorSplit(row: int, col: int, width: int)
    requires width > 0 && 0 <= col < width
    ensures (row * width + col) / width == row
    ensures (row * width + col) % width == col
  {
    var i := row * width + col;
    var q, r := i / width, i % width;
    assert width * (q - row) == col - r;
    if q > row {
      MulAtLeast(width, q - row);
    } else if q < row {
      MulAtLeast(width, row - q);
    }
  }

  /** A non-negative value below the modulus is its own remainder. */
  lemma ModOfSmall(x: int, m: int)
    requires m > 0
    ensures 0 <= x < m ==> x % m == x
  {
    if 0 <= x < m {
      RowMajorSplit(0, x, m);
    }
  }

  lemma MulAtLeast(w: int, d: int)
    requires w > 0 && d >= 1
    ensures w * d >= w
  {
  }

  lemma MulMonotone(a: nat, b: nat, c: nat)
    requires a <= b
    ensures a * c <= b * c
  {
  }

  /** An index below `width * height` names a row below `height`. */
  lemma RowMajorBounds(i: int, width: int, height: int)
    requires 0 <= width && 0 <= height && 0 <= i < width * height
    ensures width > 0 && 0 <= i / width < height && 0 <= i % width < width
  {
    RowBelow(i, width, height);
  }

  /** An index below `rows * width` lies in a row below `rows`. */
  lemma RowBelow(i: int, width: int, rows: int)
    requires 0 < width && 0 <= i < rows * width
    ensures i / width < rows
  {
  }

  /** Cell `(row, col)` of a `height` by `width` grid has an index below `width * height`. */
  lemma RowMajorIndexBelow(row: int, col: int, width: int, height: int)
    requires 0 <= row < height && 0 <= col < width
    ensures 0 <= row * width + col < width * height
  {
    assert row * width + col < row * width + width == (row + 1) * width;
    assert (row + 1) * width <= height * width;
  }
}
