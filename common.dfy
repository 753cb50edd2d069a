/** Shared vocabulary: an optional value and the millisecond clock arithmetic
    the app performs with JavaScript `Date` objects.

    Timestamps are integers counting milliseconds in local time; daylight-saving
    shifts are not modelled, so every day is exactly `DayMs` long. */
module Common {

  datatype Option<T> = None | Some(value: T)

  const HourMs: int := 3600000
  const DayMs: int := 86400000

  /** Day number of a timestamp: what `setHours(0, 0, 0, 0)` followed by a
      division by the day length yields.  Dafny's `/` with a positive divisor
      rounds towards negative infinity, like `Math.floor`. */
  function DayOf(t: int): int
  {
    t / DayMs
  }

  /** `Date.getDay()`: 0 is Sunday.  Day 0 (1 January 1970) was a Thursday. */
  function Weekday(t: int): (w: int)
    ensures 0 <= w < 7
  {
    (DayOf(t) + 4) % 7
  }

  /** `Date.getHours()`. */
  function HourOf(t: int): (h: int)
    ensures 0 <= h < 24
  {
    (t % DayMs) / HourMs
  }

  /** `Math.trunc(a / b)` for a positive divisor: rounds towards zero. */
  function TruncDiv(a: int, b: int): (q: int)
    requires b > 0
    ensures a >= 0 ==> q == a / b
    ensures a < 0 ==> q == -((-a) / b)
  {
    if a >= 0 then a / b else -((-a) / b)
  }

  /** JavaScript's `a % b` for a positive divisor: the remainder takes the
      sign of `a`. */
  function JsRem(a: int, b: int): (r: int)
    requires b > 0
    ensures a == TruncDiv(a, b) * b + r
    ensures a >= 0 ==> r == a % b
    ensures a < 0 ==> -b < r <= 0
  {
    a - TruncDiv(a, b) * b
  }

  lemma MulMonotone(a: int, b: int, c: int)
    requires a <= b && c >= 0
    ensures a * c <= b * c
  {
  }

  /** Multiplying by a positive factor keeps the sign. */
  lemma ProductSign(x: real, b: real)
    requires b > 0.0
    ensures x >= 0.0 <==> x * b >= 0.0
    ensures x > 0.0 <==> x * b > 0.0
  {
  }

  /** Comparing a ratio of a positive denominator with `c` compares the
      numerator with `c` times the denominator. */
  lemma RatioCompare(p: real, t: real, c: real)
    requires t > 0.0
    ensures p / t >= c <==> p >= c * t
    ensures p / t > c <==> p > c * t
  {
    var q := p / t;
    assert q * t == p;
    assert (q - c) * t == p - c * t;
    ProductSign(q - c, t);
  }

  /** A share `k / n` of a positive whole lies in [0, 1] and is 1 exactly
      for the whole. */
  lemma ShareBounds(k: int, n: int)
    requires 0 <= k <= n && n > 0
    ensures 0.0 <= k as real / n as real <= 1.0
    ensures k as real / n as real == 1.0 <==> k == n
  {
    var q := k as real / n as real;
    assert q * n as real == k as real;
    assert (1.0 - q) * n as real == (n - k) as real;
    ProductSign(q, n as real);
    ProductSign(1.0 - q, n as real);
  }

  /** A mean of `n` values between `lo` and `hi` lies between them. */
  lemma MeanBounds(total: int, n: int, lo: int, hi: int)
    requires n > 0 && lo * n <= total <= hi * n
    ensures lo as real <= total as real / n as real <= hi as real
  {
    var q := total as real / n as real;
    assert q * n as real == total as real;
    assert (q - lo as real) * n as real == (total - lo * n) as real;
    assert (hi as real - q) * n as real == (hi * n - total) as real;
    ProductSign(q - lo as real, n as real);
    ProductSign(hi as real - q, n as real);
  }

  /** `Math.ceil(a / b)` for a positive integer divisor. */
  function CeilDiv(a: int, b: int): (q: int)
    requires b > 0
    ensures q * b >= a > (q - 1) * b
  {
    if a % b == 0 then a / b else a / b + 1
  }

  /** `Math.round(x)`: halves round towards positive infinity. */
  function Round(x: real): (n: int)
    ensures x - 0.5 < n as real <= x + 0.5
  {
    (x + 0.5).Floor
  }

  function MinReal(a: real, b: real): (m: real)
    ensures m <= a && m <= b && (m == a || m == b)
  {
    if a <= b then a else b
  }

  function MaxReal(a: real, b: real): (m: real)
    ensures m >= a && m >= b && (m == a || m == b)
  {
    if a >= b then a else b
  }

  /** Sum of a sequence of integers, folded from the left. */
  function Sum(s: seq<int>): int
  {
    if s == [] then 0 else Sum(s[..|s| - 1]) + s[|s| - 1]
  }

  lemma {:induction false} SumAppend(a: seq<int>, b: seq<int>)
    ensures Sum(a + b) == Sum(a) + Sum(b)
    decreases |b|
  {
    if b == [] {
      assert a + b == a;
    } else {
      assert (a + b)[..|a + b| - 1] == a + b[..|b| - 1];
      SumAppend(a, b[..|b| - 1]);
    }
  }

  /** Replacing one element changes the sum by the difference. */
  lemma {:induction false} SumUpdate(s: seq<int>, i: int, v: int)
    requires 0 <= i < |s|
    ensures Sum(s[i := v]) == Sum(s) - s[i] + v
    decreases |s|
  {
    var n := |s| - 1;
    if i < n {
      assert s[i := v][..n] == s[..n][i := v];
      SumUpdate(s[..n], i, v);
    } else {
      assert s[i := v][..n] == s[..n];
    }
  }
}
