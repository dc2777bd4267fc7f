/** Unit conversion, truncation, percentages and clamping, over exact reals. */
module Conversion {

  const MAX_NUMERIC_10_4: real := 999_999.9999
  const MAX_NUMERIC_20_4: real := 9_999_999_999_999_999.9999

  function Abs(x: real): real {
    if x < 0.0 then -x else x
  }

  function Clamp(x: real, bound: real): real {
    if x > bound then bound else if x < -bound then -bound else x
  }

  function ClampToNumeric10_4Range(p: real): real {
    Clamp(p, MAX_NUMERIC_10_4)
  }

  function ClampToNumeric20_4Range(v: real): real {
    Clamp(v, MAX_NUMERIC_20_4)
  }

  function CalculatePercentage(numerator: real, denominator: real): real {
    if numerator == 0.0 || denominator == 0.0 then 0.0 else numerator / denominator * 100.0
  }

  /** `math.Trunc`: toward zero. */
  function Trunc(x: real): int {
    if x >= 0.0 then x.Floor else -((-x).Floor)
  }

  /** `math.Round`: half away from zero. */
  function Round(x: real): int {
    if x >= 0.0 then (x + 0.5).Floor else -((-x + 0.5).Floor)
  }

  predicate HasMoreThanThreeDecimals(x: real) {
    (x * 1000.0).Floor as real != x * 1000.0
  }

  function TruncateToThreeDecimalPlaces(x: real): real {
    if HasMoreThanThreeDecimals(x) then Trunc(x * 1000.0) as real / 1000.0 else x
  }

  function TruncateMemoryBytesToMiBTwoDecimals(bytes: real): real {
    Trunc(bytes / 1024.0 / 1024.0 * 100.0) as real / 100.0
  }

  function TruncateMemoryBytesToGiBTwoDecimals(bytes: real): real {
    Trunc(bytes / 1024.0 / 1024.0 / 1024.0 * 100.0) as real / 100.0
  }

  function VariationPercentOfRequestCPU(variation: real, current: real): real {
    var v := TruncateToThreeDecimalPlaces(variation);
    var d := TruncateToThreeDecimalPlaces(current);
    ClampToNumeric10_4Range(TruncateToThreeDecimalPlaces(CalculatePercentage(v, d)))
  }

  function VariationPercentOfRequestMemoryBytesMiB(variation: real, current: real): real {
    var v := TruncateMemoryBytesToMiBTwoDecimals(variation);
    var d := TruncateMemoryBytesToMiBTwoDecimals(current);
    ClampToNumeric10_4Range(TruncateToThreeDecimalPlaces(CalculatePercentage(v, d)))
  }

  /** What a NUMERIC(_, 4) column holds of a value: four decimals, half away from zero. */
  function RoundToFourDecimals(x: real): real {
    Round(x * 10000.0) as real / 10000.0
  }

  // ----- Truncation

  lemma TruncMonotone(x: real, y: real)
    requires x <= y
    ensures Trunc(x) <= Trunc(y)
  {
  }

  lemma TruncOfInteger(k: int)
    ensures Trunc(k as real) == k
  {
  }

  /** Both branches of the three-decimal rule come to the same: thousandths, toward zero. */
  lemma ThreeDecimals(x: real)
    ensures TruncateToThreeDecimalPlaces(x) == Trunc(x * 1000.0) as real / 1000.0
    ensures Trunc(TruncateToThreeDecimalPlaces(x) * 1000.0) == Trunc(x * 1000.0)
  {
  }

  lemma ThreeDecimalsMonotone(x: real, y: real)
    requires x <= y
    ensures TruncateToThreeDecimalPlaces(x) <= TruncateToThreeDecimalPlaces(y)
  {
    ThreeDecimals(x);
    ThreeDecimals(y);
    TruncMonotone(x * 1000.0, y * 1000.0);
  }

  /** `t` is `x` cut toward zero to a multiple of `step`. */
  predicate CutTo(x: real, t: real, step: real) {
    && (x >= 0.0 ==> 0.0 <= t <= x < t + step)
    && (x <= 0.0 ==> t - step < x <= t <= 0.0)
  }

  lemma ThreeDecimalsCut(x: real)
    ensures CutTo(x, TruncateToThreeDecimalPlaces(x), 0.001)
  {
  }

  lemma MiBCut(bytes: real)
    ensures CutTo(bytes / 1048576.0, TruncateMemoryBytesToMiBTwoDecimals(bytes), 0.01)
  {
  }

  /** `x` rounded to the nearest whole number, halves away from zero. */
  lemma Rounded(x: real)
    ensures -0.5 <= x - Round(x) as real <= 0.5
    ensures x - Round(x) as real == 0.5 ==> x < 0.0
    ensures x - Round(x) as real == -0.5 ==> x > 0.0
  {
  }

  /** The largest value with ten digits, of which four are decimals, and that with twenty. */
  lemma NumericBounds()
    ensures MAX_NUMERIC_10_4 * 10_000.0 == 10_000_000_000.0 - 1.0
    ensures MAX_NUMERIC_20_4 * 10_000.0 == 100_000_000_000_000_000_000.0 - 1.0
  {
  }

  // ----- Stored percentages fit their columns without loss

  lemma FourDecimalsOfThousandths(k: int)
    ensures RoundToFourDecimals(k as real / 1000.0) == k as real / 1000.0
  {
    assert k as real / 1000.0 * 10000.0 == (10 * k) as real;
    RoundOfInteger(10 * k);
  }

  lemma RoundOfInteger(k: int)
    ensures Round(k as real) == k
  {
  }

  /** Truncated to three decimals and clamped, a percentage is unchanged by the column's rounding. */
  lemma PercentageStoredExactly(p: real)
    ensures var q := ClampToNumeric10_4Range(TruncateToThreeDecimalPlaces(p));
            RoundToFourDecimals(q) == q && Abs(q) <= MAX_NUMERIC_10_4
  {
    ThreeDecimals(p);
    FourDecimalsOfThousandths(Trunc(p * 1000.0));
    assert MAX_NUMERIC_10_4 * 10000.0 == 9_999_999_999 as real;
    RoundOfInteger(9_999_999_999);
    RoundOfInteger(-9_999_999_999);
  }

  // ----- Accuracy

  lemma DivOrder(a: real, b: real, d: real)
    requires d > 0.0 && a <= b
    ensures a / d <= b / d
  {
  }

  /** Moving a variation and a current request by up to `step` moves their ratio by at most
      `step * (1 + |v / c|)`, divided by the moved request; `q` is the exact ratio and `r` the one of the
      moved amounts. */
  lemma RatioError(v: real, c: real, vt: real, ct: real, step: real, q: real, r: real, e: real)
    returns (f: real, most: real)
    requires Abs(c - ct) <= step && Abs(v - vt) <= step
    requires q * c == v && r * ct == vt && e == r - q
    ensures f == e * ct && most == step + Abs(q) * step && Abs(f) <= most
  {
    var y, share;
    f, y := ErrorTimesRequest(v, c, vt, ct, q, r, e);
    share := GapShare(q, c - ct, step, y);
    most := step + share;
    AddBounds(f, vt - v, y, step, share);
  }

  lemma ErrorTimesRequest(v: real, c: real, vt: real, ct: real, q: real, r: real, e: real) returns (f: real, y: real)
    requires q * c == v && r * ct == vt && e == r - q
    ensures y == q * (c - ct) && f == e * ct && f == (vt - v) + y
  {
    f, y := e * ct, q * (c - ct);
    Distribute(r, q, ct);
    Distribute(c, ct, q);
  }

  lemma GapShare(q: real, gap: real, step: real, y: real) returns (b: real)
    requires Abs(gap) <= step && y == q * gap
    ensures b == Abs(q) * step && Abs(y) <= b
  {
    b := Abs(q) * step;
    ProductBound(q, gap, Abs(q), step);
  }

  lemma AddBounds(f: real, x: real, y: real, a: real, b: real)
    requires f == x + y && Abs(x) <= a && Abs(y) <= b
    ensures Abs(f) <= a + b
  {
  }

  lemma Distribute(a: real, b: real, k: real)
    ensures (a - b) * k == a * k - b * k
    ensures (a - b) * k == k * (a - b) && a * k == k * a && b * k == k * b
  {
  }

  lemma ProductBound(x: real, y: real, a: real, b: real)
    requires Abs(x) <= a && Abs(y) <= b
    ensures Abs(x * y) <= a * b
  {
  }

  lemma CutPercentage(q: real, r: real, bound: real)
    requires Abs(r - q) <= bound
    ensures Abs(TruncateToThreeDecimalPlaces(r * 100.0) - 100.0 * q) <= 100.0 * bound + 0.001
  {
  }

  lemma Quotient(a: real, b: real) returns (q: real)
    requires b != 0.0
    ensures q == a / b && q * b == a && CalculatePercentage(a, b) == q * 100.0
  {
    q := a / b;
    if a == 0.0 {
      assert q == 0.0;
    }
  }

  /** `p` is within `tolerance` * (1 + |v / c|) + 0.001 of the exact percentage. */
  predicate Near(p: real, v: real, c: real, tolerance: real)
    requires c != 0.0
  {
    Abs(p - 100.0 * (v / c)) <= tolerance * (1.0 + Abs(v / c)) + 0.001
  }

  lemma NearWider(p: real, v: real, c: real, a: real, b: real)
    requires c != 0.0 && Near(p, v, c, a) && a <= b
    ensures Near(p, v, c, b)
  {
    TimesMonotone(a, b, 1.0 + Abs(v / c));
  }

  lemma TimesMonotone(a: real, b: real, k: real)
    requires a <= b && k >= 0.0
    ensures a * k <= b * k
  {
  }

  /** An error times `|ct|`, turned into a bound of the error. */
  lemma DividedBound(e: real, ct: real, step: real, q: real, tolerance: real, f: real, most: real)
    returns (bound: real)
    requires ct != 0.0 && f == e * ct && Abs(f) <= most && most == step + Abs(q) * step
    requires tolerance * Abs(ct) == 100.0 * step
    ensures Abs(e) <= bound && 100.0 * bound == tolerance * (1.0 + Abs(q))
  {
    var share := tolerance / 100.0;
    bound := share * (1.0 + Abs(q));
    AbsTimes(e, ct);
    Reassociate(share, Abs(ct));
    SharesOut(step, share, Abs(ct), Abs(q));
    AtMost(Abs(e), bound, Abs(ct));
    Reassociate(share, 1.0 + Abs(q));
  }

  lemma AbsTimes(x: real, y: real)
    ensures Abs(x * y) == Abs(x) * Abs(y)
  {
  }

  lemma SharesOut(step: real, share: real, ct: real, q: real)
    requires step == share * ct
    ensures step + q * step == share * (1.0 + q) * ct
  {
    assert share * (1.0 + q) == share + share * q;
    Distribute(share, -(share * q), ct);
    assert q * step == share * q * ct;
  }

  lemma AtMost(x: real, y: real, k: real)
    requires k > 0.0 && x * k <= y * k
    ensures x <= y
  {
    assert x > y ==> (x - y) * k > 0.0;
    Distribute(x, y, k);
  }

  lemma Reassociate(a: real, b: real)
    ensures 100.0 * (a * b) == 100.0 * a * b
  {
  }

  /** A percentage of amounts that were moved by up to `step`, against the exact one. */
  lemma PercentageError(v: real, c: real, vt: real, ct: real, step: real, tolerance: real)
    requires c != 0.0 && ct != 0.0 && Abs(c - ct) <= step && Abs(v - vt) <= step
    requires tolerance * Abs(ct) == 100.0 * step
    ensures Near(TruncateToThreeDecimalPlaces(CalculatePercentage(vt, ct)), v, c, tolerance)
  {
    var q := Quotient(v, c);
    var r := Quotient(vt, ct);
    var bound := RatioBound(v, c, vt, ct, step, q, r, r - q, tolerance);
    CutPercentage(q, r, bound);
    NearQuotient(TruncateToThreeDecimalPlaces(r * 100.0), v, c, tolerance, q, bound);
  }

  lemma RatioBound(v: real, c: real, vt: real, ct: real, step: real, q: real, r: real, e: real, tolerance: real)
    returns (bound: real)
    requires ct != 0.0 && Abs(c - ct) <= step && Abs(v - vt) <= step
    requires q * c == v && r * ct == vt && e == r - q && tolerance * Abs(ct) == 100.0 * step
    ensures Abs(e) <= bound && 100.0 * bound == tolerance * (1.0 + Abs(q))
  {
    var f, most := RatioError(v, c, vt, ct, step, q, r, e);
    bound := DividedBound(e, ct, step, q, tolerance, f, most);
  }

  lemma NearQuotient(p: real, v: real, c: real, tolerance: real, q: real, bound: real)
    requires c != 0.0 && q == v / c && Abs(p - 100.0 * q) <= 100.0 * bound + 0.001
    requires 100.0 * bound == tolerance * (1.0 + Abs(q))
    ensures Near(p, v, c, tolerance)
  {
  }

  lemma NearScaled(p: real, a: real, d: real, unit: real, b: real, c: real, tolerance: real)
    requires d != 0.0 && unit > 0.0 && c == d * unit && b == a * unit && Near(p, a, d, tolerance)
    ensures c != 0.0 && Near(p, b, c, tolerance)
  {
    SameQuotient(a, d, unit, b, c);
  }

  lemma SameQuotient(a: real, d: real, unit: real, b: real, c: real)
    requires d != 0.0 && unit > 0.0 && c == d * unit && b == a * unit
    ensures c != 0.0 && a / d == b / c
  {
    var q := Quotient(a, d);
    assert b == q * c;
  }

  /** In cores, before clamping. */
  lemma CoresError(v: real, c: real)
    requires TruncateToThreeDecimalPlaces(c) != 0.0
    ensures c != 0.0
    ensures Near(TruncateToThreeDecimalPlaces(CalculatePercentage(
                   TruncateToThreeDecimalPlaces(v), TruncateToThreeDecimalPlaces(c))), v, c,
                 0.1 / Abs(TruncateToThreeDecimalPlaces(c)))
  {
    ThreeDecimalsCut(v);
    ThreeDecimalsCut(c);
    PercentageError(v, c, TruncateToThreeDecimalPlaces(v), TruncateToThreeDecimalPlaces(c), 0.001,
                    0.1 / Abs(TruncateToThreeDecimalPlaces(c)));
  }

  /** In MiB, before clamping. */
  lemma MiBError(v: real, c: real)
    requires TruncateMemoryBytesToMiBTwoDecimals(c) != 0.0
    ensures c != 0.0
    ensures Near(TruncateToThreeDecimalPlaces(CalculatePercentage(
                   TruncateMemoryBytesToMiBTwoDecimals(v), TruncateMemoryBytesToMiBTwoDecimals(c))), v, c,
                 1.0 / Abs(TruncateMemoryBytesToMiBTwoDecimals(c)))
  {
    var vt, ct := TruncateMemoryBytesToMiBTwoDecimals(v), TruncateMemoryBytesToMiBTwoDecimals(c);
    MiBCut(v);
    MiBCut(c);
    PercentageError(v / 1048576.0, c / 1048576.0, vt, ct, 0.01, 1.0 / Abs(ct));
    NearScaled(TruncateToThreeDecimalPlaces(CalculatePercentage(vt, ct)), v / 1048576.0, c / 1048576.0, 1048576.0, v, c,
               1.0 / Abs(ct));
  }

  lemma ShareAtMost(tolerance: real, x: real, unit: real)
    requires tolerance >= 0.0 && 0.0 < unit <= x
    ensures tolerance / x <= tolerance / unit
  {
    var share := tolerance / x;
    assert share >= 0.0;
    TimesMonotone(unit, x, share);
    assert share * unit <= share * x == tolerance == tolerance / unit * unit;
    AtMost(share, tolerance / unit, unit);
  }

  /** The stored CPU percentage is within 0.1 * (1 + |v| / c) + 0.001 of the exact one. */
  lemma CpuPercentageError(v: real, c: real)
    requires 1.0 <= c <= MAX_NUMERIC_10_4
    requires Abs(TruncateToThreeDecimalPlaces(CalculatePercentage(
               TruncateToThreeDecimalPlaces(v), TruncateToThreeDecimalPlaces(c)))) <= MAX_NUMERIC_10_4
    ensures Abs(VariationPercentOfRequestCPU(v, c) - 100.0 * (v / c)) <= 0.1 * (1.0 + Abs(v / c)) + 0.001
  {
    ThreeDecimalsMonotone(1.0, c);
    assert TruncateToThreeDecimalPlaces(1.0) == 1.0;
    CoresError(v, c);
    var ct := TruncateToThreeDecimalPlaces(c);
    ShareAtMost(0.1, ct, 1.0);
    NearWider(VariationPercentOfRequestCPU(v, c), v, c, 0.1 / ct, 0.1);
  }

  /** The stored memory percentage, from a current request of at least one MiB, is within
      1 * (1 + |v| / c) + 0.001 of the exact one. */
  lemma MemoryPercentageError(v: real, c: real)
    requires 1048576.0 <= c
    requires Abs(TruncateToThreeDecimalPlaces(CalculatePercentage(
               TruncateMemoryBytesToMiBTwoDecimals(v), TruncateMemoryBytesToMiBTwoDecimals(c)))) <= MAX_NUMERIC_10_4
    ensures Abs(VariationPercentOfRequestMemoryBytesMiB(v, c) - 100.0 * (v / c)) <= (1.0 + Abs(v / c)) + 0.001
  {
    TruncMonotone(100.0, c / 1024.0 / 1024.0 * 100.0);
    TruncOfInteger(100);
    MiBError(v, c);
    var ct := TruncateMemoryBytesToMiBTwoDecimals(c);
    ShareAtMost(1.0, ct, 1.0);
    NearWider(VariationPercentOfRequestMemoryBytesMiB(v, c), v, c, 1.0 / ct, 1.0);
  }

  /** A larger variation never gets a smaller stored CPU percentage. */
  lemma CpuPercentageMonotone(v: real, w: real, c: real)
    requires v <= w && c >= 0.0
    ensures VariationPercentOfRequestCPU(v, c) <= VariationPercentOfRequestCPU(w, c)
  {
    ThreeDecimalsMonotone(v, w);
    ThreeDecimalsCut(c);
    var vt, wt, ct := TruncateToThreeDecimalPlaces(v), TruncateToThreeDecimalPlaces(w), TruncateToThreeDecimalPlaces(c);
    if ct > 0.0 {
      DivOrder(vt, wt, ct);
      assert 0.0 / ct == 0.0;
      assert CalculatePercentage(vt, ct) == vt / ct * 100.0;
      assert CalculatePercentage(wt, ct) == wt / ct * 100.0;
    }
    ThreeDecimalsMonotone(CalculatePercentage(vt, ct), CalculatePercentage(wt, ct));
  }
}
