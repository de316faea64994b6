/**
 The battery estimate of `mesh_manager.py`: interpolation in a discharge curve, the thresholds near
 full charge, and the median that rejects spikes. Voltages are exact reals.
 */
module Battery {
  import opened Common

  /** A breakpoint of the curve: cell voltage and state of charge in percent. */
  datatype Knot = Knot(volts: real, percent: int)

  type Curve = seq<Knot>

  const LIION_HIGH: Curve := [
    Knot(4.20, 100), Knot(4.18, 99), Knot(4.15, 97), Knot(4.11, 95), Knot(4.08, 92),
    Knot(4.05, 90), Knot(4.02, 87), Knot(3.99, 84), Knot(3.98, 82), Knot(3.96, 80)]

  const LIION_MIDDLE: Curve := [
    Knot(3.94, 77), Knot(3.92, 74), Knot(3.90, 71), Knot(3.88, 68), Knot(3.87, 65),
    Knot(3.85, 62), Knot(3.84, 59), Knot(3.82, 56), Knot(3.81, 53), Knot(3.80, 50)]

  const LIION_LOW: Curve := [
    Knot(3.79, 47), Knot(3.77, 43), Knot(3.75, 39), Knot(3.74, 35), Knot(3.72, 31),
    Knot(3.70, 27), Knot(3.68, 23), Knot(3.66, 19), Knot(3.63, 15), Knot(3.60, 12),
    Knot(3.56, 9), Knot(3.52, 6), Knot(3.45, 3), Knot(3.30, 0)]

  const LIION_CURVE: Curve := LIION_HIGH + LIION_MIDDLE + LIION_LOW

  /** Voltages fall from knot to knot, and the percentage does not rise. */
  predicate Proper(curve: Curve) {
    && curve != []
    && forall i :: 0 <= i < |curve| - 1 ==>
         curve[i].volts > curve[i + 1].volts && curve[i].percent >= curve[i + 1].percent
  }

  // ---------- Rounding ----------

  /** Python's `round`: to the nearest integer, halves to the even one. */
  function Round(x: real): (n: int)
    ensures n as real - 0.5 <= x <= n as real + 0.5
  {
    var f := x.Floor;
    var d := x - f as real;
    if d < 0.5 || (d == 0.5 && f % 2 == 0) then f else f + 1
  }

  /** `round(x, 3)`. */
  function Round3(x: real): (r: real)
    ensures -0.0005 <= r - x <= 0.0005
  {
    Round(1000.0 * x) as real / 1000.0
  }

  lemma RoundMonotone(x: real, y: real)
    requires x <= y
    ensures Round(x) <= Round(y)
  {
    assert x.Floor <= y.Floor;
  }

  lemma RoundInteger(n: int)
    ensures Round(n as real) == n
  {
  }

  // ---------- The curve ----------

  /** The number a fraction `t` of the way from `p` to `q`. */
  function Mix(p: real, q: real, t: real): real {
    p + t * (q - p)
  }

  function Fraction(v: real, low: real, high: real): real
    requires low < high
  {
    (v - low) / (high - low)
  }

  /** The percentage between two neighbouring knots. */
  function Between(v: real, high: Knot, low: Knot): int
    requires low.volts < high.volts
  {
    Round(Mix(low.percent as real, high.percent as real, Fraction(v, low.volts, high.volts)))
  }

  /** The percentage at a voltage: level outside the curve, rounded from the line inside it. */
  function AtVoltage(v: real, curve: Curve): int
    requires Proper(curve)
  {
    if v >= curve[0].volts || |curve| == 1 then curve[0].percent
    else if v >= curve[1].volts then Between(v, curve[0], curve[1])
    else AtVoltage(v, curve[1..])
  }

  /** `_interp_curve`. */
  method InterpCurve(v: real, curve: Curve) returns (percent: int)
    requires Proper(curve)
    ensures percent == AtVoltage(v, curve)
  {
    hide Between;
    if v >= curve[0].volts { return curve[0].percent; }
    var last := curve[|curve| - 1];
    for i := 0 to |curve| - 1
      invariant AtVoltage(v, curve) == AtVoltage(v, curve[i..]) && v < curve[i].volts
    {
      var high, low := curve[i], curve[i + 1];
      assert curve[i..][1..] == curve[i + 1..];
      if low.volts <= v && v <= high.volts {
        BetweenIs(v, high, low);
        return Round(Mix(low.percent as real, high.percent as real, Fraction(v, low.volts, high.volts)));
      }
    }
    return last.percent;
  }

  lemma BetweenIs(v: real, high: Knot, low: Knot)
    requires low.volts < high.volts
    ensures Between(v, high, low)
         == Round(Mix(low.percent as real, high.percent as real, Fraction(v, low.volts, high.volts)))
  {
  }

  lemma FractionMonotone(v: real, w: real, low: real, high: real)
    requires low < high && low <= v <= w <= high
    ensures 0.0 <= Fraction(v, low, high) <= Fraction(w, low, high) <= 1.0
  {
    QuotientOrder(0.0, v - low, high - low);
    QuotientOrder(v - low, w - low, high - low);
    QuotientOrder(w - low, high - low, high - low);
  }

  lemma QuotientOrder(a: real, b: real, d: real)
    requires a <= b && d > 0.0
    ensures a / d <= b / d && 0.0 / d == 0.0 && d / d == 1.0
  {
    var s, t := a / d, b / d;
    assert s * d == a && t * d == b;
    if s > t { assert false; }
  }

  lemma NonNegative(a: real, d: real)
    requires a >= 0.0 && d >= 0.0
    ensures a * d >= 0.0
  {
  }

  lemma MixMonotone(p: real, q: real, s: real, t: real)
    requires p <= q && 0.0 <= s <= t <= 1.0
    ensures p <= Mix(p, q, s) <= Mix(p, q, t) <= q
  {
    var d := q - p;
    NonNegative(s, d);
    NonNegative(t - s, d);
    NonNegative(1.0 - t, d);
    assert (t - s) * d == t * d - s * d;
    assert (1.0 - t) * d == d - t * d;
  }

  /** Between two knots the percentage rises with the voltage and stays between theirs. */
  lemma BetweenMonotone(v: real, w: real, high: Knot, low: Knot)
    requires low.volts < high.volts && low.percent <= high.percent && low.volts <= v <= w <= high.volts
    ensures low.percent <= Between(v, high, low) <= Between(w, high, low) <= high.percent
  {
    var p, q := low.percent as real, high.percent as real;
    var s, t := Fraction(v, low.volts, high.volts), Fraction(w, low.volts, high.volts);
    FractionMonotone(v, w, low.volts, high.volts);
    MixMonotone(p, q, s, t);
    hide Mix, Fraction;
    RoundMonotone(p, Mix(p, q, s));
    RoundMonotone(Mix(p, q, s), Mix(p, q, t));
    RoundMonotone(Mix(p, q, t), q);
    RoundInteger(low.percent);
    RoundInteger(high.percent);
  }

  lemma {:induction false} AtVoltageWithin(v: real, curve: Curve)
    requires Proper(curve)
    ensures curve[|curve| - 1].percent <= AtVoltage(v, curve) <= curve[0].percent
    decreases |curve|
  {
    hide Between;
    if |curve| > 1 {
      AtVoltageWithin(v, curve[1..]);
      EndsOrdered(curve);
      if curve[1].volts <= v < curve[0].volts { BetweenMonotone(v, v, curve[0], curve[1]); }
    }
  }

  lemma {:induction false} EndsOrdered(curve: Curve)
    requires Proper(curve) && |curve| > 1
    ensures curve[|curve| - 1].percent <= curve[1].percent <= curve[0].percent
    decreases |curve|
  {
    if |curve| > 2 { EndsOrdered(curve[1..]); }
  }

  /** The curve's percentage never falls as the voltage rises. */
  lemma {:induction false} AtVoltageMonotone(v: real, w: real, curve: Curve)
    requires Proper(curve) && v <= w
    ensures AtVoltage(v, curve) <= AtVoltage(w, curve)
    decreases |curve|
  {
    hide Between;
    if |curve| > 1 {
      var high, low := curve[0], curve[1];
      AtVoltageMonotone(v, w, curve[1..]);
      AtVoltageWithin(v, curve[1..]);
      if low.volts <= v && w <= high.volts { BetweenMonotone(v, w, high, low); }
      if low.volts <= w <= high.volts { BetweenMonotone(w, w, high, low); }
      if low.volts <= v <= high.volts { BetweenMonotone(v, v, high, low); }
    }
  }

  // ---------- The estimate ----------

  function LowerChar(c: char): char {
    if 'A' <= c <= 'Z' then c - 'A' + 'a' else c
  }

  function Lower(s: string): string {
    seq(|s|, i requires 0 <= i < |s| => LowerChar(s[i]))
  }

  predicate FoundAt(s: string, part: string, k: nat) {
    k + |part| <= |s| && s[k..k + |part|] == part
  }

  predicate Contains(s: string, part: string) {
    exists k: nat :: k <= |s| && FoundAt(s, part, k)
  }

  predicate Discharging(status: string) {
    Contains(Lower(status), "discharg")
  }

  predicate Charging(status: string) {
    Contains(Lower(status), "charg")
  }

  /** Every discharging status counts as charging in the thresholds too. */
  lemma DischargingIsCharging(status: string)
    requires Discharging(status)
    ensures Charging(status)
  {
    var s := Lower(status);
    var k: nat :| k <= |s| && FoundAt(s, "discharg", k);
    assert s[k + 3..k + 8] == s[k..k + 8][3..] == "charg";
    assert FoundAt(s, "charg", k + 3);
  }

  function Min(x: real, y: real): real {
    if x < y then x else y
  }

  function Max(x: real, y: real): real {
    if x < y then y else x
  }

  function MaxInt(x: int, y: int): int {
    if x < y then y else x
  }

  function MinInt(x: int, y: int): int {
    if x < y then x else y
  }

  function AbsReal(x: real): real {
    if x < 0.0 then -x else x
  }

  /** What is added to the measured voltage to estimate the open-circuit voltage. */
  function Compensation(current: real, status: string): real {
    var amps := AbsReal(current) / 1000.0;
    if Discharging(status) then Min(0.18, amps * 0.09)
    else if Charging(status) then -Min(0.12, amps * 0.06)
    else 0.0
  }

  function CellVoltage(packed: real): real {
    Max(3.0, Min(4.2, packed / 3.0))
  }

  lemma HighIsProper()
    ensures Proper(LIION_HIGH)
  {
  }

  lemma MiddleIsProper()
    ensures Proper(LIION_MIDDLE)
  {
  }

  lemma LowIsProper()
    ensures Proper(LIION_LOW)
  {
    var a, b := LIION_LOW[..7], LIION_LOW[7..];
    assert LIION_LOW == a + b;
    assert Proper(a) && Proper(b);
    hide Proper;
    ProperJoin(a, b);
  }

  lemma CurveIsProper()
    ensures Proper(LIION_CURVE) && LIION_CURVE[..10] == LIION_HIGH
    ensures LIION_CURVE[|LIION_CURVE| - 1].percent == 0
  {
    var a, b, c := LIION_HIGH, LIION_MIDDLE, LIION_LOW;
    HighIsProper();
    MiddleIsProper();
    LowIsProper();
    hide Proper;
    assert (a + b)[|a + b| - 1] == b[9] && (a + b)[..10] == a;
    ProperJoin(a, b);
    ProperJoin(a + b, c);
  }

  lemma ProperJoin(a: Curve, b: Curve)
    requires Proper(a) && Proper(b)
    requires a[|a| - 1].volts > b[0].volts && a[|a| - 1].percent >= b[0].percent
    ensures Proper(a + b)
  {
  }

  function CurvePercent(packed: real): int {
    CurveIsProper();
    AtVoltage(CellVoltage(packed), LIION_CURVE)
  }

  /** The thresholds near full charge, on the compensated pack voltage. */
  function NearFull(packed: real, percent: int, current: real, charging: bool): int {
    if packed >= 12.56 && AbsReal(current) <= 180.0 then 100
    else if (charging || current > 200.0) && packed >= 12.54 then 99
    else if (charging || current > 200.0) && packed >= 12.45 then MaxInt(percent, 98)
    else if (charging || current > 200.0) && packed >= 12.36 then MaxInt(percent, 96)
    else MaxInt(0, MinInt(if charging then 99 else 100, percent))
  }

  function Estimate(v: real, current: real, status: string): int {
    var packed := v + Compensation(current, status);
    NearFull(packed, CurvePercent(packed), current, Charging(status))
  }

  /** `_lipo_3s_pct`. */
  method Lipo3sPercent(v: real, current: real, status: string) returns (percent: int)
    ensures percent == Estimate(v, current, status)
  {
    hide AtVoltage, Contains, Lower;
    var amps := AbsReal(current) / 1000.0;
    var packed := v;
    if Discharging(status) {
      packed := packed + Min(0.18, amps * 0.09);
    } else if Charging(status) {
      packed := packed - Min(0.12, amps * 0.06);
    }
    var cell := Max(3.0, Min(4.2, packed / 3.0));
    CurveIsProper();
    var pct := InterpCurve(cell, LIION_CURVE);
    if packed >= 12.56 && AbsReal(current) <= 180.0 { return 100; }
    if Charging(status) || current > 200.0 {
      if packed >= 12.54 { return 99; }
      if packed >= 12.45 { return MaxInt(pct, 98); }
      if packed >= 12.36 { return MaxInt(pct, 96); }
    }
    return MaxInt(0, MinInt(if Charging(status) then 99 else 100, pct));
  }

  lemma CurvePercentWithin(packed: real)
    ensures 0 <= CurvePercent(packed) <= 100
  {
    CurveIsProper();
    AtVoltageWithin(CellVoltage(packed), LIION_CURVE);
    hide AtVoltage;
  }

  lemma CurvePercentMonotone(p: real, q: real)
    requires p <= q
    ensures CurvePercent(p) <= CurvePercent(q)
  {
    CurveIsProper();
    AtVoltageMonotone(CellVoltage(p), CellVoltage(q), LIION_CURVE);
    hide AtVoltage;
  }

  /** The curve where the thresholds are: it never passes what they promise. */
  lemma CurveAtThresholds()
    ensures CurvePercent(12.54) == 99 && CurvePercent(12.45) == 97 && CurvePercent(12.36) <= 96
  {
    var curve := LIION_CURVE;
    CurveIsProper();
    assert curve[1] == LIION_HIGH[1] && curve[2] == LIION_HIGH[2] && curve[3] == LIION_HIGH[3];
    assert CellVoltage(12.54) == 4.18 && CellVoltage(12.45) == 4.15 && CellVoltage(12.36) == 4.12;
    hide AtVoltage, Proper;
    KnotValue(4.18, curve, 1);
    KnotValue(4.15, curve, 2);
    AtFourTwelve(curve);
  }

  lemma AtFourTwelve(curve: Curve)
    requires Proper(curve) && |curve| > 3
    requires curve[1].volts > 4.12 && curve[2] == Knot(4.15, 97) && curve[3] == Knot(4.11, 95)
    ensures AtVoltage(4.12, curve) == 96
  {
    var second, third := curve[1..], curve[2..];
    assert third == second[1..];
    assert AtVoltage(4.12, curve) == AtVoltage(4.12, second) == AtVoltage(4.12, third);
    assert third[0] == curve[2] && third[1] == curve[3];
    assert Fraction(4.12, 4.11, 4.15) == 0.25;
    assert Mix(95.0, 97.0, 0.25) == 95.5;
  }

  /** At a knot's voltage the curve gives the knot's percentage. */
  lemma {:induction false} KnotValue(v: real, curve: Curve, k: nat)
    requires Proper(curve) && k < |curve| && v == curve[k].volts
    ensures AtVoltage(v, curve) == curve[k].percent
    decreases k
  {
    if k == 1 {
      var high, low := curve[0], curve[1];
      assert Fraction(v, low.volts, high.volts) == 0.0;
      assert Mix(low.percent as real, high.percent as real, 0.0) == low.percent as real;
      RoundInteger(low.percent);
    } else if k > 1 {
      VoltsFall(curve, k);
      KnotValue(v, curve[1..], k - 1);
    }
  }

  lemma {:induction false} VoltsFall(curve: Curve, k: nat)
    requires Proper(curve) && 1 < k < |curve|
    ensures curve[k].volts < curve[1].volts < curve[0].volts
    decreases k
  {
    if k > 2 { VoltsFall(curve, k - 1); }
  }

  /** The estimate is a percentage. */
  lemma EstimateWithin(v: real, current: real, status: string)
    ensures 0 <= Estimate(v, current, status) <= 100
  {
    CurvePercentWithin(v + Compensation(current, status));
    hide CurvePercent, Compensation, Charging;
  }

  lemma NearFullMonotone(p: real, q: real, current: real, charging: bool)
    requires p <= q
    ensures NearFull(p, CurvePercent(p), current, charging) <= NearFull(q, CurvePercent(q), current, charging)
  {
    hide CurvePercent;
    CurveAtThresholds();
    CurvePercentMonotone(p, q);
    CurvePercentWithin(p);
    CurvePercentWithin(q);
    if p <= 12.54 { CurvePercentMonotone(p, 12.54); }
    if p <= 12.45 { CurvePercentMonotone(p, 12.45); }
    if p <= 12.36 { CurvePercentMonotone(p, 12.36); }
  }

  /** For a fixed current and status the estimate never falls as the voltage rises, through every
      threshold: a discharging status passes both blocks. */
  lemma EstimateMonotone(v: real, w: real, current: real, status: string)
    requires v <= w
    ensures Estimate(v, current, status) <= Estimate(w, current, status)
  {
    var c := Compensation(current, status);
    hide Compensation, Charging, CurvePercent, NearFull;
    NearFullMonotone(v + c, w + c, current, Charging(status));
  }

  // ---------- The median ----------

  predicate Ascending(s: seq<real>) {
    forall i, j :: 0 <= i <= j < |s| ==> s[i] <= s[j]
  }

  function Insert(x: real, s: seq<real>): (r: seq<real>)
    ensures |r| == |s| + 1 && multiset(r) == multiset(s) + multiset{x}
  {
    if s == [] || x <= s[0] then [x] + s
    else
      assert s == [s[0]] + s[1..];
      [s[0]] + Insert(x, s[1..])
  }

  /** `sorted`. */
  function Sort(s: seq<real>): (r: seq<real>)
    ensures |r| == |s| && multiset(r) == multiset(s)
  {
    if s == [] then []
    else
      assert s == [s[0]] + s[1..];
      Insert(s[0], Sort(s[1..]))
  }

  lemma AscendsFrom(x: real, s: seq<real>)
    requires Ascending(s) && (s != [] ==> x <= s[0])
    ensures Ascending([x] + s)
  {
  }

  lemma {:induction false} InsertAscends(x: real, s: seq<real>)
    requires Ascending(s)
    ensures Ascending(Insert(x, s))
  {
    if s == [] || x <= s[0] {
      AscendsFrom(x, s);
    } else {
      var tail := s[1..];
      assert Ascending(tail);
      assert tail != [] ==> s[0] <= tail[0];
      hide Ascending;
      InsertAscends(x, tail);
      AscendsFrom(s[0], Insert(x, tail));
    }
  }

  lemma {:induction false} SortAscends(s: seq<real>)
    ensures Ascending(Sort(s))
  {
    if s != [] {
      SortAscends(s[1..]);
      InsertAscends(s[0], Sort(s[1..]));
    }
  }

  function One(b: bool): nat {
    if b then 1 else 0
  }

  /** How many samples lie outside a range. */
  function Outliers(s: seq<real>, low: real, high: real): nat {
    if s == [] then 0 else One(!(low <= s[0] <= high)) + Outliers(s[1..], low, high)
  }

  lemma {:induction false} InsertOutliers(x: real, s: seq<real>, low: real, high: real)
    ensures Outliers(Insert(x, s), low, high) == One(!(low <= x <= high)) + Outliers(s, low, high)
  {
    if s == [] || x <= s[0] {
      assert ([x] + s)[1..] == s;
    } else {
      InsertOutliers(x, s[1..], low, high);
      assert ([s[0]] + Insert(x, s[1..]))[1..] == Insert(x, s[1..]);
    }
  }

  lemma {:induction false} SortOutliers(s: seq<real>, low: real, high: real)
    ensures Outliers(Sort(s), low, high) == Outliers(s, low, high)
  {
    if s != [] {
      SortOutliers(s[1..], low, high);
      InsertOutliers(s[0], Sort(s[1..]), low, high);
    }
  }

  /** Samples outside the range are counted. */
  lemma {:induction false} RunOfOutliers(s: seq<real>, low: real, high: real, i: nat, j: nat)
    requires i <= j <= |s| && forall k :: i <= k < j ==> !(low <= s[k] <= high)
    ensures Outliers(s, low, high) >= j - i
  {
    if s != [] {
      if i > 0 {
        RunOfOutliers(s[1..], low, high, i - 1, j - 1);
      } else if j > 0 {
        RunOfOutliers(s[1..], low, high, 0, j - 1);
      }
    }
  }

  function Median(s: seq<real>): real
    requires s != []
  {
    Sort(s)[|s| / 2]
  }

  /** With fewer than half the samples outside a range, the median lies inside it. */
  lemma MedianInRange(s: seq<real>, low: real, high: real)
    requires s != [] && Outliers(s, low, high) <= (|s| - 1) / 2
    ensures low <= Median(s) <= high
  {
    var w, m := Sort(s), |s| / 2;
    SortAscends(s);
    SortOutliers(s, low, high);
    hide Sort, Outliers, Ascending;
    if w[m] < low { AllBelow(w, low, high, m); }
    if w[m] > high { AllAbove(w, low, high, m); }
  }

  lemma AllBelow(w: seq<real>, low: real, high: real, m: nat)
    requires Ascending(w) && m < |w| && w[m] < low
    ensures Outliers(w, low, high) >= m + 1
  {
    hide Outliers;
    RunOfOutliers(w, low, high, 0, m + 1);
  }

  lemma AllAbove(w: seq<real>, low: real, high: real, m: nat)
    requires Ascending(w) && m < |w| && w[m] > high
    ensures Outliers(w, low, high) >= |w| - m
  {
    hide Outliers;
    RunOfOutliers(w, low, high, m, |w|);
  }

  /** What is displayed for the samples in the window lies between the percentages of the lowest and
      the highest good sample, whatever the outliers are. */
  lemma DisplayedBetweenGood(window: seq<real>, low: real, high: real, current: real, status: string)
    requires window != [] && Outliers(window, low, high) <= (|window| - 1) / 2
    ensures Estimate(low, current, status) <= Estimate(Median(window), current, status)
                                           <= Estimate(high, current, status)
  {
    MedianInRange(window, low, high);
    hide Median, Estimate;
    EstimateMonotone(low, Median(window), current, status);
    EstimateMonotone(Median(window), high, current, status);
  }

  /** The bound is exact: with one outlier more the display can be anything an outlier makes it. */
  lemma HalfOutliersSuffice(good: real, spike: real, n: nat)
    requires n > 0 && spike > good
    ensures var window := seq(n, i => if i <= (n - 1) / 2 then spike else good);
            Median(window) == spike && Outliers(window, good, good) == (n - 1) / 2 + 1
  {
    var window := seq(n, i => if i <= (n - 1) / 2 then spike else good);
    var k := (n - 1) / 2 + 1;
    OutlierCount(window, good, spike, k);
    if Median(window) != spike {
      MedianIsSample(window);
      var w := Sort(window);
      SortAscends(window);
      SortOutliers(window, spike, spike);
      OutlierCount2(window, good, spike, k);
      hide Sort;
      assert w[n / 2] == good;
      RunOfOutliers(w, spike, spike, 0, n / 2 + 1);
      assert false;
    }
  }

  lemma MedianIsSample(s: seq<real>)
    requires s != []
    ensures Median(s) in s
  {
    assert Sort(s)[|s| / 2] in multiset(Sort(s));
  }

  lemma {:induction false} OutlierCount(s: seq<real>, good: real, spike: real, k: nat)
    requires k <= |s| && spike > good
    requires forall i :: 0 <= i < |s| ==> s[i] == if i < k then spike else good
    ensures Outliers(s, good, good) == k
  {
    if s != [] { OutlierCount(s[1..], good, spike, if k > 0 then k - 1 else 0); }
  }

  lemma {:induction false} OutlierCount2(s: seq<real>, good: real, spike: real, k: nat)
    requires k <= |s| && spike > good
    requires forall i :: 0 <= i < |s| ==> s[i] == if i < k then spike else good
    ensures Outliers(s, spike, spike) == |s| - k
  {
    if s != [] { OutlierCount2(s[1..], good, spike, if k > 0 then k - 1 else 0); }
  }

  // ---------- The filter over time ----------

  const WINDOW: nat := 5

  /** `deque(maxlen=5).append`. */
  function Pushed(history: seq<real>, v: real): (h: seq<real>)
    ensures h != [] && h[|h| - 1] == v && (|history| <= WINDOW ==> |h| <= WINDOW)
  {
    (if |history| < WINDOW then history else history[|history| - WINDOW + 1..]) + [v]
  }

  /** A poll of the battery monitor: volts, milliamperes and watts; `phase` is the normalised charging
      phase of its status. */
  datatype Reading = Reading(source: string, phase: string, percent: Option<int>, volts: Option<real>,
                             current: Option<real>, power: Option<real>, status: string)

  predicate FromMonitor(r: Reading) {
    r.percent.Some? && "waveshare-" <= r.source
  }

  /** What is shown, and the poll's own percentage and voltage where it is kept beside them. */
  datatype Displayed = Displayed(percent: Option<int>, volts: Option<real>, power: Option<real>,
                                 rawPercent: Option<int>, rawVolts: Option<real>)

  function CurrentOf(r: Reading): real {
    if r.current.Some? then r.current.value else 0.0
  }

  /** `_display_power_w`: from the voltage shown, not from the poll's. */
  function DisplayPower(volts: real, current: Option<real>): Option<real> {
    if current.None? then None else Some(Round3(volts * (current.value / 1000.0)))
  }

  /** The samples kept for each source and phase. */
  class MeshManager {
    var history: map<string, seq<real>>

    constructor ()
      ensures history == map[]
    {
      history := map[];
    }

    ghost function Window(key: string): seq<real>
      reads this
    {
      if key in history then history[key] else []
    }

    /** `_stabilize_host_power`: the median of the window is shown, rounded, with the percentage it stands for. */
    method StabilizeHostPower(r: Reading) returns (shown: Displayed)
      modifies this
      ensures !FromMonitor(r) || r.volts.None? ==>
        && history == old(history)
        && shown == Displayed(r.percent, r.volts, r.power, if FromMonitor(r) then r.percent else None, None)
      ensures FromMonitor(r) && r.volts.Some? ==>
        var key := r.source + ":" + r.phase;
        var window := Pushed(old(Window(key)), r.volts.value);
        var median := Median(window);
        && history == old(history)[key := window]
        && shown == Displayed(Some(Estimate(median, CurrentOf(r), r.status)), Some(Round3(median)),
                              DisplayPower(Round3(median), r.current), r.percent, Some(Round3(r.volts.value)))
    {
      hide Estimate;
      if !FromMonitor(r) { return Displayed(r.percent, r.volts, r.power, None, None); }
      if r.volts.None? { return Displayed(r.percent, r.volts, r.power, r.percent, None); }
      var key := r.source + ":" + r.phase;
      var kept := if key in history then history[key] else [];
      var window := Pushed(kept, r.volts.value);
      history := history[key := window];
      var ordered := Sort(window);
      var smoothed := ordered[|ordered| / 2];
      var percent := Lipo3sPercent(smoothed, CurrentOf(r), r.status);
      var volts := Round3(smoothed);
      var power := DisplayPower(volts, r.current);
      return Displayed(Some(percent), Some(volts), power, r.percent, Some(Round3(r.volts.value)));
    }
  }
}
