/**
  Traffic shapes: how many messages a shape asks for between two moments, measured
  in seconds since its start (load/shaper). Go floats are modelled as real numbers.
 */
module LoadShaper {

  /** The number of messages asked for between two moments. */
  type Shape = (real, real) -> real

  ghost predicate Additive(f: Shape) {
    forall a, b, c {:trigger f(a, b), f(b, c), f(a, c)} :: 0.0 <= a <= b <= c ==> f(a, b) + f(b, c) == f(a, c)
  }

  ghost predicate NonNegative(f: Shape) {
    forall a, b :: 0.0 <= a <= b ==> f(a, b) >= 0.0
  }

  function Max(x: real, y: real): real {
    if x > y then x else y
  }

  function Min(x: real, y: real): real {
    if x < y then x else y
  }

  // ---- Constant ----

  function ConstantCount(frequency: real, a: real, b: real): real {
    Max((b - a) * frequency, 0.0)
  }

  /** The frequency times the seconds; nothing for a negative frequency. */
  lemma ConstantCountIs(frequency: real, a: real, b: real)
    requires a <= b
    ensures frequency >= 0.0 ==> ConstantCount(frequency, a, b) == frequency * (b - a)
    ensures frequency <= 0.0 ==> ConstantCount(frequency, a, b) == 0.0
  {
    if frequency >= 0.0 {
      assert (b - a) * frequency >= 0.0;
    } else {
      assert (b - a) * -frequency >= 0.0;
    }
  }

  lemma ConstantIsAdditive(frequency: real)
    ensures Additive((a, b) => ConstantCount(frequency, a, b))
    ensures NonNegative((a, b) => ConstantCount(frequency, a, b))
  {
    forall a, b, c | 0.0 <= a <= b <= c
      ensures ConstantCount(frequency, a, b) + ConstantCount(frequency, b, c) == ConstantCount(frequency, a, c)
    {
      ConstantSplits(frequency, b - a, c - b);
    }
  }

  lemma ConstantSplits(frequency: real, x: real, y: real)
    requires x >= 0.0 && y >= 0.0
    ensures Max(x * frequency, 0.0) + Max(y * frequency, 0.0) == Max((x + y) * frequency, 0.0)
  {
    assert (x + y) * frequency == x * frequency + y * frequency;
    if frequency >= 0.0 {
      assert x * frequency >= 0.0 && y * frequency >= 0.0;
    } else {
      assert x * -frequency >= 0.0 && y * -frequency >= 0.0;
    }
  }

  // ---- Slope ----

  /** The time at which the frequency d + k*t is zero. */
  function ZeroPoint(d: real, k: real): real
    requires k != 0.0
  {
    -d / k
  }

  /** Restricts a moment to the side of the zero point where the frequency is not negative. */
  function Clamp(d: real, k: real, t: real): real
    requires k != 0.0
  {
    if k > 0.0 then Max(ZeroPoint(d, k), t) else Min(ZeroPoint(d, k), t)
  }

  function SlopeCount(d: real, k: real, a: real, b: real): real {
    if k == 0.0 then (b - a) * d
    else
      var a', b' := Clamp(d, k, a), Clamp(d, k, b);
      k / 2.0 * (b' * b' - a' * a') + d * (b' - a')
  }

  /** The frequency that the shape is meant to follow. */
  function SlopeRate(d: real, k: real, t: real): real {
    Max(d + k * t, 0.0)
  }

  lemma ZeroPointIsZero(d: real, k: real)
    requires k != 0.0
    ensures d + k * ZeroPoint(d, k) == 0.0
  {
    assert k * (-d / k) == -d;
  }

  lemma Distribute(k: real, x: real, y: real)
    ensures k * (x - y) == k * x - k * y
    ensures k * (x + y) == k * x + k * y
  {
  }

  /** Clamping keeps the frequency: above the zero point it is d + k*t, elsewhere it is zero. */
  lemma ClampedRate(d: real, k: real, t: real)
    requires k != 0.0
    ensures d + k * Clamp(d, k, t) == SlopeRate(d, k, t)
  {
    var z := ZeroPoint(d, k);
    ZeroPointIsZero(d, k);
    Distribute(k, t, z);
    if t >= z {
      assert k > 0.0 ==> k * (t - z) >= 0.0;
      assert k < 0.0 ==> -k * (t - z) >= 0.0;
    } else {
      assert k > 0.0 ==> k * (z - t) >= 0.0;
      assert k < 0.0 ==> -k * (z - t) >= 0.0;
    }
  }

  function Antiderivative(d: real, k: real, t: real): real {
    k / 2.0 * (t * t) + d * t
  }

  lemma CountIsDifference(d: real, k: real, a: real, b: real)
    requires k != 0.0
    ensures SlopeCount(d, k, a, b) ==
            Antiderivative(d, k, Clamp(d, k, b)) - Antiderivative(d, k, Clamp(d, k, a))
  {
    var a', b' := Clamp(d, k, a), Clamp(d, k, b);
    Distribute(k / 2.0, b' * b', a' * a');
    Distribute(d, b', a');
  }

  lemma SlopeIsAdditive(d: real, k: real)
    ensures Additive((a, b) => SlopeCount(d, k, a, b))
  {
    forall a, b, c | 0.0 <= a <= b <= c
      ensures SlopeCount(d, k, a, b) + SlopeCount(d, k, b, c) == SlopeCount(d, k, a, c)
    {
      if k == 0.0 {
        Distribute(d, b - a, b - c);
      } else {
        CountIsDifference(d, k, a, b);
        CountIsDifference(d, k, b, c);
        CountIsDifference(d, k, a, c);
      }
    }
  }

  /** The count is the area of a trapezoid under the clamped frequency. */
  lemma Trapezoid(d: real, k: real, a: real, b: real)
    requires k != 0.0
    ensures SlopeCount(d, k, a, b) ==
            (Clamp(d, k, b) - Clamp(d, k, a)) * ((SlopeRate(d, k, a) + SlopeRate(d, k, b)) / 2.0)
  {
    var x, y := Clamp(d, k, a), Clamp(d, k, b);
    ClampedRate(d, k, a);
    ClampedRate(d, k, b);
    assert (SlopeRate(d, k, a) + SlopeRate(d, k, b)) / 2.0 == d + k / 2.0 * (x + y);
    calc {
      (y - x) * (d + k / 2.0 * (x + y));
      (y - x) * d + (y - x) * (k / 2.0 * (x + y));
      d * (y - x) + k / 2.0 * ((y - x) * (x + y));
      { assert (y - x) * (x + y) == y * y - x * x; }
      d * (y - x) + k / 2.0 * (y * y - x * x);
    }
  }

  lemma Scale(w: real, x: real, y: real)
    requires w >= 0.0 && x <= y
    ensures w * x <= w * y && x * w <= y * w
  {
  }

  /** Below the zero point the frequency is zero, so clamping loses width only where there is no area. */
  lemma ClampedWidth(d: real, k: real, a: real, b: real)
    requires k != 0.0 && a <= b
    ensures 0.0 <= Clamp(d, k, b) - Clamp(d, k, a) <= b - a
    ensures Clamp(d, k, b) - Clamp(d, k, a) < b - a ==> SlopeRate(d, k, a) == 0.0 || SlopeRate(d, k, b) == 0.0
  {
    ZeroPointIsZero(d, k);
    ClampedRate(d, k, a);
    ClampedRate(d, k, b);
  }

  /** Non-negative exactly when the shape is not a constant negative frequency over a real interval. */
  lemma SlopeIsNonNegativeIff(d: real, k: real, a: real, b: real)
    requires a <= b
    ensures SlopeCount(d, k, a, b) >= 0.0 <==> k != 0.0 || d >= 0.0 || a == b
  {
    if k != 0.0 {
      Trapezoid(d, k, a, b);
      ClampedWidth(d, k, a, b);
      var w, mean := Clamp(d, k, b) - Clamp(d, k, a), (SlopeRate(d, k, a) + SlopeRate(d, k, b)) / 2.0;
      assert mean >= 0.0;
      Scale(w, 0.0, mean);
    } else if d >= 0.0 {
      Scale(d, 0.0, b - a);
    } else if a < b {
      assert (b - a) * -d > 0.0;
    }
  }

  /** Every slope that its configuration check accepts yields non-negative counts. */
  lemma CheckedSlopeIsNonNegative(d: real, k: real)
    requires d >= 0.0
    ensures NonNegative((a, b) => SlopeCount(d, k, a, b))
  {
    forall a, b | 0.0 <= a <= b
      ensures SlopeCount(d, k, a, b) >= 0.0
    {
      SlopeIsNonNegativeIff(d, k, a, b);
    }
  }

  // ---- The integral of a frequency ----

  /** Over every interval, between the frequencies at its ends; meant for monotone frequencies. */
  ghost predicate Sandwiched(rate: real -> real, f: Shape) {
    forall a, b :: 0.0 <= a <= b ==> AreaFits(b - a, rate(a), rate(b), f(a, b))
  }

  predicate AreaFits(w: real, x: real, y: real, area: real) {
    w * Min(x, y) <= area <= w * Max(x, y)
  }

  /** The frequency changes by at most `slope` per second. */
  ghost predicate Lipschitz(rate: real -> real, slope: real) {
    forall a, b :: 0.0 <= a <= b ==> Max(rate(a), rate(b)) - Min(rate(a), rate(b)) <= slope * (b - a)
  }

  function Abs(x: real): real {
    if x < 0.0 then -x else x
  }

  lemma Spread(w: real, lo: real, hi: real, slope: real, x: real, y: real)
    requires 0.0 <= w && hi - lo <= slope * w
    requires w * lo <= x <= w * hi && w * lo <= y <= w * hi
    ensures Abs(x - y) <= w * (slope * w)
  {
    var room := w * (slope * w);
    Distribute(w, hi, lo);
    Scale(w, hi - lo, slope * w);
    assert w * hi - w * lo <= room;
    assert -room <= x - y <= room;
  }

  /** Two sandwiched shapes differ by at most slope*w^2 over an interval of width w. */
  lemma CloseOverInterval(rate: real -> real, slope: real, f: Shape, g: Shape, a: real, w: real)
    requires Sandwiched(rate, f) && Sandwiched(rate, g) && Lipschitz(rate, slope) && 0.0 <= a && 0.0 <= w
    ensures Abs(f(a, a + w) - g(a, a + w)) <= w * (slope * w)
  {
    var b := a + w;
    assert b - a == w;
    Spread(w, Min(rate(a), rate(b)), Max(rate(a), rate(b)), slope, f(a, b), g(a, b));
  }

  /** n steps of the given size. */
  function Steps(n: nat, step: real): real {
    if n == 0 then 0.0 else Steps(n - 1, step) + step
  }

  lemma {:induction false} StepsAreProduct(n: nat, step: real)
    ensures Steps(n, step) == n as real * step
    ensures step >= 0.0 ==> Steps(n, step) >= 0.0
  {
    if n > 0 {
      StepsAreProduct(n - 1, step);
      assert n as real == (n - 1) as real + 1.0;
    }
  }

  /** Over every interval of width w the two shapes differ by at most e. */
  ghost predicate Close(f: Shape, g: Shape, w: real, e: real) {
    forall a, b {:trigger f(a, b)} :: 0.0 <= a && b == a + w ==> Abs(f(a, b) - g(a, b)) <= e
  }

  lemma SplitGap(f: Shape, g: Shape, a: real, b: real, c: real)
    requires Additive(f) && Additive(g) && 0.0 <= a <= b <= c
    ensures Abs(f(a, c) - g(a, c)) <= Abs(f(a, b) - g(a, b)) + Abs(f(b, c) - g(b, c))
  {
    assert f(a, b) + f(b, c) == f(a, c);
    assert g(a, b) + g(b, c) == g(a, c);
  }

  lemma {:induction false} CloseOverPieces(f: Shape, g: Shape, a: real, w: real, e: real, n: nat)
    requires Additive(f) && Additive(g) && Close(f, g, w, e) && 0.0 <= a && 0.0 <= w
    ensures Steps(n, w) >= 0.0
    ensures n >= 1 ==> Abs(f(a, a + Steps(n, w)) - g(a, a + Steps(n, w))) <= Steps(n, e)
  {
    if n > 0 {
      CloseOverPieces(f, g, a, w, e, n - 1);
      var m := a + Steps(n - 1, w);
      assert Abs(f(m, m + w) - g(m, m + w)) <= e;
      if n > 1 {
        SplitGap(f, g, a, m, m + w);
      }
    }
  }

  lemma PieceArea(n: nat, w: real, width: real, slope: real, gap: real)
    requires n >= 1 && n as real * w == width && gap <= n as real * (w * (slope * w))
    ensures n as real * gap <= slope * width * width
  {
    var r := n as real;
    Scale(r, gap, r * (w * (slope * w)));
    calc {
      r * (r * (w * (slope * w)));
      r * (w * (r * (slope * w)));
      (r * w) * (r * (slope * w));
      (r * w) * (slope * (r * w));
      width * (slope * width);
      slope * width * width;
    }
  }

  lemma SandwichedAreClose(rate: real -> real, slope: real, f: Shape, g: Shape, w: real)
    requires Sandwiched(rate, f) && Sandwiched(rate, g) && Lipschitz(rate, slope) && 0.0 <= w
    ensures Close(f, g, w, w * (slope * w))
  {
    forall a, b {:trigger f(a, b)} | 0.0 <= a && b == a + w
      ensures Abs(f(a, b) - g(a, b)) <= w * (slope * w)
    {
      CloseOverInterval(rate, slope, f, g, a, w);
    }
  }

  lemma CloseOverWhole(f: Shape, g: Shape, a: real, b: real, w: real, e: real, n: nat)
    requires Additive(f) && Additive(g) && Close(f, g, w, e)
    requires 0.0 <= a && 0.0 <= w && n >= 1 && n as real * w == b - a
    ensures Abs(f(a, b) - g(a, b)) <= n as real * e
  {
    CloseOverPieces(f, g, a, w, e, n);
    StepsAreProduct(n, w);
    StepsAreProduct(n, e);
    assert a + Steps(n, w) == b;
  }

  lemma PieceWidth(width: real, n: nat) returns (w: real)
    requires 0.0 <= width && n >= 1
    ensures 0.0 <= w && n as real * w == width
  {
    w := width / n as real;
  }

  /** Over intervals of width w the two shapes differ by at most slope*w^2. */
  ghost predicate TangentAt(f: Shape, g: Shape, slope: real, w: real) {
    Close(f, g, w, w * (slope * w))
  }

  ghost predicate Tangent(f: Shape, g: Shape, slope: real) {
    forall w :: 0.0 <= w ==> TangentAt(f, g, slope, w)
  }

  /** Cut into n pieces, an interval leaves room for slope*width^2/n only. */
  lemma CloseBy(slope: real, f: Shape, g: Shape, a: real, b: real, n: nat)
    requires Additive(f) && Additive(g) && Tangent(f, g, slope)
    requires 0.0 <= a <= b && n >= 1
    ensures n as real * Abs(f(a, b) - g(a, b)) <= slope * (b - a) * (b - a)
  {
    var w := PieceWidth(b - a, n);
    var gap := GapOverPieces(slope, f, g, a, b, w, n);
    PieceArea(n, w, b - a, slope, gap);
  }

  lemma GapOverPieces(slope: real, f: Shape, g: Shape, a: real, b: real, w: real, n: nat) returns (gap: real)
    requires Additive(f) && Additive(g) && Tangent(f, g, slope)
    requires 0.0 <= a <= b && n >= 1 && 0.0 <= w && n as real * w == b - a
    ensures gap == Abs(f(a, b) - g(a, b)) && gap <= n as real * (w * (slope * w))
  {
    gap := Abs(f(a, b) - g(a, b));
    assert TangentAt(f, g, slope, w);
    CloseOverWhole(f, g, a, b, w, w * (slope * w), n);
  }

  lemma Archimedean(gap: real, room: real) returns (n: nat)
    requires gap > 0.0
    ensures n >= 1 && n as real * gap > room
  {
    if room < 0.0 {
      n := 1;
    } else {
      assert room / gap >= 0.0 && room / gap * gap == room;
      n := (room / gap).Floor + 1;
      assert (n as real - room / gap) * gap > 0.0;
    }
  }

  /** Additive shapes that differ to second order only do not differ. */
  lemma TangentShapesAgree(slope: real, f: Shape, g: Shape, a: real, b: real)
    requires Additive(f) && Additive(g) && Tangent(f, g, slope)
    requires 0.0 <= a <= b
    ensures f(a, b) == g(a, b)
  {
    var gap := Abs(f(a, b) - g(a, b));
    if gap > 0.0 {
      var n := Archimedean(gap, slope * (b - a) * (b - a));
      CloseBy(slope, f, g, a, b, n);
    }
  }

  /** A frequency of bounded slope has at most one additive shape sandwiched by it: its integral. */
  lemma IntegralIsUnique(rate: real -> real, slope: real, f: Shape, g: Shape, a: real, b: real)
    requires Additive(f) && Additive(g) && Sandwiched(rate, f) && Sandwiched(rate, g) && Lipschitz(rate, slope)
    requires 0.0 <= a <= b
    ensures f(a, b) == g(a, b)
  {
    forall w: real | 0.0 <= w
      ensures TangentAt(f, g, slope, w)
    {
      SandwichedAreClose(rate, slope, f, g, w);
    }
    TangentShapesAgree(slope, f, g, a, b);
  }

  // ---- The slope count is the integral of its frequency ----

  lemma MeanBounds(x: real, y: real, width: real, w: real)
    requires 0.0 <= x && 0.0 <= y && 0.0 <= width <= w
    requires width < w ==> x == 0.0 || y == 0.0
    ensures w * Min(x, y) <= width * ((x + y) / 2.0) <= w * Max(x, y)
  {
    var mean := (x + y) / 2.0;
    Scale(mean, width, w);
    Scale(w, mean, Max(x, y));
    if width < w {
      Scale(mean, 0.0, width);
    } else {
      Scale(w, Min(x, y), mean);
    }
  }

  lemma FlatBounds(d: real, a: real, b: real)
    requires a <= b && d >= 0.0
    ensures AreaFits(b - a, SlopeRate(d, 0.0, a), SlopeRate(d, 0.0, b), SlopeCount(d, 0.0, a, b))
  {
    assert SlopeRate(d, 0.0, a) == SlopeRate(d, 0.0, b) == d;
  }

  lemma SlantedBounds(d: real, k: real, a: real, b: real)
    requires a <= b && k != 0.0
    ensures AreaFits(b - a, SlopeRate(d, k, a), SlopeRate(d, k, b), SlopeCount(d, k, a, b))
  {
    var width := Clamp(d, k, b) - Clamp(d, k, a);
    Trapezoid(d, k, a, b);
    ClampedWidth(d, k, a, b);
    MeanBounds(SlopeRate(d, k, a), SlopeRate(d, k, b), width, b - a);
  }

  lemma SlopeBounds(d: real, k: real, a: real, b: real)
    requires a <= b && (k != 0.0 || d >= 0.0)
    ensures AreaFits(b - a, SlopeRate(d, k, a), SlopeRate(d, k, b), SlopeCount(d, k, a, b))
  {
    if k == 0.0 {
      FlatBounds(d, a, b);
    } else {
      SlantedBounds(d, k, a, b);
    }
  }

  lemma RectifiedGap(x: real, y: real)
    ensures Max(Max(x, 0.0), Max(y, 0.0)) - Min(Max(x, 0.0), Max(y, 0.0)) <= Abs(x - y)
  {
  }

  lemma LinearGap(d: real, k: real, a: real, b: real)
    requires a <= b
    ensures Abs((d + k * a) - (d + k * b)) == Abs(k) * (b - a)
  {
    Distribute(k, b, a);
    Scale(Abs(k), 0.0, b - a);
  }

  lemma SlopeRateGap(d: real, k: real, a: real, b: real, x: real, y: real)
    requires a <= b && x == SlopeRate(d, k, a) && y == SlopeRate(d, k, b)
    ensures Max(x, y) - Min(x, y) <= Abs(k) * (b - a)
  {
    RectifiedGap(d + k * a, d + k * b);
    LinearGap(d, k, a, b);
  }

  lemma SlopeRateIsLipschitz(d: real, k: real)
    ensures Lipschitz(t => SlopeRate(d, k, t), Abs(k))
  {
    var rate := t => SlopeRate(d, k, t);
    forall a, b | 0.0 <= a <= b
      ensures Max(rate(a), rate(b)) - Min(rate(a), rate(b)) <= Abs(k) * (b - a)
    {
      SlopeRateGap(d, k, a, b, rate(a), rate(b));
    }
  }

  lemma SlopeIsSandwiched(d: real, k: real)
    requires k != 0.0 || d >= 0.0
    ensures Sandwiched(t => SlopeRate(d, k, t), (a, b) => SlopeCount(d, k, a, b))
  {
    var rate, f := t => SlopeRate(d, k, t), (a, b) => SlopeCount(d, k, a, b);
    forall a, b | 0.0 <= a <= b
      ensures AreaFits(b - a, rate(a), rate(b), f(a, b))
    {
      SlopeBounds(d, k, a, b);
    }
  }

  /**
    The slope count is the integral of the frequency: of all additive shapes between
    the least and the greatest frequency over every interval, it is the only one.
   */
  lemma SlopeIsTheIntegral(d: real, k: real, f: Shape, a: real, b: real)
    requires k != 0.0 || d >= 0.0
    requires Additive(f) && Sandwiched(t => SlopeRate(d, k, t), f) && 0.0 <= a <= b
    ensures f(a, b) == SlopeCount(d, k, a, b)
  {
    SlopeIsAdditive(d, k);
    SlopeIsSandwiched(d, k);
    SlopeRateIsLipschitz(d, k);
    IntegralIsUnique(t => SlopeRate(d, k, t), Abs(k), f, (x, y) => SlopeCount(d, k, x, y), a, b);
  }

  // ---- Wave ----

  datatype Wave = Wave(min: real, max: real, period: real)

  /** The antiderivative the shape evaluates; the sine function and pi are left uninterpreted. */
  function WaveIntegral(w: Wave, sin: real -> real, pi: real, x: real): real
    requires w.period != 0.0 && pi != 0.0
  {
    x * (w.min + w.max) / 2.0 + w.period * (w.min - w.max) * sin(Phase(w.period, pi, x)) / (4.0 * pi)
  }

  function WaveCount(w: Wave, sin: real -> real, pi: real, a: real, b: real): real
    requires w.period != 0.0 && pi != 0.0
  {
    WaveIntegral(w, sin, pi, b) - WaveIntegral(w, sin, pi, a)
  }

  lemma WaveIsAdditive(w: Wave, sin: real -> real, pi: real)
    requires w.period != 0.0 && pi != 0.0
    ensures Additive((a, b) => WaveCount(w, sin, pi, a, b))
  {
    forall a, b, c
      ensures WaveCount(w, sin, pi, a, b) + WaveCount(w, sin, pi, b, c) == WaveCount(w, sin, pi, a, c)
    {
    }
  }

  /** What is used of the sine function: it changes no faster than its argument. */
  ghost predicate SineLike(sin: real -> real) {
    forall x, y :: x <= y ==> Abs(sin(y) - sin(x)) <= y - x
  }

  function Phase(period: real, pi: real, x: real): real
    requires period != 0.0
  {
    2.0 * pi * x / period
  }

  function Swing(period: real, pi: real, height: real, change: real): real
    requires pi != 0.0
  {
    period * height * change / (4.0 * pi)
  }

  lemma PhaseWidth(period: real, pi: real, a: real, b: real)
    requires period > 0.0 && pi > 0.0 && a <= b
    ensures 0.0 <= Phase(period, pi, b) - Phase(period, pi, a) == Phase(period, pi, b - a)
  {
    assert 2.0 * pi * b - 2.0 * pi * a == 2.0 * pi * (b - a);
    Scale(2.0 * pi, 0.0, b - a);
  }

  /** The swing of a wave of this height takes away at most what half its height would yield. */
  lemma SwingIsBounded(period: real, pi: real, height: real, change: real, width: real)
    requires period > 0.0 && pi > 0.0 && height >= 0.0 && change <= Phase(period, pi, width)
    ensures Swing(period, pi, height, change) <= height * width / 2.0
  {
    var phase := Phase(period, pi, width);
    assert period * phase == 2.0 * pi * width;
    NonNegativeProduct(period, height);
    Scale(period * height, change, phase);
    assert period * height * phase == height * (2.0 * pi * width) by {
      assert period * height * phase == height * (period * phase);
    }
    Quotient(period * height * change, height * width / 2.0, 4.0 * pi);
  }

  lemma NonNegativeProduct(x: real, y: real)
    requires x >= 0.0 && y >= 0.0
    ensures x * y >= 0.0
  {
  }

  lemma Quotient(x: real, y: real, z: real)
    requires z > 0.0 && x <= y * z
    ensures x / z <= y
  {
    var q := x / z;
    assert q * z == x;
    PositiveFactor(y - q, z);
  }

  lemma PositiveFactor(x: real, z: real)
    requires z > 0.0 && x * z >= 0.0
    ensures x >= 0.0
  {
  }

  /** The two parts of a wave's count: the mean frequency, less the swing. */
  lemma WaveParts(w: Wave, sin: real -> real, pi: real, a: real, b: real, change: real)
    requires w.period > 0.0 && pi > 0.0
    requires change == sin(Phase(w.period, pi, b)) - sin(Phase(w.period, pi, a))
    ensures WaveCount(w, sin, pi, a, b) ==
            (b - a) * (w.min + w.max) / 2.0 - Swing(w.period, pi, w.max - w.min, change)
  {
    Split(w.period * (w.min - w.max), sin(Phase(w.period, pi, a)), sin(Phase(w.period, pi, b)), 4.0 * pi);
    Negated(w.period, w.max, w.min, change);
  }

  lemma Split(c: real, x: real, y: real, z: real)
    requires z != 0.0
    ensures c * y / z - c * x / z == c * (y - x) / z
  {
    Distribute(c, y, x);
  }

  lemma Negated(p: real, high: real, low: real, change: real)
    ensures p * (low - high) * change == -(p * (high - low) * change)
  {
  }

  lemma MeanBeatsSwing(width: real, low: real, high: real, swing: real)
    requires width >= 0.0 && low >= 0.0 && swing <= (high - low) * width / 2.0
    ensures width * (low + high) / 2.0 - swing >= 0.0
  {
    NonNegativeProduct(width, low);
    Distribute(width, high, low);
  }

  lemma WaveCountIsNonNegative(w: Wave, sin: real -> real, pi: real, a: real, b: real)
    requires SineLike(sin) && pi > 0.0 && w.period > 0.0 && 0.0 <= w.min <= w.max && a <= b
    ensures WaveCount(w, sin, pi, a, b) >= 0.0
  {
    var change := SineChange(w.period, sin, pi, a, b);
    SwingIsBounded(w.period, pi, w.max - w.min, change, b - a);
    WaveParts(w, sin, pi, a, b, change);
    MeanBeatsSwing(b - a, w.min, w.max, Swing(w.period, pi, w.max - w.min, change));
  }

  lemma SineChange(period: real, sin: real -> real, pi: real, a: real, b: real) returns (change: real)
    requires SineLike(sin) && pi > 0.0 && period > 0.0 && a <= b
    ensures change == sin(Phase(period, pi, b)) - sin(Phase(period, pi, a))
    ensures change <= Phase(period, pi, b - a)
  {
    PhaseWidth(period, pi, a, b);
    var from, to := Phase(period, pi, a), Phase(period, pi, b);
    change := sin(to) - sin(from);
    assert Abs(sin(to) - sin(from)) <= to - from;
  }

  /** Every wave that its configuration check accepts yields non-negative counts. */
  lemma WaveIsNonNegative(w: Wave, sin: real -> real, pi: real)
    requires SineLike(sin) && pi > 0.0 && w.period > 0.0 && 0.0 <= w.min <= w.max
    ensures NonNegative((a, b) => WaveCount(w, sin, pi, a, b))
  {
    forall a, b | 0.0 <= a <= b
      ensures WaveCount(w, sin, pi, a, b) >= 0.0
    {
      WaveCountIsNonNegative(w, sin, pi, a, b);
    }
  }
}
