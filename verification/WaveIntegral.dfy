/**
  What a wave's count is: the integral of its documented frequency
  (load/shaper/wave.go).  Sine and cosine are any functions of which the one is the
  derivative of the other, in the sense of Derives.
 */
module WaveIntegral {
  import opened LoadShaper

  /** To first order sin follows its tangent, whose slope is cos. */
  predicate DerivesBy(sin: real -> real, cos: real -> real, x: real, y: real, step: real) {
    -step * step / 2.0 <= step * cos(x) - (sin(y) - sin(x)) <= step * step / 2.0
  }

  predicate DerivesAt(sin: real -> real, cos: real -> real, x: real, y: real) {
    DerivesBy(sin, cos, x, y, y - x)
  }

  ghost predicate Derives(sin: real -> real, cos: real -> real) {
    forall x, y :: x <= y ==> DerivesAt(sin, cos, x, y)
  }

  /** min + (1 - cos(2*pi/p*t))/2 * (max - min) */
  function WaveRate(w: Wave, cos: real -> real, pi: real, t: real): real
    requires w.period != 0.0
  {
    w.min + (1.0 - cos(Phase(w.period, pi, t))) / 2.0 * (w.max - w.min)
  }

  /** To first order the shape yields the frequency at the beginning of an interval times its width. */
  predicate FollowsAt(rate: real -> real, f: Shape, k: real, a: real, width: real) {
    Abs(f(a, a + width) - width * rate(a)) <= width * (k * width)
  }

  ghost predicate Follows(rate: real -> real, f: Shape, k: real) {
    forall a, width :: 0.0 <= a && 0.0 <= width ==> FollowsAt(rate, f, k, a, width)
  }

  /** At most one additive shape follows a frequency: its integral. */
  lemma FollowersAgree(rate: real -> real, f: Shape, g: Shape, k: real, l: real, a: real, b: real)
    requires Additive(f) && Additive(g) && Follows(rate, f, k) && Follows(rate, g, l) && 0.0 <= a <= b
    ensures f(a, b) == g(a, b)
  {
    var slope := k + l;
    forall width: real | 0.0 <= width
      ensures TangentAt(f, g, slope, width)
    {
      FollowersAreTangent(rate, f, g, k, l, width);
    }
    TangentShapesAgree(slope, f, g, a, b);
  }

  lemma FollowersAreTangent(rate: real -> real, f: Shape, g: Shape, k: real, l: real, width: real)
    requires Follows(rate, f, k) && Follows(rate, g, l) && 0.0 <= width
    ensures TangentAt(f, g, k + l, width)
  {
    forall x, y {:trigger f(x, y)} | 0.0 <= x && y == x + width
      ensures Abs(f(x, y) - g(x, y)) <= width * ((k + l) * width)
    {
      FollowersAreClose(rate, f, g, k, l, x, width);
    }
  }

  lemma FollowersAreClose(rate: real -> real, f: Shape, g: Shape, k: real, l: real, x: real, width: real)
    requires Follows(rate, f, k) && Follows(rate, g, l) && 0.0 <= x && 0.0 <= width
    ensures Abs(f(x, x + width) - g(x, x + width)) <= width * ((k + l) * width)
  {
    assert FollowsAt(rate, f, k, x, width) && FollowsAt(rate, g, l, x, width);
    var u, v, area := f(x, x + width), g(x, x + width), width * rate(x);
    Rooms(width, k, l);
    assert Abs(u - v) <= Abs(u - area) + Abs(v - area);
  }

  lemma Rooms(width: real, k: real, l: real)
    ensures width * ((k + l) * width) == width * (k * width) + width * (l * width)
  {
    Distribute(width, k, l);
  }

  // ---- The wave follows its frequency ----

  lemma SwingSplits(p: real, pi: real, h: real, x: real, y: real)
    requires pi != 0.0
    ensures Swing(p, pi, h, x) - Swing(p, pi, h, y) == Swing(p, pi, h, x - y)
  {
    Distribute(p * h, x, y);
  }

  /** The part of the swing that the cosine accounts for. */
  lemma SwingOfTangent(p: real, pi: real, h: real, width: real, slope: real)
    requires p > 0.0 && pi > 0.0
    ensures Swing(p, pi, h, Phase(p, pi, width) * slope) == width * h * slope / 2.0
  {
    var phase := Phase(p, pi, width);
    assert p * phase == 2.0 * pi * width;
    assert p * h * (phase * slope) == (p * phase) * (h * slope);
    assert 2.0 * pi * width * (h * slope) == 4.0 * pi * (width * h * slope / 2.0);
  }

  /** The constant of the second order: h*pi/(2p) */
  function Curvature(p: real, pi: real, h: real): real
    requires p != 0.0
  {
    h * pi / (2.0 * p)
  }

  lemma SwingOfSquare(p: real, pi: real, h: real, width: real)
    requires p > 0.0 && pi > 0.0
    ensures Swing(p, pi, h, Phase(p, pi, width) * Phase(p, pi, width) / 2.0) == width * (Curvature(p, pi, h) * width)
  {
    var phase := Phase(p, pi, width);
    SwingOfTangent(p, pi, h, width, phase / 2.0);
    assert phase * (phase / 2.0) == phase * phase / 2.0;
    assert phase == 2.0 * pi * width / p;
    assert width * h * (phase / 2.0) / 2.0 == width * (h * pi / (2.0 * p) * width);
  }

  lemma SwingIsMonotone(p: real, pi: real, h: real, x: real, room: real)
    requires p > 0.0 && pi > 0.0 && h >= 0.0 && Abs(x) <= room
    ensures Abs(Swing(p, pi, h, x)) <= Swing(p, pi, h, room)
  {
    NonNegativeProduct(p, h);
    var c := p * h;
    Scale(c, x, room);
    Scale(c, -x, room);
    Quotient(c * x, c * room / (4.0 * pi), 4.0 * pi);
    Quotient(c * -x, c * room / (4.0 * pi), 4.0 * pi);
  }

  /** The mean, less the part the cosine accounts for, is the frequency times the width. */
  lemma MeanLessTangent(low: real, high: real, width: real, slope: real)
    ensures width * (low + high) / 2.0 - width * (high - low) * slope / 2.0 == width * (low + (1.0 - slope) / 2.0 * (high - low))
  {
  }

  lemma WavePartsFrom(w: Wave, sin: real -> real, pi: real, a: real, width: real, change: real)
    requires w.period > 0.0 && pi > 0.0
    requires change == sin(Phase(w.period, pi, a + width)) - sin(Phase(w.period, pi, a))
    ensures WaveCount(w, sin, pi, a, a + width) == width * (w.min + w.max) / 2.0 - Swing(w.period, pi, w.max - w.min, change)
  {
    WaveParts(w, sin, pi, a, a + width, change);
    assert a + width - a == width;
  }

  lemma OffTangent(sin: real -> real, cos: real -> real, from: real, to: real, phase: real) returns (off: real)
    requires Derives(sin, cos) && phase == to - from && 0.0 <= phase
    ensures off == phase * cos(from) - (sin(to) - sin(from)) && Abs(off) <= phase * phase / 2.0
  {
    assert DerivesAt(sin, cos, from, to);
    assert DerivesBy(sin, cos, from, to, phase);
    off := phase * cos(from) - (sin(to) - sin(from));
  }

  /** How far the sine is off its tangent, which is all that the count differs by. */
  lemma WaveIsOffBy(w: Wave, sin: real -> real, cos: real -> real, pi: real, a: real, width: real) returns (off: real)
    requires Derives(sin, cos) && pi > 0.0 && w.period > 0.0 && 0.0 <= width
    ensures WaveCount(w, sin, pi, a, a + width) - width * WaveRate(w, cos, pi, a) == Swing(w.period, pi, w.max - w.min, off)
    ensures Abs(off) <= Phase(w.period, pi, width) * Phase(w.period, pi, width) / 2.0
  {
    var b, h := a + width, w.max - w.min;
    var from, to, phase := Phase(w.period, pi, a), Phase(w.period, pi, b), Phase(w.period, pi, width);
    PhaseWidth(w.period, pi, a, b);
    assert b - a == width && to - from == phase;
    var change, slope := sin(to) - sin(from), cos(from);
    off := OffTangent(sin, cos, from, to, phase);
    WavePartsFrom(w, sin, pi, a, width, change);
    SwingOfTangent(w.period, pi, h, width, slope);
    SwingSplits(w.period, pi, h, phase * slope, change);
    MeanLessTangent(w.min, w.max, width, slope);
  }

  lemma SwingIsSmall(p: real, pi: real, h: real, off: real, width: real)
    requires p > 0.0 && pi > 0.0 && h >= 0.0 && Abs(off) <= Phase(p, pi, width) * Phase(p, pi, width) / 2.0
    ensures Abs(Swing(p, pi, h, off)) <= width * (Curvature(p, pi, h) * width)
  {
    var room := Phase(p, pi, width) * Phase(p, pi, width) / 2.0;
    SwingIsMonotone(p, pi, h, off, room);
    SwingOfSquare(p, pi, h, width);
  }

  lemma WaveFollowsAt(w: Wave, sin: real -> real, cos: real -> real, pi: real, a: real, width: real)
    requires Derives(sin, cos) && pi > 0.0 && w.period > 0.0 && w.min <= w.max && 0.0 <= width
    ensures Abs(WaveCount(w, sin, pi, a, a + width) - width * WaveRate(w, cos, pi, a))
         <= width * (Curvature(w.period, pi, w.max - w.min) * width)
  {
    var off := WaveIsOffBy(w, sin, cos, pi, a, width);
    SwingIsSmall(w.period, pi, w.max - w.min, off, width);
  }

  /** The wave's count follows the documented frequency. */
  lemma WaveFollows(w: Wave, sin: real -> real, cos: real -> real, pi: real)
    requires Derives(sin, cos) && pi > 0.0 && w.period > 0.0 && w.min <= w.max
    ensures Follows(t => WaveRate(w, cos, pi, t), (a, b) => WaveCount(w, sin, pi, a, b), Curvature(w.period, pi, w.max - w.min))
  {
    var rate, f, k := t => WaveRate(w, cos, pi, t), (a, b) => WaveCount(w, sin, pi, a, b), Curvature(w.period, pi, w.max - w.min);
    forall a, width | 0.0 <= a && 0.0 <= width
      ensures FollowsAt(rate, f, k, a, width)
    {
      WaveFollowsAt(w, sin, cos, pi, a, width);
    }
  }

  /** The wave's count is the integral of its frequency: the only additive shape that follows it. */
  lemma WaveIsTheIntegral(w: Wave, sin: real -> real, cos: real -> real, pi: real, f: Shape, k: real, a: real, b: real)
    requires Derives(sin, cos) && pi > 0.0 && w.period > 0.0 && w.min <= w.max
    requires Additive(f) && Follows(t => WaveRate(w, cos, pi, t), f, k) && 0.0 <= a <= b
    ensures f(a, b) == WaveCount(w, sin, pi, a, b)
  {
    WaveIsAdditive(w, sin, pi);
    WaveFollows(w, sin, cos, pi);
    FollowersAgree(t => WaveRate(w, cos, pi, t), f, (x, y) => WaveCount(w, sin, pi, x, y), k,
                   Curvature(w.period, pi, w.max - w.min), a, b);
  }
}
