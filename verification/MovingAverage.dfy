/**
  The ordered in-memory series and the simple moving average computed from it
  incrementally (driver/monitoring/synced_series.go, driver/monitoring/sma_series.go).
  Positions are block numbers, whose zero value is their least element; values
  are real numbers in place of floats.
 */
module MovingAverage {
  import opened Common

  datatype Point = Point(position: nat, value: real)

  // ---- Ordered series ----

  ghost predicate Increasing(data: seq<Point>) {
    forall i, j :: 0 <= i < j < |data| ==> data[i].position < data[j].position
  }

  /** The plain meaning of a range query: keep the points positioned in [from, to). */
  function InRange(data: seq<Point>, from: nat, to: nat): seq<Point> {
    if data == [] then []
    else
      var p := data[|data| - 1];
      InRange(data[..|data| - 1], from, to) + if from <= p.position < to then [p] else []
  }

  lemma {:induction false} RangeIsSlice(data: seq<Point>, from: nat, to: nat, start: nat, end: nat)
    requires start <= end <= |data|
    requires forall i :: 0 <= i < |data| ==> (from <= data[i].position <==> start <= i)
    requires forall i :: 0 <= i < |data| ==> (to <= data[i].position <==> end <= i)
    ensures InRange(data, from, to) == data[start..end]
    decreases |data|
  {
    if data != [] {
      var n := |data| - 1;
      var shorter := data[..n];
      if start <= n < end {
        RangeIsSlice(shorter, from, to, start, n);
        assert data[start..end] == data[start..n] + [data[n]];
        assert shorter[start..n] == data[start..n];
      } else {
        var start', end' := if start > n then n else start, if end > n then n else end;
        RangeIsSlice(shorter, from, to, start', end');
        assert shorter[start'..end'] == data[start..end];
      }
    }
  }

  lemma {:induction false} EmptyRange(data: seq<Point>, from: nat, to: nat)
    requires to <= from
    ensures InRange(data, from, to) == []
    decreases |data|
  {
    if data != [] {
      EmptyRange(data[..|data| - 1], from, to);
    }
  }

  /** Points at or after `to` do not matter. */
  lemma {:induction false} RangeIgnoresLater(data: seq<Point>, longer: seq<Point>, from: nat, to: nat)
    requires data <= longer && forall i :: |data| <= i < |longer| ==> to <= longer[i].position
    ensures InRange(longer, from, to) == InRange(data, from, to)
    decreases |longer|
  {
    if |data| < |longer| {
      RangeIgnoresLater(data, longer[..|longer| - 1], from, to);
    } else {
      assert longer == data;
    }
  }

  function Appended(data: seq<Point>, p: Point): seq<Point> {
    if data != [] && p.position <= data[|data| - 1].position then data else data + [p]
  }

  /** The series after a number of appends, of which those out of order are refused. */
  function AppendedAll(data: seq<Point>, points: seq<Point>): seq<Point> {
    if points == [] then data
    else Appended(AppendedAll(data, points[..|points| - 1]), points[|points| - 1])
  }

  lemma {:induction false} AppendedAllGrows(data: seq<Point>, points: seq<Point>)
    requires Increasing(data)
    ensures data <= AppendedAll(data, points) && Increasing(AppendedAll(data, points))
    decreases |points|
  {
    if points != [] {
      AppendedAllGrows(data, points[..|points| - 1]);
    }
  }

  class SyncedSeries {
    var data: seq<Point>

    ghost predicate Valid()
      reads this
    {
      Increasing(data)
    }

    constructor ()
      ensures Valid() && data == []
    {
      data := [];
    }

    /** sort.Search for the first position that is at least `key`. */
    method Search(key: nat) returns (i: nat)
      requires Valid()
      ensures i <= |data|
      ensures forall k :: 0 <= k < |data| ==> (key <= data[k].position <==> i <= k)
    {
      i := 0;
      var j := |data|;
      while i < j
        invariant i <= j <= |data|
        invariant forall k :: 0 <= k < i ==> data[k].position < key
        invariant forall k :: j <= k < |data| ==> key <= data[k].position
      {
        var h := (i + j) / 2;
        if data[h].position < key {
          i := h + 1;
        } else {
          j := h;
        }
      }
    }

    method GetRange(from: nat, to: nat) returns (r: seq<Point>)
      requires Valid()
      ensures r == InRange(data, from, to)
    {
      if to < from {
        EmptyRange(data, from, to);
        return [];
      }
      var start := Search(from);
      var end := Search(to);
      if end < |data| {
        assert to <= data[end].position;
      }
      RangeIsSlice(data, from, to, start, end);
      if start == end {
        return [];
      }
      r := data[start..end];
    }

    method GetLatest() returns (latest: Option<Point>)
      ensures latest == if data == [] then None else Some(data[|data| - 1])
    {
      if |data| == 0 {
        return None;
      }
      latest := Some(data[|data| - 1]);
    }

    method Append(position: nat, value: real) returns (ok: bool)
      requires Valid()
      modifies this
      ensures Valid()
      ensures data == old(Appended(data, Point(position, value)))
      ensures ok <==> data != old(data)
    {
      if |data| > 0 && data[|data| - 1].position >= position {
        return false;
      }
      data := data + [Point(position, value)];
      return true;
    }
  }

  // ---- The plain definition of the moving average ----

  /** The sum of the values at indices a, ..., b - 1. */
  function Sum(data: seq<Point>, a: nat, b: nat): real
    requires a <= b <= |data|
  {
    if a == b then 0.0 else Sum(data, a, b - 1) + data[b - 1].value
  }

  function WindowStart(j: nat, period: nat): nat {
    if j < period then 0 else j + 1 - period
  }

  /**
    Dividing a window sum by the window length. The series is generic in its
    number type, and so in what division does; only the quotient of equal
    arguments has to be equal.
   */
  type Division = (real, nat) -> real

  function RealDivision(sum: real, count: nat): real {
    if count == 0 then 0.0 else sum / count as real
  }

  function AverageAt(div: Division, data: seq<Point>, period: nat, j: nat): real
    requires j < |data|
  {
    var start := WindowStart(j, period);
    div(Sum(data, start, j + 1), j + 1 - start)
  }

  /** With exact division: the sum of the last min(j + 1, period) values over their number. */
  lemma AverageIsMean(data: seq<Point>, period: nat, j: nat)
    requires period >= 1 && j < |data|
    ensures var count := if j + 1 < period then j + 1 else period;
            && WindowStart(j, period) == j + 1 - count
            && AverageAt(RealDivision, data, period, j) * count as real == Sum(data, j + 1 - count, j + 1)
  {
    var count := if j + 1 < period then j + 1 else period;
    var sum := Sum(data, j + 1 - count, j + 1);
    assert sum / count as real * count as real == sum;
  }

  /** The output holds one point per input index below `k`: the plain average of its window. */
  ghost predicate AveragesOf(div: Division, output: seq<Point>, data: seq<Point>, k: nat, period: nat)
    requires k <= |data|
  {
    && |output| == k
    && forall j {:trigger output[j]} :: 0 <= j < k ==> output[j] == Point(data[j].position, AverageAt(div, data, period, j))
  }

  lemma {:induction false} SumSlides(data: seq<Point>, a: nat, b: nat)
    requires a < b <= |data|
    ensures Sum(data, a, b) == data[a].value + Sum(data, a + 1, b)
    decreases b
  {
    if b > a + 1 {
      SumSlides(data, a, b - 1);
    }
  }

  lemma {:induction false} SumIgnoresLater(data: seq<Point>, longer: seq<Point>, a: nat, b: nat)
    requires a <= b <= |data| && data <= longer
    ensures Sum(longer, a, b) == Sum(data, a, b)
    decreases b
  {
    if a < b {
      SumIgnoresLater(data, longer, a, b - 1);
    }
  }

  // ---- The incremental computation ----

  /** Where the computation resumes: just before the current window, or at the beginning. */
  function Base(period: nat, consumed: nat): nat {
    if consumed > period then consumed - 1 - period else 0
  }

  /** The state after `consumed` input points have been averaged; later input does not matter. */
  ghost predicate Consistent(div: Division, data: seq<Point>, output: seq<Point>, startKey: nat, endKey: nat,
                             period: nat, consumed: nat)
  {
    && period >= 1 && consumed <= |data|
    && AveragesOf(div, output, data, consumed, period)
    && endKey == (if consumed == 0 then 0 else data[consumed - 1].position)
    && startKey == (if consumed > period then data[consumed - 1 - period].position else 0)
  }

  /** The input may grow at any time. */
  lemma InputMayGrow(div: Division, data: seq<Point>, longer: seq<Point>, output: seq<Point>, startKey: nat, endKey: nat,
                     period: nat, consumed: nat)
    requires Consistent(div, data, output, startKey, endKey, period, consumed) && data <= longer
    ensures Consistent(div, longer, output, startKey, endKey, period, consumed)
  {
    forall j | 0 <= j < consumed
      ensures AverageAt(div, longer, period, j) == AverageAt(div, data, period, j)
    {
      SumIgnoresLater(data, longer, WindowStart(j, period), j + 1);
    }
  }

  /** Strictly increasing natural positions reach zero at most at the first point. */
  lemma {:induction false} PositionsAreLate(data: seq<Point>, i: nat)
    requires Increasing(data) && i < |data|
    ensures i <= data[i].position
  {
    if i > 0 {
      PositionsAreLate(data, i - 1);
    }
  }

  class SmaSeries {
    const input: SyncedSeries
    const output: SyncedSeries
    const period: nat
    const div: Division
    var startKey: nat
    var endKey: nat
    ghost var consumed: nat

    ghost predicate Valid()
      reads this, input, output
    {
      && input != output && input.Valid() && output.Valid()
      && Consistent(div, input.data, output.data, startKey, endKey, period, consumed)
    }

    constructor (input: SyncedSeries, period: nat, div: Division)
      requires input.Valid() && period >= 1
      ensures Valid() && this.input == input && this.period == period && this.div == div
      ensures fresh(output) && consumed == 0
    {
      this.input := input;
      this.output := new SyncedSeries();
      this.period := period;
      this.div := div;
      startKey, endKey, consumed := 0, 0, 0;
    }

    /** Appends by others. */
    method Feed(points: seq<Point>)
      requires Valid()
      modifies input
      ensures Valid() && input.data == AppendedAll(old(input.data), points)
    {
      ghost var data := input.data;
      for i := 0 to |points|
        invariant input.Valid() && input.data == AppendedAll(data, points[..i])
      {
        assert points[..i + 1][..i] == points[..i];
        var ok := input.Append(points[i].position, points[i].value);
      }
      assert points[..|points|] == points;
      AppendedAllGrows(data, points);
      InputMayGrow(div, data, input.data, output.data, startKey, endKey, period, consumed);
    }

    /**
      calculate: the latest point and the range of points are two reads of the input, and the
      points `between` may be appended in between.  The output is then the plain average of
      everything up to that latest point.
     */
    method Calculate(between: seq<Point>)
      requires Valid()
      modifies this, input, output
      ensures Valid() && consumed == |old(input.data)| && input.data == AppendedAll(old(input.data), between)
      ensures AveragesOf(div, output.data, old(input.data), |old(input.data)|, period)
    {
      ghost var data := input.data;
      var latest := input.GetLatest();
      Feed(between);
      AppendedAllGrows(data, between);
      if latest.Some? && (latest.value.position > endKey || endKey == startKey) {
        Resume(latest.value, data);
        InputMayGrow(div, data, input.data, output.data, startKey, endKey, period, consumed);
      }
    }

    /** The computation for the points up to the latest one that was read. */
    method Resume(latest: Point, ghost data: seq<Point>)
      requires input != output && input.Valid() && output.Valid() && data <= input.data && data != [] && latest == data[|data| - 1]
      requires Consistent(div, data, output.data, startKey, endKey, period, consumed)
      modifies this`startKey, this`endKey, this`consumed, output
      ensures output.Valid() && consumed == |data|
      ensures Consistent(div, data, output.data, startKey, endKey, period, consumed)
    {
      var points := input.GetRange(startKey, latest.position);
      RangeIgnoresLater(data, input.data, startKey, latest.position);
      ResumePoints(div, data, output.data, startKey, endKey, period, consumed);
      MoveWindow(points + [latest], data);
    }

    method GetRange(from: nat, to: nat, between: seq<Point>) returns (r: seq<Point>)
      requires Valid()
      modifies this, input, output
      ensures Valid() && AveragesOf(div, output.data, old(input.data), |old(input.data)|, period)
      ensures r == InRange(output.data, from, to)
    {
      Calculate(between);
      r := output.GetRange(from, to);
    }

    method GetLatest(between: seq<Point>) returns (latest: Option<Point>)
      requires Valid()
      modifies this, input, output
      ensures Valid() && (latest.None? <==> old(input.data) == [])
      ensures latest.Some? ==>
                var data := old(input.data);
                var j := |data| - 1;
                latest.value == Point(data[j].position, AverageAt(div, data, period, j))
    {
      Calculate(between);
      latest := output.GetLatest();
    }

    /** The loop of the computation, over the points of `data` from the start of the window on. */
    method MoveWindow(points: seq<Point>, ghost data: seq<Point>)
      requires output.Valid() && Increasing(data) && IsTail(points, data, Base(period, consumed))
      requires Consistent(div, data, output.data, startKey, endKey, period, consumed)
      modifies this`startKey, this`endKey, this`consumed, output
      ensures output.Valid() && consumed == |data|
      ensures Consistent(div, data, output.data, startKey, endKey, period, consumed)
    {
      ghost var first := consumed;
      var sum := 0.0;
      SlideBegins(div, data, period, first, startKey, endKey, output.data);
      for i := 0 to |points|
        invariant output.Valid()
        invariant Sliding(div, data, period, first, i, Window(startKey, endKey, sum, output.data))
      {
        sum := AdvanceSliding(points, i, sum, data, first);
      }
      consumed := |data|;
      SlideEnds(div, data, period, first, Window(startKey, endKey, sum, output.data));
    }

    method AdvanceSliding(points: seq<Point>, i: nat, sumBefore: real, ghost data: seq<Point>, ghost first: nat)
      returns (sum: real)
      requires output.Valid() && period >= 1 && i < |points|
      requires Sliding(div, data, period, first, i, Window(startKey, endKey, sumBefore, output.data))
      requires IsTail(points, data, Base(period, first))
      modifies this`startKey, this`endKey, output
      ensures output.Valid()
      ensures Sliding(div, data, period, first, i + 1, Window(startKey, endKey, sum, output.data))
    {
      ghost var before := Window(startKey, endKey, sumBefore, output.data);
      sum := AdvanceWindow(points, i, sumBefore);
      SlideStep(div, data, period, first, i, points, before);
    }

    /** One iteration: the window takes in points[i] and, if that point is new, its average is stored. */
    method AdvanceWindow(points: seq<Point>, i: nat, sumBefore: real) returns (sum: real)
      requires output.Valid() && period >= 1 && i < |points|
      modifies this`startKey, this`endKey, output
      ensures output.Valid()
      ensures Window(startKey, endKey, sum, output.data) ==
              Advanced(div, period, points, i, old(Window(startKey, endKey, sumBefore, output.data)))
    {
      var point := points[i];
      sum := sumBefore + point.value;
      if i >= period {
        startKey := points[i - period].position;
        sum := sum - points[i - period].value;
      }
      if point.position > endKey || endKey == startKey {
        var count := period;
        if i < period {
          count := i + 1;
        }
        var avr := div(sum, count);
        endKey := point.position;
        var ok := output.Append(endKey, avr);
      }
    }
  }

  ghost predicate IsTail(points: seq<Point>, data: seq<Point>, base: nat) {
    && base + |points| == |data|
    && forall k {:trigger points[k]} :: 0 <= k < |points| ==> points[k] == data[base + k]
  }

  /** The resumed range query returns exactly the points from the base on. */
  lemma ResumePoints(div: Division, data: seq<Point>, output: seq<Point>, startKey: nat, endKey: nat, period: nat, consumed: nat)
    requires Increasing(data) && data != []
    requires Consistent(div, data, output, startKey, endKey, period, consumed)
    ensures IsTail(InRange(data, startKey, data[|data| - 1].position) + [data[|data| - 1]], data, Base(period, consumed))
  {
    var base, last := Base(period, consumed), |data| - 1;
    RangeIsSlice(data, startKey, data[last].position, base, last);
  }

  // ---- One pass of the window ----

  /** How many input points are averaged after `i` points of a pass that began with `first`. */
  function Done(period: nat, first: nat, i: nat): nat {
    if Base(period, first) + i > first then Base(period, first) + i else first
  }

  /** The window after `i` points of the pass begins at this input index. */
  function Left(period: nat, first: nat, i: nat): nat {
    Base(period, first) + if i > period then i - period else 0
  }

  /** The variables of the loop, and what one iteration makes of them. */
  datatype Window = Window(startKey: nat, endKey: nat, sum: real, output: seq<Point>)

  function Advanced(div: Division, period: nat, points: seq<Point>, i: nat, w: Window): Window
    requires period >= 1 && i < |points|
  {
    var startKey := if i >= period then points[i - period].position else w.startKey;
    var sum := w.sum + points[i].value;
    var sum := if i >= period then sum - points[i - period].value else sum;
    if points[i].position > w.endKey || w.endKey == startKey then
      var avr := div(sum, if i < period then i + 1 else period);
      Window(startKey, points[i].position, sum, Appended(w.output, Point(points[i].position, avr)))
    else
      Window(startKey, w.endKey, sum, w.output)
  }

  ghost predicate Sliding(div: Division, data: seq<Point>, period: nat, first: nat, i: nat, w: Window) {
    && Increasing(data) && period >= 1 && first <= |data| && Base(period, first) + i <= |data|
    && AveragesOf(div, w.output, data, Done(period, first, i), period)
    && w.endKey == (if Done(period, first, i) == 0 then 0 else data[Done(period, first, i) - 1].position)
    && w.startKey == (if i > period then data[Base(period, first) + i - 1 - period].position
                      else if first > period then data[Base(period, first)].position else 0)
    && w.sum == Sum(data, Left(period, first, i), Base(period, first) + i)
  }

  lemma SlideBegins(div: Division, data: seq<Point>, period: nat, first: nat,
                    startKey: nat, endKey: nat, output: seq<Point>)
    requires Increasing(data) && Consistent(div, data, output, startKey, endKey, period, first)
    ensures Sliding(div, data, period, first, 0, Window(startKey, endKey, 0.0, output))
  {
  }

  lemma SlideEnds(div: Division, data: seq<Point>, period: nat, first: nat, w: Window)
    requires first <= |data| && Sliding(div, data, period, first, |data| - Base(period, first), w)
    ensures Consistent(div, data, w.output, w.startKey, w.endKey, period, |data|)
  {
  }

  lemma SumStep(data: seq<Point>, period: nat, first: nat, i: nat)
    requires period >= 1 && Base(period, first) + i < |data|
    ensures var base := Base(period, first);
            Sum(data, Left(period, first, i + 1), base + i + 1) ==
            var grown := Sum(data, Left(period, first, i), base + i) + data[base + i].value;
            if i >= period then grown - data[base + i - period].value else grown
  {
    if i >= period {
      SumSlides(data, Left(period, first, i), Base(period, first) + i + 1);
    }
  }

  /** The window of a new point is the window of the plain definition. */
  lemma WindowIsPlain(div: Division, data: seq<Point>, period: nat, first: nat, i: nat)
    requires period >= 1 && first <= Base(period, first) + i < |data|
    ensures var g := Base(period, first) + i;
            AverageAt(div, data, period, g) ==
            div(Sum(data, Left(period, first, i + 1), g + 1), if i < period then i + 1 else period)
  {
  }

  /** Appending the average of a point extends the output if it is new and is refused if not. */
  lemma Emission(div: Division, data: seq<Point>, period: nat, first: nat, i: nat, output: seq<Point>, avr: real)
    requires Increasing(data) && first <= |data| && Base(period, first) + i < |data|
    requires AveragesOf(div, output, data, Done(period, first, i), period)
    requires first <= Base(period, first) + i ==> avr == AverageAt(div, data, period, Base(period, first) + i)
    ensures AveragesOf(div, Appended(output, Point(data[Base(period, first) + i].position, avr)),
                       data, Done(period, first, i + 1), period)
  {
  }

  /** A point passes the guard when it is new, or when it is a lone point at position zero. */
  lemma EmissionGuard(data: seq<Point>, period: nat, first: nat, i: nat, consumed: nat, startKey: nat, endKey: nat)
    requires Increasing(data) && period >= 1 && first <= |data|
    requires Base(period, first) + i < |data| && consumed == Done(period, first, i)
    requires endKey == if consumed == 0 then 0 else data[consumed - 1].position
    requires startKey ==
             if i >= period then data[Base(period, first) + i - period].position
             else if first > period then data[Base(period, first)].position else 0
    ensures var g := Base(period, first) + i;
            (data[g].position > endKey || endKey == startKey) <==>
            (g >= consumed || (g == 0 && consumed == 1 && data[0].position == 0))
  {
    var g := Base(period, first) + i;
    if consumed > 0 {
      PositionsAreLate(data, consumed - 1);
    }
  }

  lemma SlideStep(div: Division, data: seq<Point>, period: nat, first: nat, i: nat, points: seq<Point>, w: Window)
    requires Sliding(div, data, period, first, i, w) && i < |points| && IsTail(points, data, Base(period, first))
    ensures Sliding(div, data, period, first, i + 1, Advanced(div, period, points, i, w))
  {
    var base := Base(period, first);
    assert points[i] == data[base + i] && (i >= period ==> points[i - period] == data[base + i - period]);
    var w' := Advanced(div, period, points, i, w);
    SumStep(data, period, first, i);
    assert w'.sum == Sum(data, Left(period, first, i + 1), base + i + 1);
    var avr := div(w'.sum, if i < period then i + 1 else period);
    if first <= base + i {
      WindowIsPlain(div, data, period, first, i);
    }
    EmissionGuard(data, period, first, i, Done(period, first, i), w'.startKey, w.endKey);
    Emission(div, data, period, first, i, w.output, avr);
  }

  // ---- Any interleaving of appends and reads ----

  /** A read during which points are appended. */
  datatype Op = Feed(points: seq<Point>) | Read(between: seq<Point>)

  /** The input series after a schedule: out-of-order points are rejected. */
  function FedBy(data: seq<Point>, op: Op): seq<Point> {
    match op
    case Feed(points) => AppendedAll(data, points)
    case Read(between) => AppendedAll(data, between)
  }

  function Fed(ops: seq<Op>): seq<Point> {
    if ops == [] then [] else FedBy(Fed(ops[..|ops| - 1]), ops[|ops| - 1])
  }

  ghost predicate IsAnswer(div: Division, answer: seq<Point>, data: seq<Point>, period: nat) {
    AveragesOf(div, answer, data, |data|, period)
  }

  method Serve(sma: SmaSeries, op: Op) returns (answer: seq<Point>)
    requires sma.Valid()
    modifies sma, sma.input, sma.output
    ensures sma.Valid() && sma.input.data == old(FedBy(sma.input.data, op))
    ensures op.Read? ==> IsAnswer(sma.div, answer, old(sma.input.data), sma.period)
  {
    match op
    case Feed(points) =>
      sma.Feed(points);
      answer := [];
    case Read(between) =>
      sma.Calculate(between);
      answer := sma.output.data;
  }

  /** Every read of every schedule sees exactly the plain moving average of what was fed before it. */
  method RunSchedule(ops: seq<Op>, period: nat, div: Division) returns (answers: seq<seq<Point>>)
    requires period >= 1
    ensures |answers| == |ops|
    ensures forall i :: 0 <= i < |ops| && ops[i].Read? ==> IsAnswer(div, answers[i], Fed(ops[..i]), period)
  {
    var input := new SyncedSeries();
    var sma := new SmaSeries(input, period, div);
    answers := [];
    for i := 0 to |ops|
      invariant fresh(input) && fresh(sma) && fresh(sma.output)
      invariant sma.Valid() && sma.input == input && sma.period == period && sma.div == div
      invariant input.data == Fed(ops[..i]) && |answers| == i
      invariant forall k :: 0 <= k < i && ops[k].Read? ==> IsAnswer(div, answers[k], Fed(ops[..k]), period)
    {
      assert ops[..i + 1][..i] == ops[..i];
      var answer := Serve(sma, ops[i]);
      answers := answers + [answer];
    }
  }
}
