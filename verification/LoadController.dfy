/**
  The load controller, which turns fractional credit granted by a traffic shape
  into discrete triggers (load/controller/controller.go), and the load-sensitive
  shape that adjusts its own rate (load/shaper/auto.go).
 */
module LoadController {
  import opened Common
  import opened LoadShaper

  function Ceil(x: real): int {
    -((-x).Floor)
  }

  lemma CeilIs(x: real, n: int)
    requires n as real - 1.0 < x <= n as real
    ensures Ceil(x) == n
  {
    assert (-n) as real <= -x < (-n) as real + 1.0;
  }

  lemma CeilBounds(x: real)
    ensures Ceil(x) as real - 1.0 < x <= Ceil(x) as real
  {
  }

  lemma CeilIsMonotone(x: real, y: real)
    requires x <= y
    ensures Ceil(x) <= Ceil(y)
  {
  }

  /** The credit granted up to the last of the wake-up times, counted from time zero. */
  function Granted(f: Shape, times: seq<real>): real {
    if times == [] then 0.0
    else
      var n := |times| - 1;
      Granted(f, times[..n]) + f(if n == 0 then 0.0 else times[n - 1], times[n])
  }

  /** The most that any prefix of the wake-ups had granted, rounded up. */
  function Peak(f: Shape, times: seq<real>): nat {
    if times == [] then 0
    else
      var before, now := Peak(f, times[..|times| - 1]), Ceil(Granted(f, times));
      if now > before then now else before
  }

  /** Wake-ups happen at non-decreasing times after the start. */
  ghost predicate Schedule(times: seq<real>) {
    && (forall i :: 0 <= i < |times| ==> 0.0 <= times[i])
    && (forall i, j :: 0 <= i < j < |times| ==> times[i] <= times[j])
  }

  class AppController {
    var pending: real
    var lastUpdate: real
    var triggers: nat      // sends on the trigger channel
    var triggerClosed: bool

    constructor ()
      ensures pending == 0.0 && lastUpdate == 0.0 && triggers == 0 && !triggerClosed
    {
      pending, lastUpdate, triggers, triggerClosed := 0.0, 0.0, 0, false;
    }

    /** One round of Run: replenish the credit and spend it. */
    method Tick(f: Shape, now: real)
      requires !triggerClosed
      modifies this`pending, this`lastUpdate, this`triggers
      ensures lastUpdate == now && pending <= 0.0 && old(triggers) <= triggers
      ensures pending + triggers as real == old(pending + triggers as real + f(lastUpdate, now))
      ensures pending > -1.0 || triggers == old(triggers)
    {
      pending := pending + f(lastUpdate, now);
      lastUpdate := now;
      ghost var total := pending + triggers as real;
      while pending > 0.0
        invariant pending + triggers as real == total && lastUpdate == now
        invariant old(triggers) <= triggers && (pending > -1.0 || triggers == old(triggers))
        decreases pending
      {
        triggers := triggers + 1;
        pending := pending - 1.0;
      }
    }

    /** Run, woken at the given times and then cancelled. */
    method Run(f: Shape, times: seq<real>)
      requires pending == 0.0 && lastUpdate == 0.0 && triggers == 0 && !triggerClosed
      modifies this
      ensures triggers == Peak(f, times) && pending == Granted(f, times) - triggers as real
      ensures pending <= 0.0 && triggerClosed
    {
      for i := 0 to |times|
        invariant !triggerClosed && pending <= 0.0
        invariant lastUpdate == if i == 0 then 0.0 else times[i - 1]
        invariant pending == Granted(f, times[..i]) - triggers as real
        invariant triggers == Peak(f, times[..i])
      {
        ghost var before := triggers;
        assert times[..i + 1][..i] == times[..i];
        Tick(f, times[i]);
        PeakStep(Granted(f, times[..i + 1]), before, triggers);
      }
      assert times[..|times|] == times;
      triggerClosed := true;
    }
  }

  lemma PeakStep(total: real, before: nat, after: nat)
    requires before <= after && total - after as real <= 0.0
    requires total - after as real > -1.0 || after == before
    ensures after == if Ceil(total) > before then Ceil(total) else before
  {
    if total > before as real {
      CeilIs(total, after);
    } else {
      CeilIsMonotone(total, before as real);
      CeilIs(before as real, before);
    }
  }

  // ---- Shapes whose counts add up and are not negative ----

  lemma {:induction false} GrantedTelescopes(f: Shape, times: seq<real>)
    requires Additive(f) && Schedule(times) && times != []
    ensures Granted(f, times) == f(0.0, times[|times| - 1])
    decreases |times|
  {
    var n := |times| - 1;
    if n == 0 {
      assert times[..0] == [];
    } else {
      GrantedTelescopes(f, times[..n]);
      assert f(0.0, times[n - 1]) + f(times[n - 1], times[n]) == f(0.0, times[n]);
    }
  }

  lemma {:induction false} PeakIsLast(f: Shape, times: seq<real>)
    requires Additive(f) && NonNegative(f) && Schedule(times) && times != []
    ensures Peak(f, times) == Ceil(f(0.0, times[|times| - 1]))
    decreases |times|
  {
    var n := |times| - 1;
    GrantedTelescopes(f, times);
    assert f(0.0, times[n]) >= 0.0;
    CeilIsMonotone(0.0, f(0.0, times[n]));
    if n == 0 {
      assert times[..0] == [];
    } else {
      PeakIsLast(f, times[..n]);
      assert f(0.0, times[n - 1]) + f(times[n - 1], times[n]) == f(0.0, times[n]);
      assert f(times[n - 1], times[n]) >= 0.0;
      CeilIsMonotone(f(0.0, times[n - 1]), f(0.0, times[n]));
    }
  }

  /**
    For a shape whose counts add up and are not negative, the controller has issued
    exactly the messages asked for since the start, rounded up, however often and
    whenever it was woken in between; less than one message is ever issued in advance.
   */
  method RunOnSchedule(f: Shape, times: seq<real>) returns (issued: nat, credit: real)
    requires Additive(f) && NonNegative(f) && Schedule(times) && times != []
    ensures issued == Ceil(f(0.0, times[|times| - 1]))
    ensures issued as real - 1.0 < f(0.0, times[|times| - 1]) <= issued as real
    ensures -1.0 < credit <= 0.0
  {
    CeilBounds(f(0.0, times[|times| - 1]));
    var c := new AppController();
    c.Run(f, times);
    GrantedTelescopes(f, times);
    PeakIsLast(f, times);
    issued, credit := c.triggers, c.pending;
  }

  /** A slope that its configuration check accepts: the messages sent are its integral so far, rounded up. */
  method RunSlope(d: real, k: real, times: seq<real>) returns (issued: nat, credit: real)
    requires d >= 0.0 && Schedule(times) && times != []
    ensures issued == Ceil(SlopeCount(d, k, 0.0, times[|times| - 1])) && -1.0 < credit <= 0.0
  {
    SlopeIsAdditive(d, k);
    CheckedSlopeIsNonNegative(d, k);
    issued, credit := RunOnSchedule((a, b) => SlopeCount(d, k, a, b), times);
  }

  method RunConstant(frequency: real, times: seq<real>) returns (issued: nat, credit: real)
    requires Schedule(times) && times != []
    ensures issued == Ceil(ConstantCount(frequency, 0.0, times[|times| - 1])) && -1.0 < credit <= 0.0
    ensures frequency >= 0.0 ==> issued as real - 1.0 < frequency * times[|times| - 1] <= issued as real
    ensures frequency <= 0.0 ==> issued == 0
  {
    ConstantCountIs(frequency, 0.0, times[|times| - 1]);
    ConstantIsAdditive(frequency);
    issued, credit := RunOnSchedule((a, b) => ConstantCount(frequency, a, b), times);
  }

  /** A wave that its configuration check accepts, for any sine that changes no faster than its argument. */
  method RunWave(w: Wave, sin: real -> real, pi: real, times: seq<real>) returns (issued: nat, credit: real)
    requires SineLike(sin) && pi > 0.0 && w.period > 0.0 && 0.0 <= w.min <= w.max
    requires Schedule(times) && times != []
    ensures issued == Ceil(WaveCount(w, sin, pi, 0.0, times[|times| - 1])) && -1.0 < credit <= 0.0
  {
    WaveIsAdditive(w, sin, pi);
    WaveIsNonNegative(w, sin, pi);
    issued, credit := RunOnSchedule((a, b) => WaveCount(w, sin, pi, a, b), times);
  }

  // ---- The self-adjusting shape ----

  /** getProcessingGap: 0 if either number is unavailable, otherwise a difference of 64 bits that wraps around. */
  function ProcessingGap(sent: Option<nat>, received: Option<nat>): (gap: nat)
    ensures sent == None || received == None ==> gap == 0
    ensures sent.Some? && received.Some? ==> var d := sent.value - received.value;
      && (0 <= d < 18_446_744_073_709_551_616 ==> gap == d)
      && (-18_446_744_073_709_551_616 <= d < 0 ==> gap == d + 18_446_744_073_709_551_616)
  {
    if sent.None? || received.None? then 0
    else (sent.value - received.value) % 0x1_0000_0000_0000_0000
  }

  class AutoShaper {
    const increase: real
    const decrease: real
    var rate: real
    var lastOverflowCheck: real
    ghost var started: real
    ghost var adjustments: nat

    /** Parameters within what the configuration check accepts, rate within what was added so far. */
    ghost predicate Valid()
      reads this
    {
      && increase > 0.0 && 0.0 <= decrease <= 1.0
      && 0.0 <= rate <= Steps(adjustments, increase)
      && started + adjustments as real <= lastOverflowCheck
    }

    constructor (increase: real, decrease: real, start: real)
      requires increase > 0.0 && 0.0 <= decrease <= 1.0
      ensures Valid() && rate == 0.0 && adjustments == 0
      ensures this.increase == increase && this.decrease == decrease && started == lastOverflowCheck == start
    {
      this.increase, this.decrease := increase, decrease;
      rate, lastOverflowCheck, started, adjustments := 0.0, start, start, 0;
    }

    /** GetNumMessagesInInterval, with the numbers the load information source would report. */
    method GetNumMessagesInInterval(start: real, duration: real, sent: Option<nat>, received: Option<nat>)
      returns (n: real)
      requires Valid() && duration >= 0.0
      modifies this`rate, this`lastOverflowCheck, this`adjustments
      ensures Valid() && n == rate * duration >= 0.0
      ensures rate <= adjustments as real * increase
      ensures old(adjustments) <= adjustments <= old(adjustments) + 1
      ensures adjustments > old(adjustments) <==> start - old(lastOverflowCheck) >= 1.0
      ensures adjustments > old(adjustments) ==> lastOverflowCheck == start
      ensures adjustments == old(adjustments) ==> rate == old(rate) && lastOverflowCheck == old(lastOverflowCheck)
      ensures adjustments > old(adjustments) ==>
        rate == if ProcessingGap(sent, received) as real > 2.0 * old(rate) then old(rate) * (1.0 - decrease) else old(rate) + increase
    {
      AdjustPeriodically(start, sent, received);
      n := Product(rate, duration);
    }

    method AdjustPeriodically(start: real, sent: Option<nat>, received: Option<nat>)
      requires Valid()
      modifies this`rate, this`lastOverflowCheck, this`adjustments
      ensures Valid() && rate <= adjustments as real * increase
      ensures old(adjustments) <= adjustments <= old(adjustments) + 1
      ensures adjustments > old(adjustments) <==> start - old(lastOverflowCheck) >= 1.0
      ensures adjustments > old(adjustments) ==> lastOverflowCheck == start
      ensures adjustments == old(adjustments) ==> rate == old(rate) && lastOverflowCheck == old(lastOverflowCheck)
      ensures adjustments > old(adjustments) ==>
        rate == if ProcessingGap(sent, received) as real > 2.0 * old(rate) then old(rate) * (1.0 - decrease) else old(rate) + increase
    {
      if start - lastOverflowCheck >= 1.0 {
        Adjust(start, ProcessingGap(sent, received));
      }
      StepsAreProduct(adjustments, increase);
    }

    /** The periodic adjustment: multiplicative decrease on overload, additive increase otherwise. */
    method Adjust(start: real, gap: nat)
      requires Valid() && start - lastOverflowCheck >= 1.0
      modifies this`rate, this`lastOverflowCheck, this`adjustments
      ensures Valid() && lastOverflowCheck == start && adjustments == old(adjustments) + 1
      ensures rate == Adjusted(old(rate), increase, decrease, gap)
    {
      lastOverflowCheck := start;
      AdjustmentKeepsBounds(rate, increase, decrease, gap);
      rate := Adjusted(rate, increase, decrease, gap);
      adjustments := adjustments + 1;
    }
  }

  function Adjusted(rate: real, increase: real, decrease: real, gap: nat): real {
    if gap as real > 2.0 * rate then rate * (1.0 - decrease) else rate + increase
  }

  lemma AdjustmentKeepsBounds(rate: real, increase: real, decrease: real, gap: nat)
    requires 0.0 <= rate && 0.0 <= decrease <= 1.0 && 0.0 < increase
    ensures 0.0 <= Adjusted(rate, increase, decrease, gap) <= rate + increase
  {
    Scale(rate, 0.0, 1.0 - decrease);
    Scale(rate, 1.0 - decrease, 1.0);
  }

  function Product(rate: real, duration: real): (n: real)
    requires rate >= 0.0 && duration >= 0.0
    ensures n >= 0.0
  {
    Scale(duration, 0.0, rate);
    rate * duration
  }
}
