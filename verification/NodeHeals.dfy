/**
  Exclusive use of the data directory by sonictool heal: when it runs beside a client or
  beside another heal.  The process scan looks for clients only, so a heal whose exec
  reported a failure although it runs on is invisible to every later action.
 */
module NodeHeals {
  import opened Common
  import opened NodeRecord
  import opened NodeLifecycle
  import opened NodeSafety
  import opened NodeTruth

  const LOST_HEAL := HealSonicd(HealEnds(HealLost))

  /** The heal that an action waits for, and those that were lost. */
  function HealsRunning(s: State): nat {
    s.lostHeals + if s.pc.HealExecuting? then 1 else 0
  }

  predicate ClientBesideHeal(s: State) {
    HealsRunning(s) > 0 && !NoneAlive(s)
  }

  predicate TwoHeals(s: State) {
    HealsRunning(s) > 1
  }

  lemma {:induction false} NoneLostAlways(c: Config, s: State, steps: seq<Step>)
    requires s.lostHeals == 0 && IsRun(c, s, steps) && LOST_HEAL !in steps
    ensures After(c, s, steps).lostHeals == 0
    decreases |steps|
  {
    if steps != [] {
      NoneLostStep(c, s, steps[0]);
      NoneLostAlways(c, Apply(c, s, steps[0]), steps[1..]);
    }
  }

  lemma NoneLostStep(c: Config, s: State, step: Step)
    requires s.lostHeals == 0 && Enabled(s, step) && step != LOST_HEAL
    ensures Apply(c, s, step).lostHeals == 0
  {
  }

  lemma FitAndNoneLost(s: State)
    requires Fit(s) && s.lostHeals == 0
    ensures !ClientBesideHeal(s) && !TwoHeals(s)
  {
    CalmMeansNoneAlive(s);
  }

  /** In every run in which no heal is lost, a heal runs beside no client and no other heal. */
  lemma HealRunsAlone(c: Config, steps: seq<Step>)
    requires IsRun(c, INITIAL, steps) && LOST_HEAL !in steps
    ensures !ClientBesideHeal(After(c, INITIAL, steps)) && !TwoHeals(After(c, INITIAL, steps))
  {
    InitialIsFit();
    FitAlways(c, INITIAL, steps);
    NoneLostAlways(c, INITIAL, steps);
    FitAndNoneLost(After(c, INITIAL, steps));
  }

  // ---- What a lost heal leads to ----

  /** No client is alive and no action is in flight; the recorded state is this one. */
  predicate Rests(s: State, state: NodeState) {
    s.pc.Idle? && s.rec.state == state && NoneAlive(s)
  }

  lemma RunToHeal(c: Config, s: State, before: seq<Step>) returns (steps: seq<Step>)
    requires IsRun(c, s, before) && LOST_HEAL !in before && Rests(After(c, s, before), Killed)
    ensures IsRun(c, s, steps) && LOST_HEAL !in steps
    ensures After(c, s, steps).pc.HealExecuting? && After(c, s, steps).rec.state == Healing && NoneAlive(After(c, s, steps))
    ensures After(c, s, steps).lostHeals == After(c, s, before).lostHeals
  {
    steps := Extend(c, s, before, HealSonicd(BeginHeal));
    steps := Extend(c, s, steps, HealSonicd(HealScan(true)));
  }

  lemma RunToHealed(c: Config, s: State, before: seq<Step>) returns (steps: seq<Step>)
    requires IsRun(c, s, before) && LOST_HEAL !in before && Rests(After(c, s, before), Killed)
    ensures IsRun(c, s, steps) && LOST_HEAL !in steps && Rests(After(c, s, steps), Ready)
    ensures After(c, s, steps).lostHeals == After(c, s, before).lostHeals
  {
    steps := RunToHeal(c, s, before);
    steps := Extend(c, s, steps, HealSonicd(HealEnds(Healed)));
    steps := Extend(c, s, steps, HealSonicd(HealCommits));
  }

  lemma RunToClient(c: Config, s: State, before: seq<Step>) returns (steps: seq<Step>)
    requires IsRun(c, s, before) && LOST_HEAL !in before && Rests(After(c, s, before), Ready)
    ensures IsRun(c, s, steps) && LOST_HEAL !in steps
    ensures var t := After(c, s, steps);
            t.lostHeals == After(c, s, before).lostHeals && LaunchedAlone(t)
  {
    steps := RunToExec(c, s, before);
    steps := Extend(c, s, steps, LAUNCH);
  }

  /** The client of such a start crashes, and its watcher reports it. */
  lemma RunToReportedCrash(c: Config, s: State, before: seq<Step>) returns (steps: seq<Step>)
    requires IsRun(c, s, before) && LOST_HEAL !in before
    requires LaunchedAlone(After(c, s, before))
    ensures IsRun(c, s, steps) && LOST_HEAL !in steps && Rests(After(c, s, steps), Killed)
    ensures After(c, s, steps).lostHeals == After(c, s, before).lostHeals
  {
    var n := |After(c, s, before).procs| - 1;
    steps := Extend(c, s, before, StartSonicd(Attach));
    steps := Extend(c, s, steps, StartSonicd(SpawnWatcher));
    steps := RunToSilence(c, s, steps, n);
    steps := Extend(c, s, steps, Environment(WatcherRuns(n)));
  }

  lemma RunToSilence(c: Config, s: State, before: seq<Step>, n: nat) returns (steps: seq<Step>)
    requires IsRun(c, s, before) && LOST_HEAL !in before
    requires n + 1 == |After(c, s, before).procs| && Last(After(c, s, before)).alive && !Last(After(c, s, before)).interrupted
    ensures IsRun(c, s, steps) && LOST_HEAL !in steps
    ensures var t := After(c, s, before);
            After(c, s, steps) == t.(procs := t.procs[n := t.procs[n].(alive := false, done := true)], dirty := true)
  {
    steps := Extend(c, s, before, Environment(UncleanExit(n)));
    steps := Extend(c, s, steps, Environment(StreamEnds(n)));
  }

  /** A client was just launched, the only one alive. */
  predicate LaunchedAlone(t: State) {
    && t.pc.StartLaunched? && t.rec.state == Syncing
    && |t.procs| > 0 && Last(t).alive && !Last(t).interrupted
    && Last(t).gen == t.rec.clientGen == t.pc.gen
    && forall i :: 0 <= i < |t.procs| - 1 ==> !t.procs[i].alive
  }

  // ---- Exactly when exclusion can still fail ----

  /** The state a heal leaves when its exec returns. */
  predicate AfterHeal(t: State) {
    Rests(t, Killed) || (t.pc.HealExecuted? && t.rec.state == Healing && NoneAlive(t))
  }

  /** However a heal ended that no client was beside, the node can be brought to rest in Killed and in Ready. */
  lemma RunToRest(c: Config, t: State) returns (killed: seq<Step>, ready: seq<Step>)
    requires AfterHeal(t)
    ensures IsRun(c, t, killed) && LOST_HEAL !in killed && Rests(After(c, t, killed), Killed)
    ensures IsRun(c, t, ready) && LOST_HEAL !in ready && Rests(After(c, t, ready), Ready)
    ensures After(c, t, killed).lostHeals == After(c, t, ready).lostHeals == t.lostHeals
  {
    if t.pc.Idle? {
      killed := [];
      ready := RunToHealed(c, t, []);
    } else {
      ready := Extend(c, t, [], HealSonicd(HealCommits));
      var launched := RunToClient(c, t, ready);
      killed := RunToReportedCrash(c, t, launched);
    }
  }

  lemma HealReturns(c: Config, s: State, outcome: HealOutcome)
    requires Fit(s) && s.pc.HealExecuting?
    ensures var t := HealApply(s, HealEnds(outcome));
            Fit(t) && AfterHeal(t) && t.lostHeals == s.lostHeals + if outcome == HealLost then 1 else 0
  {
    CalmMeansNoneAlive(s);
    FitStep(c, s, HealSonicd(HealEnds(outcome)));
  }

  lemma StaysAlone(c: Config, t: State, more: seq<Step>)
    requires Fit(t) && t.lostHeals == 0 && IsRun(c, t, more) && LOST_HEAL !in more
    ensures !ClientBesideHeal(After(c, t, more)) && !TwoHeals(After(c, t, more))
  {
    FitAlways(c, t, more);
    NoneLostAlways(c, t, more);
    FitAndNoneLost(After(c, t, more));
  }

  lemma LostHealMeetsClient(c: Config, t: State) returns (more: seq<Step>)
    requires AfterHeal(t) && t.lostHeals > 0
    ensures IsRun(c, t, more) && LOST_HEAL !in more && ClientBesideHeal(After(c, t, more))
  {
    var killed, ready := RunToRest(c, t);
    more := RunToClient(c, t, ready);
    assert Last(After(c, t, more)).alive;
  }

  lemma LostHealMeetsHeal(c: Config, t: State) returns (more: seq<Step>)
    requires AfterHeal(t) && t.lostHeals > 0
    ensures IsRun(c, t, more) && LOST_HEAL !in more && TwoHeals(After(c, t, more))
  {
    var killed, ready := RunToRest(c, t);
    more := RunToHeal(c, t, killed);
  }

  /**
    From the end of a heal, a client can later run beside a heal, without another lost heal,
    if and only if this heal is lost or an earlier lost one still runs.
   */
  lemma ClientBesideHealIff(c: Config, s: State, outcome: HealOutcome)
    requires Fit(s) && s.pc.HealExecuting?
    ensures var t := HealApply(s, HealEnds(outcome));
            (exists more :: IsRun(c, t, more) && LOST_HEAL !in more && ClientBesideHeal(After(c, t, more))) <==>
            outcome == HealLost || s.lostHeals > 0
  {
    var t := HealApply(s, HealEnds(outcome));
    HealReturns(c, s, outcome);
    if t.lostHeals > 0 {
      var more := LostHealMeetsClient(c, t);
    } else {
      forall more | IsRun(c, t, more) && LOST_HEAL !in more
        ensures !ClientBesideHeal(After(c, t, more))
      {
        StaysAlone(c, t, more);
      }
    }
  }

  /** And two heals can later run beside each other in the same cases. */
  lemma TwoHealsIff(c: Config, s: State, outcome: HealOutcome)
    requires Fit(s) && s.pc.HealExecuting?
    ensures var t := HealApply(s, HealEnds(outcome));
            (exists more :: IsRun(c, t, more) && LOST_HEAL !in more && TwoHeals(After(c, t, more))) <==>
            outcome == HealLost || s.lostHeals > 0
  {
    var t := HealApply(s, HealEnds(outcome));
    HealReturns(c, s, outcome);
    if t.lostHeals > 0 {
      var more := LostHealMeetsHeal(c, t);
    } else {
      forall more | IsRun(c, t, more) && LOST_HEAL !in more
        ensures !TwoHeals(After(c, t, more))
      {
        StaysAlone(c, t, more);
      }
    }
  }

  lemma RunToFirstCrash(c: Config) returns (steps: seq<Step>)
    ensures IsRun(c, INITIAL, steps) && LOST_HEAL !in steps && Rests(After(c, INITIAL, steps), Killed)
    ensures After(c, INITIAL, steps).lostHeals == 0
  {
    steps := [];
    steps := Extend(c, INITIAL, steps, Initialize(BeginInitialize));
    steps := Extend(c, INITIAL, steps, Initialize(InitializeEnds(true)));
    steps := RunToClient(c, INITIAL, steps);
    steps := RunToReportedCrash(c, INITIAL, steps);
  }

  /** Every node can get there: a crash, a heal that is lost, its retry, and a start run a client beside the lost heal. */
  lemma LostHealDefeatsExclusion(c: Config) returns (steps: seq<Step>, more: seq<Step>)
    ensures IsRun(c, INITIAL, steps) && steps != [] && steps[|steps| - 1] == LOST_HEAL
    ensures IsRun(c, After(c, INITIAL, steps), more) && LOST_HEAL !in more
    ensures ClientBesideHeal(After(c, After(c, INITIAL, steps), more))
  {
    steps := RunToFirstCrash(c);
    steps := RunToHeal(c, INITIAL, steps);
    steps := Extend(c, INITIAL, steps, LOST_HEAL);
    var t := After(c, INITIAL, steps);
    more := RunToHealed(c, t, []);
    more := RunToClient(c, t, more);
    assert Last(After(c, t, more)).alive;
  }
}
