/**
  What the exit watchers record: which of them act, when the unexpected-exit flag is
  right, and when a wrong one is still to come.
 */
module NodeExits {
  import opened Common
  import opened NodeRecord
  import opened NodeLifecycle
  import opened NodeSafety
  import opened NodeTruth

  // ---- Exit watchers ----

  /** In every run only the watcher of the current generation, of the latest client, can change the record. */
  lemma OnlyTheCurrentWatcherActs(c: Config, steps: seq<Step>, i: nat)
    requires IsRun(c, INITIAL, steps)
    requires EnvEnabled(After(c, INITIAL, steps), WatcherRuns(i))
    ensures var s := After(c, INITIAL, steps);
            EnvApply(s, WatcherRuns(i)).rec != s.rec ==>
              i == |s.procs| - 1 && s.procs[i].gen == s.rec.clientGen && ClaimsClient(s)
  {
    InitialIsFit();
    FitAlways(c, INITIAL, steps);
    assert PastAt(i, After(c, INITIAL, steps));
  }

  /** The current client exited although nobody had asked it to. */
  predicate ExitedUnasked(s: State) {
    && |s.procs| > 0 && Last(s).gen == s.rec.clientGen
    && !Last(s).alive && !Last(s).interrupted && !Last(s).killed
  }

  /** The node says that it runs its latest client. */
  predicate RunsLatest(s: State) {
    (ClaimsClient(s) || s.pc.StopClaimed?) && |s.procs| > 0 && Last(s).gen == s.rec.clientGen
  }

  /** A client the node says it runs was never killed, and the flag is right. */
  predicate Honest(s: State) {
    Unkilled(s) && FlagIsRight(s)
  }

  /** A watcher reports a client that is alive, its stream having broken, or that was asked to exit after all. */
  predicate Misjudges(s: State, step: Step) {
    && step.Environment? && step.env.WatcherRuns? && EnvEnabled(s, step.env)
    && EnvApply(s, step.env).rec != s.rec
    && (s.procs[step.env.proc].alive || s.procs[step.env.proc].interrupted)
  }

  ghost predicate NeverMisjudges(c: Config, s: State, steps: seq<Step>)
    requires IsRun(c, s, steps)
    decreases |steps|
  {
    steps == [] || (!Misjudges(s, steps[0]) && NeverMisjudges(c, Apply(c, s, steps[0]), steps[1..]))
  }

  /** Unkilled is the first half of Honest, which no watcher can spoil. */
  predicate Unkilled(s: State) {
    RunsLatest(s) ==> !Last(s).killed
  }

  lemma StartKeepsUnkilled(c: Config, s: State, step: StartStep)
    requires Current(s) && Unkilled(s) && StartEnabled(s, step)
    ensures Unkilled(StartApply(c, s, step))
  {
  }

  lemma StopKeepsUnkilled(s: State, step: StopStep)
    requires Current(s) && Unkilled(s) && StopEnabled(s, step)
    ensures Unkilled(StopApply(s, step))
  {
  }

  lemma ForceStopKeepsUnkilled(s: State, step: ForceStopStep)
    requires Current(s) && Unkilled(s) && ForceStopEnabled(s, step)
    ensures Unkilled(ForceStopApply(s, step))
  {
  }

  lemma EnvKeepsUnkilled(s: State, step: EnvStep)
    requires Unkilled(s) && EnvEnabled(s, step)
    ensures Unkilled(EnvApply(s, step))
  {
  }

  lemma OtherKeepsUnkilled(c: Config, s: State, step: Step)
    requires Current(s) && Unkilled(s) && Enabled(s, step)
    requires step.Initialize? || step.WaitForSync? || step.HealSonicd?
    ensures Unkilled(Apply(c, s, step))
  {
  }

  lemma UnkilledStep(c: Config, s: State, step: Step)
    requires Current(s) && Unkilled(s) && Enabled(s, step)
    ensures Unkilled(Apply(c, s, step))
  {
    match step
    case StartSonicd(t) => StartKeepsUnkilled(c, s, t);
    case StopSonicd(t) => StopKeepsUnkilled(s, t);
    case ForceStopSonicd(t) => ForceStopKeepsUnkilled(s, t);
    case Environment(t) => EnvKeepsUnkilled(s, t);
    case _ => OtherKeepsUnkilled(c, s, step);
  }

  /** The flag is right. */
  predicate FlagIsRight(s: State) {
    s.rec.clientExitWasUnexpected ==> ExitedUnasked(s)
  }

  lemma StartKeepsFlagRight(c: Config, s: State, step: StartStep)
    requires Current(s) && FlagIsRight(s) && StartEnabled(s, step)
    ensures FlagIsRight(StartApply(c, s, step))
  {
  }

  lemma StopKeepsFlagRight(s: State, step: StopStep)
    requires FlagIsRight(s) && StopEnabled(s, step)
    ensures FlagIsRight(StopApply(s, step))
  {
  }

  lemma ForceStopKeepsFlagRight(s: State, step: ForceStopStep)
    requires FlagIsRight(s) && ForceStopEnabled(s, step)
    ensures FlagIsRight(ForceStopApply(s, step))
  {
  }

  lemma EnvKeepsFlagRight(s: State, step: EnvStep)
    requires Fit(s) && Honest(s) && EnvEnabled(s, step) && !Misjudges(s, Environment(step))
    ensures FlagIsRight(EnvApply(s, step))
  {
    if !step.LostHealEnds? {
      assert PastAt(step.proc, s);
    }
  }

  lemma HonestStep(c: Config, s: State, step: Step)
    requires Fit(s) && Honest(s) && Enabled(s, step) && !Misjudges(s, step)
    ensures Honest(Apply(c, s, step))
  {
    UnkilledStep(c, s, step);
    match step
    case StartSonicd(t) => StartKeepsFlagRight(c, s, t);
    case StopSonicd(t) => StopKeepsFlagRight(s, t);
    case ForceStopSonicd(t) => ForceStopKeepsFlagRight(s, t);
    case Environment(t) => EnvKeepsFlagRight(s, t);
    case _ =>
  }

  lemma {:induction false} HonestAlways(c: Config, s: State, steps: seq<Step>)
    requires Fit(s) && Honest(s) && IsRun(c, s, steps) && NeverMisjudges(c, s, steps)
    ensures Fit(After(c, s, steps)) && Honest(After(c, s, steps))
    decreases |steps|
  {
    if steps != [] {
      HonestStep(c, s, steps[0]);
      FitStep(c, s, steps[0]);
      HonestAlways(c, Apply(c, s, steps[0]), steps[1..]);
    }
  }

  lemma {:induction false} UnkilledAlways(c: Config, s: State, steps: seq<Step>)
    requires Fit(s) && Unkilled(s) && IsRun(c, s, steps)
    ensures Fit(After(c, s, steps)) && Unkilled(After(c, s, steps))
    decreases |steps|
  {
    if steps != [] {
      UnkilledStep(c, s, steps[0]);
      FitStep(c, s, steps[0]);
      UnkilledAlways(c, Apply(c, s, steps[0]), steps[1..]);
    }
  }

  /** The flag is raised only for a current client that exited unasked, in every run in which no watcher misjudges. */
  lemma FlagMeansUnaskedExit(c: Config, steps: seq<Step>)
    requires IsRun(c, INITIAL, steps) && NeverMisjudges(c, INITIAL, steps)
    ensures var s := After(c, INITIAL, steps); s.rec.clientExitWasUnexpected ==> ExitedUnasked(s)
  {
    InitialIsFit();
    HonestAlways(c, INITIAL, steps);
  }

  /**
    Whenever in any run a watcher raises the flag, the flag is right if and only if the
    client is gone and had not been sent SIGINT.
   */
  lemma RaisedFlagIsRightIff(c: Config, steps: seq<Step>, i: nat)
    requires IsRun(c, INITIAL, steps) && EnvEnabled(After(c, INITIAL, steps), WatcherRuns(i))
    ensures var s := After(c, INITIAL, steps);
            var t := EnvApply(s, WatcherRuns(i));
            t.rec != s.rec ==>
              && t.rec.state == Killed && t.rec.clientExitWasUnexpected
              && (ExitedUnasked(t) <==> !s.procs[i].alive && !s.procs[i].interrupted)
  {
    InitialIsFit();
    UnkilledAlways(c, INITIAL, steps);
    assert PastAt(i, After(c, INITIAL, steps));
  }

  // ---- When a watcher misjudges ----

  predicate Unasked(s: State) {
    RunsLatest(s) ==> !Last(s).interrupted
  }

  ghost predicate Unambiguous(s: State) {
    (forall i :: IntactAt(i, s)) && Unasked(s)
  }

  /** The steps that make a client's end ambiguous: its stream breaks, or a SIGINT is delivered but reported as failed. */
  const UNREPORTED_INTERRUPT := StopSonicd(InterruptFails(true))

  predicate Confuses(step: Step) {
    step == UNREPORTED_INTERRUPT || (step.Environment? && step.env.StreamBreaks?)
  }

  lemma StartKeepsUnasked(c: Config, s: State, step: StartStep)
    requires Current(s) && Unasked(s) && StartEnabled(s, step)
    ensures Unasked(StartApply(c, s, step))
  {
  }

  lemma StopKeepsUnasked(s: State, step: StopStep)
    requires Current(s) && Unasked(s) && StopEnabled(s, step) && step != InterruptFails(true)
    ensures Unasked(StopApply(s, step))
  {
  }

  lemma ForceStopKeepsUnasked(s: State, step: ForceStopStep)
    requires Current(s) && Unasked(s) && ForceStopEnabled(s, step)
    ensures Unasked(ForceStopApply(s, step))
  {
  }

  lemma EnvKeepsUnasked(s: State, step: EnvStep)
    requires Unasked(s) && EnvEnabled(s, step)
    ensures Unasked(EnvApply(s, step))
  {
  }

  lemma OtherKeepsUnasked(c: Config, s: State, step: Step)
    requires Current(s) && Unasked(s) && Enabled(s, step)
    requires step.Initialize? || step.WaitForSync? || step.HealSonicd?
    ensures Unasked(Apply(c, s, step))
  {
  }

  lemma UnaskedStep(c: Config, s: State, step: Step)
    requires Current(s) && Unasked(s) && Enabled(s, step) && step != UNREPORTED_INTERRUPT
    ensures Unasked(Apply(c, s, step))
  {
    match step
    case StartSonicd(t) => StartKeepsUnasked(c, s, t);
    case StopSonicd(t) => StopKeepsUnasked(s, t);
    case ForceStopSonicd(t) => ForceStopKeepsUnasked(s, t);
    case Environment(t) => EnvKeepsUnasked(s, t);
    case _ => OtherKeepsUnasked(c, s, step);
  }

  lemma UnambiguousStep(c: Config, s: State, step: Step)
    requires Fit(s) && Unambiguous(s) && Enabled(s, step) && !Confuses(step)
    ensures Unambiguous(Apply(c, s, step))
  {
    var t := Apply(c, s, step);
    UnaskedStep(c, s, step);
    forall i: nat
      ensures IntactAt(i, t)
    {
      assert IntactAt(i, s);
      IntactStep(c, s, step, i);
    }
  }

  lemma UnambiguousMeansJudged(s: State, step: Step)
    requires Fit(s) && Unambiguous(s)
    ensures !Misjudges(s, step)
  {
    if step.Environment? && step.env.WatcherRuns? && EnvEnabled(s, step.env) {
      assert IntactAt(step.env.proc, s) && PastAt(step.env.proc, s);
    }
  }

  lemma {:induction false} JudgedAlways(c: Config, s: State, steps: seq<Step>)
    requires Fit(s) && Unambiguous(s) && IsRun(c, s, steps)
    requires forall i :: 0 <= i < |steps| ==> !Confuses(steps[i])
    ensures NeverMisjudges(c, s, steps)
    decreases |steps|
  {
    if steps != [] {
      UnambiguousMeansJudged(s, steps[0]);
      UnambiguousStep(c, s, steps[0]);
      FitStep(c, s, steps[0]);
      JudgedAlways(c, Apply(c, s, steps[0]), steps[1..]);
    }
  }

  /** A watcher misjudges only in runs in which a stream broke or a failed SIGINT was delivered. */
  lemma MisjudgedOnlyIfConfused(c: Config, steps: seq<Step>)
    requires IsRun(c, INITIAL, steps) && forall i :: 0 <= i < |steps| ==> !Confuses(steps[i])
    ensures NeverMisjudges(c, INITIAL, steps)
  {
    InitialIsFit();
    forall i: nat
      ensures IntactAt(i, INITIAL)
    {
    }
    JudgedAlways(c, INITIAL, steps);
  }

  /** A stream that breaks has a live client recorded as dead. */
  lemma BrokenStreamRaisesTheFlag(c: Config) returns (steps: seq<Step>)
    ensures IsRun(c, INITIAL, steps)
    ensures var s := After(c, INITIAL, steps);
            s.rec == Record(Killed, 1, Some(0), true) && |s.procs| == 1 && s.procs[0].alive
  {
    steps := RunToRunning(c);
    steps := Extend(c, INITIAL, steps, Environment(StreamBreaks(0)));
    steps := Extend(c, INITIAL, steps, Environment(WatcherRuns(0)));
  }

  lemma RunToUnreportedExit(c: Config) returns (steps: seq<Step>)
    ensures IsRun(c, INITIAL, steps)
    ensures var s := After(c, INITIAL, steps);
            && s.pc == Idle && s.rec == Record(Running, 1, Some(0), false) && !s.dirty
            && s.procs == [FirstClient(c).(alive := false, interrupted := true)]
  {
    steps := RunToStopping(c);
    steps := Extend(c, INITIAL, steps, UNREPORTED_INTERRUPT);
    steps := Extend(c, INITIAL, steps, Environment(CleanExit(0)));
  }

  /** A SIGINT that was delivered but reported as failed has a requested exit recorded as unexpected. */
  lemma UnreportedInterruptRaisesTheFlag(c: Config) returns (steps: seq<Step>)
    ensures IsRun(c, INITIAL, steps)
    ensures var s := After(c, INITIAL, steps);
            && s.rec == Record(Killed, 1, Some(0), true) && !s.dirty
            && |s.procs| == 1 && !s.procs[0].alive && s.procs[0].interrupted
  {
    steps := RunToUnreportedExit(c);
    steps := Extend(c, INITIAL, steps, Environment(StreamEnds(0)));
    steps := Extend(c, INITIAL, steps, Environment(WatcherRuns(0)));
  }

  // ---- When a misjudgement is still to come ----

  /** The latest client's watcher is still to run, and would report a live or an interrupted client. */
  predicate Doubtful(s: State) {
    RunsLatest(s) && !Last(s).watcher.Finished? && ((Last(s).done && Last(s).alive) || Last(s).interrupted)
  }

  ghost predicate NothingConfuses(steps: seq<Step>) {
    forall t :: t in steps ==> !Confuses(t)
  }

  lemma StartKeepsSure(c: Config, s: State, step: StartStep)
    requires Current(s) && !Doubtful(s) && StartEnabled(s, step)
    ensures !Doubtful(StartApply(c, s, step))
  {
  }

  lemma StopKeepsSure(s: State, step: StopStep)
    requires Current(s) && !Doubtful(s) && StopEnabled(s, step) && step != InterruptFails(true)
    ensures !Doubtful(StopApply(s, step))
  {
  }

  lemma ForceStopKeepsSure(s: State, step: ForceStopStep)
    requires Current(s) && !Doubtful(s) && ForceStopEnabled(s, step)
    ensures !Doubtful(ForceStopApply(s, step))
  {
  }

  lemma EnvKeepsSure(s: State, step: EnvStep)
    requires Current(s) && !Doubtful(s) && EnvEnabled(s, step) && !step.StreamBreaks?
    ensures !Doubtful(EnvApply(s, step))
  {
  }

  lemma OtherKeepsSure(c: Config, s: State, step: Step)
    requires Current(s) && !Doubtful(s) && Enabled(s, step)
    requires step.Initialize? || step.WaitForSync? || step.HealSonicd?
    ensures !Doubtful(Apply(c, s, step))
  {
  }

  lemma SureStep(c: Config, s: State, step: Step)
    requires Current(s) && !Doubtful(s) && Enabled(s, step) && !Confuses(step)
    ensures !Doubtful(Apply(c, s, step))
  {
    match step
    case StartSonicd(t) => StartKeepsSure(c, s, t);
    case StopSonicd(t) => StopKeepsSure(s, t);
    case ForceStopSonicd(t) => ForceStopKeepsSure(s, t);
    case Environment(t) => EnvKeepsSure(s, t);
    case _ => OtherKeepsSure(c, s, step);
  }

  lemma MisjudgingIsDoubtful(s: State, step: Step)
    requires Fit(s) && Misjudges(s, step)
    ensures Doubtful(s)
  {
    assert PastAt(step.env.proc, s);
  }

  lemma {:induction false} SureNeverMisjudges(c: Config, s: State, steps: seq<Step>)
    requires Fit(s) && !Doubtful(s) && IsRun(c, s, steps) && NothingConfuses(steps)
    ensures NeverMisjudges(c, s, steps)
    decreases |steps|
  {
    if steps != [] {
      if Misjudges(s, steps[0]) {
        MisjudgingIsDoubtful(s, steps[0]);
      }
      SureStep(c, s, steps[0]);
      FitStep(c, s, steps[0]);
      assert forall t :: t in steps[1..] ==> t in steps;
      SureNeverMisjudges(c, Apply(c, s, steps[0]), steps[1..]);
    }
  }

  lemma {:induction false} MisjudgesAtEnd(c: Config, s: State, steps: seq<Step>, step: Step)
    requires IsRun(c, s, steps) && Misjudges(After(c, s, steps), step)
    ensures IsRun(c, s, steps + [step]) && !NeverMisjudges(c, s, steps + [step])
    decreases |steps|
  {
    ExtendFrom(c, s, steps, step);
    if steps == [] {
      assert steps + [step] == [step];
    } else {
      assert (steps + [step])[1..] == steps[1..] + [step];
      MisjudgesAtEnd(c, Apply(c, s, steps[0]), steps[1..], step);
    }
  }

  /** The node runs its latest client, whose watcher is about to run. */
  predicate Watching(t: State, u: State)
    requires |t.procs| > 0
  {
    && |u.procs| == |t.procs| && ClaimsClient(u) && Last(u) == Last(t).(watcher := Waiting)
    && u.rec.clientGen == t.rec.clientGen
  }

  lemma RunFromLaunch(c: Config, t: State) returns (more: seq<Step>)
    requires Current(t) && Doubtful(t) && LateStart(t.pc)
    ensures IsRun(c, t, more) && NothingConfuses(more) && Watching(t, After(c, t, more))
  {
    more := [];
    if t.pc.StartLaunched? {
      more := Extend(c, t, more, StartSonicd(Attach));
    }
    more := Extend(c, t, more, StartSonicd(SpawnWatcher));
  }

  lemma RunFromStop(c: Config, t: State) returns (more: seq<Step>)
    requires Current(t) && Tied(t) && Doubtful(t) && t.pc.StopClaimed?
    ensures IsRun(c, t, more) && NothingConfuses(more) && Watching(t, After(c, t, more))
  {
    more := Extend(c, t, [], StopSonicd(InterruptFails(false)));
  }

  /** To the point where the watcher of a doubtful client can run. */
  lemma RunToWatcher(c: Config, t: State) returns (more: seq<Step>)
    requires Current(t) && Tied(t) && Doubtful(t)
    ensures IsRun(c, t, more) && NothingConfuses(more) && Watching(t, After(c, t, more))
  {
    if LateStart(t.pc) {
      more := RunFromLaunch(c, t);
    } else if t.pc.StopClaimed? {
      more := RunFromStop(c, t);
    } else {
      more := [];
    }
  }

  /** A client that was sent SIGINT may exit at any time. */
  lemma RunToStreamEnd(c: Config, t: State, before: seq<Step>) returns (more: seq<Step>)
    requires IsRun(c, t, before) && NothingConfuses(before)
    requires var u := After(c, t, before);
             |u.procs| > 0 && ClaimsClient(u) && Last(u).interrupted
    ensures IsRun(c, t, more) && NothingConfuses(more)
    ensures var u, v := After(c, t, before), After(c, t, more);
            |v.procs| == |u.procs| && v.rec == u.rec && Last(v) == Last(u).(alive := false, done := true)
  {
    more := before;
    var n := |After(c, t, before).procs| - 1;
    if Last(After(c, t, more)).alive {
      more := Extend(c, t, more, Environment(CleanExit(n)));
    }
    more := Extend(c, t, more, Environment(StreamEnds(n)));
  }

  lemma DoubtfulMayBeMisjudged(c: Config, t: State) returns (more: seq<Step>)
    requires Current(t) && Tied(t) && Doubtful(t)
    ensures IsRun(c, t, more) && NothingConfuses(more) && !NeverMisjudges(c, t, more)
  {
    more := RunToWatcher(c, t);
    if !Last(t).done || !Last(t).alive {
      more := RunToStreamEnd(c, t, more);
    }
    var watcher := Environment(WatcherRuns(|t.procs| - 1));
    MisjudgesAtEnd(c, t, more, watcher);
    more := more + [watcher];
  }

  /**
    At any point of any run a watcher can still misjudge, without another broken stream or
    delivered SIGINT reported as failed, if and only if the node runs its latest client, that
    client's watcher has not yet run, and its stream ended while it lives or it was sent SIGINT.
   */
  lemma MisjudgementIsToComeIff(c: Config, steps: seq<Step>)
    requires IsRun(c, INITIAL, steps)
    ensures var t := After(c, INITIAL, steps);
            (exists more :: IsRun(c, t, more) && NothingConfuses(more) && !NeverMisjudges(c, t, more)) <==> Doubtful(t)
  {
    InitialIsFit();
    TiedAlways(c, INITIAL, steps);
    var t := After(c, INITIAL, steps);
    if Doubtful(t) {
      var more := DoubtfulMayBeMisjudged(c, t);
    } else {
      forall more | IsRun(c, t, more) && NothingConfuses(more)
        ensures NeverMisjudges(c, t, more)
      {
        SureNeverMisjudges(c, t, more);
      }
    }
  }

  /** A confusing step makes the latest client doubtful exactly while the node runs it and its watcher has not yet run. */
  lemma ConfusingIsDoubtfulIff(c: Config, s: State, step: Step)
    requires Fit(s) && Confuses(step) && Enabled(s, step) && !NoneAlive(s)
    ensures Doubtful(Apply(c, s, step)) <==> RunsLatest(s) && !Last(s).watcher.Finished?
  {
    CalmMeansNoneAlive(s);
    if step.Environment? {
      assert PastAt(step.env.proc, s);
    }
  }

  // ---- The flag of a node that believes in its client ----

  /** While the node believes in its client, or stops it, no exit is flagged. */
  predicate Unflagged(s: State) {
    s.rec.state == Syncing || s.rec.state == Running || s.rec.state == Stopping ==> !s.rec.clientExitWasUnexpected
  }

  lemma StartKeepsUnflagged(c: Config, s: State, step: StartStep)
    requires Current(s) && Unflagged(s) && StartEnabled(s, step)
    ensures Unflagged(StartApply(c, s, step))
  {
  }

  lemma StopKeepsUnflagged(s: State, step: StopStep)
    requires Current(s) && Unflagged(s) && StopEnabled(s, step)
    ensures Unflagged(StopApply(s, step))
  {
  }

  lemma OtherKeepsUnflagged(c: Config, s: State, step: Step)
    requires Current(s) && Unflagged(s) && Enabled(s, step) && !step.StartSonicd? && !step.StopSonicd?
    ensures Unflagged(Apply(c, s, step))
  {
  }

  lemma UnflaggedStep(c: Config, s: State, step: Step)
    requires Current(s) && Unflagged(s) && Enabled(s, step)
    ensures Unflagged(Apply(c, s, step))
  {
    match step
    case StartSonicd(t) => StartKeepsUnflagged(c, s, t);
    case StopSonicd(t) => StopKeepsUnflagged(s, t);
    case _ => OtherKeepsUnflagged(c, s, step);
  }
}
