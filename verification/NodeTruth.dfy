/**
  How far the recorded state of a node can be believed: which transitions a run
  takes, when Syncing and Running still describe the client, and what the
  unexpected-exit flag means.
 */
module NodeTruth {
  import opened Common
  import opened NodeRecord
  import opened NodeLifecycle
  import opened NodeSafety

  // ---- The documented transition table ----

  /**
    The table of driver/node/node_state.go:25-45: the arrows of each action, the return to
    where the action started if it fails, and the watcher's move to Killed.
   */
  predicate Documented(step: Step, from: NodeState, to: NodeState) {
    || from == to
    || match step
       case Initialize(_) =>
         || (from == Uninitialized && to == Initializing)
         || (from == Initializing && (to == Ready || to == Uninitialized))
       case StartSonicd(_) => (from == Ready && to == Syncing) || (from == Syncing && to == Ready)
       case WaitForSync(_) => from == Syncing && to == Running
       case StopSonicd(_) => (from == Running && to == Stopping) || (from == Stopping && (to == Ready || to == Running))
       case ForceStopSonicd(_) => (from == Running || from == Stopping) && to == Killed
       case HealSonicd(_) =>
         || (from == Killed && to == Healing)
         || (from == Healing && (to == Ready || to == Killed))
       case Environment(_) => (from == Syncing || from == Running) && to == Killed
  }

  /** A graceful stop that finds no client to signal. */
  predicate StopsNobody(s: State, step: Step) {
    step == StopSonicd(InterruptClients) && s.pc.StopClaimed? && NoneAlive(s)
  }

  lemma StartFollowsTheTable(c: Config, s: State, t: StartStep)
    requires Current(s) && StartEnabled(s, t)
    ensures Documented(StartSonicd(t), s.rec.state, StartApply(c, s, t).rec.state)
  {
  }

  lemma StopFollowsTheTable(s: State, t: StopStep)
    requires Current(s) && StopEnabled(s, t)
    ensures Documented(StopSonicd(t), s.rec.state, StopApply(s, t).rec.state) <==> !StopsNobody(s, StopSonicd(t))
  {
  }

  lemma StepFollowsTheTableIff(c: Config, s: State, step: Step)
    requires Fit(s) && Enabled(s, step)
    ensures Documented(step, s.rec.state, Apply(c, s, step).rec.state) <==> !StopsNobody(s, step)
  {
    match step
    case StartSonicd(t) => StartFollowsTheTable(c, s, t);
    case StopSonicd(t) => StopFollowsTheTable(s, t);
    case _ =>
  }

  /**
    A step of any run takes an arrow that is not in the table if and only if it is a graceful stop
    that finds no client; so the unguarded roll-backs of forceSetState only ever overwrite the state their own action claimed.
   */
  lemma RunsFollowTheTableIff(c: Config, steps: seq<Step>, i: nat)
    requires IsRun(c, INITIAL, steps) && i < |steps|
    ensures IsRun(c, INITIAL, steps[..i]) && IsRun(c, INITIAL, steps[..i + 1])
    ensures var s, t := After(c, INITIAL, steps[..i]), After(c, INITIAL, steps[..i + 1]);
            Documented(steps[i], s.rec.state, t.rec.state) <==> !StopsNobody(s, steps[i])
  {
    Cut(c, INITIAL, steps, i);
    InitialIsFit();
    FitAlways(c, INITIAL, steps[..i]);
    var s := After(c, INITIAL, steps[..i]);
    assert steps[i..][0] == steps[i];
    ExtendFrom(c, INITIAL, steps[..i], steps[i]);
    assert steps[..i] + [steps[i]] == steps[..i + 1];
    StepFollowsTheTableIff(c, s, steps[i]);
  }

  // ---- Syncing and Running describe a client ----

  predicate ClaimsClient(s: State) {
    s.rec.state == Syncing || s.rec.state == Running
  }

  predicate StartUnderWay(pc: Pc) {
    EarlyStart(pc) || LateStart(pc)
  }

  /** Syncing and Running are backed by the current client or by its pending watcher. */
  predicate Backed(s: State) {
    ClaimsClient(s) && !StartUnderWay(s.pc) ==>
      && s.rec.sonicd.Some? && s.rec.sonicd.value < |s.procs|
      && var p := s.procs[s.rec.sonicd.value];
         p.gen == s.rec.clientGen && (p.alive || p.watcher.Waiting?)
  }

  /** The latest client is the current one, and its handle is recorded. */
  predicate Attached(s: State) {
    |s.procs| > 0 && Last(s).gen == s.rec.clientGen && s.rec.sonicd == Some(|s.procs| - 1)
  }

  /** The inductive form: the watcher of the latest client is pending. */
  predicate Watched(s: State) {
    && (s.pc.StartAttached? ==> Attached(s))
    && (s.pc.StopClaimed? ==> Attached(s) && !Last(s).watcher.NoWatcher?)
    && (ClaimsClient(s) && !StartUnderWay(s.pc) ==> Attached(s) && Last(s).watcher.Waiting?)
  }

  predicate FailedInterrupt(step: Step) {
    step.StopSonicd? && step.stop.InterruptFails?
  }

  /** A failed SIGINT is rolled back to Running although the client's watcher has run already. */
  predicate Blind(s: State, step: Step) {
    FailedInterrupt(step) && s.pc.StopClaimed? && |s.procs| > 0 && Last(s).watcher.Finished?
  }

  ghost predicate NeverBlind(c: Config, s: State, steps: seq<Step>)
    requires IsRun(c, s, steps)
    decreases |steps|
  {
    steps == [] || (!Blind(s, steps[0]) && NeverBlind(c, Apply(c, s, steps[0]), steps[1..]))
  }

  lemma StartKeepsWatched(c: Config, s: State, step: StartStep)
    requires Current(s) && Watched(s) && StartEnabled(s, step)
    ensures Watched(StartApply(c, s, step))
  {
  }

  lemma StopKeepsWatched(s: State, step: StopStep)
    requires Current(s) && Watched(s) && StopEnabled(s, step) && !Blind(s, StopSonicd(step))
    ensures Watched(StopApply(s, step))
  {
  }

  lemma EnvKeepsWatched(s: State, step: EnvStep)
    requires Fit(s) && Watched(s) && EnvEnabled(s, step)
    ensures Watched(EnvApply(s, step))
  {
    if !step.LostHealEnds? {
      assert PastAt(step.proc, s);
    }
  }

  lemma SyncKeepsWatched(s: State, step: SyncStep)
    requires Current(s) && Watched(s) && SyncEnabled(s, step)
    ensures Watched(SyncApply(s, step))
  {
  }

  lemma ForceStopKeepsWatched(s: State, step: ForceStopStep)
    requires Current(s) && Watched(s) && ForceStopEnabled(s, step)
    ensures Watched(ForceStopApply(s, step))
  {
  }

  lemma HealKeepsWatched(s: State, step: HealStep)
    requires Current(s) && Watched(s) && HealEnabled(s, step)
    ensures Watched(HealApply(s, step))
  {
  }

  lemma WatchedStep(c: Config, s: State, step: Step)
    requires Fit(s) && Watched(s) && Enabled(s, step) && !Blind(s, step)
    ensures Watched(Apply(c, s, step))
  {
    match step
    case Initialize(t) =>
    case StartSonicd(t) => StartKeepsWatched(c, s, t);
    case WaitForSync(t) => SyncKeepsWatched(s, t);
    case StopSonicd(t) => StopKeepsWatched(s, t);
    case ForceStopSonicd(t) => ForceStopKeepsWatched(s, t);
    case HealSonicd(t) => HealKeepsWatched(s, t);
    case Environment(t) => EnvKeepsWatched(s, t);
  }

  lemma {:induction false} WatchedAlways(c: Config, s: State, steps: seq<Step>)
    requires Fit(s) && Watched(s) && IsRun(c, s, steps) && NeverBlind(c, s, steps)
    ensures Fit(After(c, s, steps)) && Watched(After(c, s, steps))
    decreases |steps|
  {
    if steps != [] {
      WatchedStep(c, s, steps[0]);
      FitStep(c, s, steps[0]);
      WatchedAlways(c, Apply(c, s, steps[0]), steps[1..]);
    }
  }

  lemma WatchedMeansBacked(s: State)
    requires Watched(s)
    ensures Backed(s)
  {
  }

  /**
    In every run in which no SIGINT fails after the client's watcher has run, a node outside a
    start in flight is Syncing or Running only if its current client is alive or will still
    be reported dead.
   */
  lemma RecordedStateIsBacked(c: Config, steps: seq<Step>)
    requires IsRun(c, INITIAL, steps) && NeverBlind(c, INITIAL, steps)
    ensures Backed(After(c, INITIAL, steps))
  {
    InitialIsFit();
    WatchedAlways(c, INITIAL, steps);
    WatchedMeansBacked(After(c, INITIAL, steps));
  }

  /** How a client may go away: cleanly only if it was asked to. */
  function ExitOf(s: State): EnvStep
    requires |s.procs| > 0
  {
    if Last(s).interrupted then CleanExit(|s.procs| - 1) else UncleanExit(|s.procs| - 1)
  }

  /** After a blind roll-back the client is gone unreported, or may go so at once. */
  lemma BlindRollBackIsUnbacked(c: Config, s: State, delivered: bool) returns (more: seq<Step>)
    requires Fit(s) && Watched(s) && Blind(s, StopSonicd(InterruptFails(delivered)))
    ensures var t := StopApply(s, InterruptFails(delivered));
            IsRun(c, t, more) && NeverBlind(c, t, more) && !Backed(After(c, t, more))
  {
    var t := StopApply(s, InterruptFails(delivered));
    more := [];
    if Last(t).alive {
      more := Extend(c, t, more, Environment(ExitOf(t)));
      assert more == [Environment(ExitOf(t))];
      assert After(c, t, more) == EnvApply(t, ExitOf(t));
    }
  }

  /**
    Whenever a run comes to a failed SIGINT, every continuation without another such roll-back
    keeps the recorded state backed if and only if the client's watcher has not yet run.
   */
  lemma FailedInterruptIsBackedIff(c: Config, steps: seq<Step>, delivered: bool)
    requires IsRun(c, INITIAL, steps) && NeverBlind(c, INITIAL, steps) && After(c, INITIAL, steps).pc.StopClaimed?
    ensures var s := After(c, INITIAL, steps);
            var t := StopApply(s, InterruptFails(delivered));
            && |s.procs| > 0
            && ((forall more :: IsRun(c, t, more) && NeverBlind(c, t, more) ==> Backed(After(c, t, more))) <==>
                !Last(s).watcher.Finished?)
  {
    InitialIsFit();
    WatchedAlways(c, INITIAL, steps);
    var s := After(c, INITIAL, steps);
    var t := StopApply(s, InterruptFails(delivered));
    if Last(s).watcher.Finished? {
      var more := BlindRollBackIsUnbacked(c, s, delivered);
    } else {
      WatchedStep(c, s, StopSonicd(InterruptFails(delivered)));
      FitStep(c, s, StopSonicd(InterruptFails(delivered)));
      forall more | IsRun(c, t, more) && NeverBlind(c, t, more)
        ensures Backed(After(c, t, more))
      {
        WatchedAlways(c, t, more);
        WatchedMeansBacked(After(c, t, more));
      }
    }
  }

  /** The client of a first start, watched. */
  function FirstClient(c: Config): Proc {
    Proc(1, ConfigIsUnprotected(c, BootstrapsNetwork(c, FRESH)), false, true, false, false, false, Waiting)
  }

  lemma RunToSyncing(c: Config) returns (steps: seq<Step>)
    ensures IsRun(c, INITIAL, steps)
    ensures var s := After(c, INITIAL, steps);
            s.pc == Idle && s.rec == Record(Syncing, 1, Some(0), false) && s.procs == [FirstClient(c)] && !s.dirty
  {
    steps := RunToReady(c);
    steps := RunToExec(c, INITIAL, steps);
    steps := Extend(c, INITIAL, steps, LAUNCH);
    steps := Extend(c, INITIAL, steps, StartSonicd(Attach));
    steps := Extend(c, INITIAL, steps, StartSonicd(SpawnWatcher));
  }

  lemma RunToRunning(c: Config) returns (steps: seq<Step>)
    ensures IsRun(c, INITIAL, steps)
    ensures var s := After(c, INITIAL, steps);
            s.pc == Idle && s.rec == Record(Running, 1, Some(0), false) && s.procs == [FirstClient(c)] && !s.dirty
  {
    steps := RunToSyncing(c);
    assert After(c, INITIAL, steps).procs[0].alive;
    steps := Extend(c, INITIAL, steps, WaitForSync(BeginWaitForSync));
    steps := Extend(c, INITIAL, steps, WaitForSync(RpcAnswers));
    steps := Extend(c, INITIAL, steps, WaitForSync(SyncCompletes));
  }

  lemma RunToStopping(c: Config) returns (steps: seq<Step>)
    ensures IsRun(c, INITIAL, steps)
    ensures var s := After(c, INITIAL, steps);
            s.pc == StopClaimed && s.rec == Record(Stopping, 1, Some(0), false) && s.procs == [FirstClient(c)] && !s.dirty
  {
    steps := RunToRunning(c);
    steps := Extend(c, INITIAL, steps, StopSonicd(BeginStop));
  }

  /** While a stop is under way, the client of a first start crashes and its watcher, finding the node Stopping, says nothing. */
  lemma RunToSilentCrash(c: Config) returns (steps: seq<Step>)
    ensures IsRun(c, INITIAL, steps)
    ensures var s := After(c, INITIAL, steps);
            && s.pc == StopClaimed && s.rec == Record(Stopping, 1, Some(0), false) && |s.procs| == 1
            && !s.procs[0].alive && s.procs[0].watcher.Finished?
  {
    steps := RunToStopping(c);
    steps := Extend(c, INITIAL, steps, Environment(UncleanExit(0)));
    steps := Extend(c, INITIAL, steps, Environment(StreamEnds(0)));
    steps := Extend(c, INITIAL, steps, Environment(WatcherRuns(0)));
  }

  /** A SIGINT scan that then fails leaves the node Running with a dead client and nobody left to report it. */
  lemma FailedInterruptCanHideACrash(c: Config) returns (steps: seq<Step>)
    ensures IsRun(c, INITIAL, steps) && After(c, INITIAL, steps).rec.state == Running
    ensures !Backed(After(c, INITIAL, steps))
  {
    steps := RunToSilentCrash(c);
    steps := Extend(c, INITIAL, steps, StopSonicd(InterruptFails(false)));
  }

  // ---- The recorded client ----

  /** The node believes in a client, or is stopping or killing one. */
  predicate HoldsClient(s: State) {
    || s.pc.StartAttached? || (ClaimsClient(s) && !StartUnderWay(s.pc))
    || s.rec.state == Stopping || s.pc.KillClaimed? || s.pc.KillSignalled?
  }

  /** In every run that client is the latest, its handle is recorded, and it has a watcher once its start is over. */
  predicate Tied(s: State) {
    HoldsClient(s) ==> Attached(s) && (s.pc.StartAttached? || !Last(s).watcher.NoWatcher?)
  }

  lemma StartKeepsTied(c: Config, s: State, step: StartStep)
    requires Current(s) && Tied(s) && StartEnabled(s, step)
    ensures Tied(StartApply(c, s, step))
  {
  }

  lemma StopKeepsTied(s: State, step: StopStep)
    requires Current(s) && Tied(s) && StopEnabled(s, step)
    ensures Tied(StopApply(s, step))
  {
  }

  lemma ForceStopKeepsTied(s: State, step: ForceStopStep)
    requires Current(s) && Tied(s) && ForceStopEnabled(s, step)
    ensures Tied(ForceStopApply(s, step))
  {
  }

  lemma EnvKeepsTied(s: State, step: EnvStep)
    requires Current(s) && Tied(s) && EnvEnabled(s, step)
    ensures Tied(EnvApply(s, step))
  {
  }

  lemma InitKeepsTied(s: State, step: InitStep)
    requires Current(s) && Tied(s) && InitEnabled(s, step)
    ensures Tied(InitApply(s, step))
  {
  }

  lemma SyncKeepsTied(s: State, step: SyncStep)
    requires Current(s) && Tied(s) && SyncEnabled(s, step)
    ensures Tied(SyncApply(s, step))
  {
  }

  lemma HealKeepsTied(s: State, step: HealStep)
    requires Current(s) && Tied(s) && HealEnabled(s, step)
    ensures Tied(HealApply(s, step))
  {
  }

  lemma TiedStep(c: Config, s: State, step: Step)
    requires Current(s) && Tied(s) && Enabled(s, step)
    ensures Tied(Apply(c, s, step))
  {
    match step
    case Initialize(t) => InitKeepsTied(s, t);
    case StartSonicd(t) => StartKeepsTied(c, s, t);
    case WaitForSync(t) => SyncKeepsTied(s, t);
    case StopSonicd(t) => StopKeepsTied(s, t);
    case ForceStopSonicd(t) => ForceStopKeepsTied(s, t);
    case HealSonicd(t) => HealKeepsTied(s, t);
    case Environment(t) => EnvKeepsTied(s, t);
  }

  lemma {:induction false} TiedAlways(c: Config, s: State, steps: seq<Step>)
    requires Fit(s) && Tied(s) && IsRun(c, s, steps)
    ensures Fit(After(c, s, steps)) && Tied(After(c, s, steps))
    decreases |steps|
  {
    if steps != [] {
      TiedStep(c, s, steps[0]);
      FitStep(c, s, steps[0]);
      TiedAlways(c, Apply(c, s, steps[0]), steps[1..]);
    }
  }

  // ---- The end of a stream ----

  /** The stream of a client has not ended while it lived. */
  predicate IntactAt(i: nat, s: State) {
    i < |s.procs| && s.procs[i].done ==> !s.procs[i].alive
  }

  lemma StartKeepsIntact(c: Config, s: State, step: StartStep, i: nat)
    requires IntactAt(i, s) && StartEnabled(s, step)
    ensures IntactAt(i, StartApply(c, s, step))
  {
  }

  lemma StopKeepsIntact(s: State, step: StopStep, i: nat)
    requires IntactAt(i, s) && StopEnabled(s, step)
    ensures IntactAt(i, StopApply(s, step))
  {
  }

  lemma ForceStopKeepsIntact(s: State, step: ForceStopStep, i: nat)
    requires IntactAt(i, s) && ForceStopEnabled(s, step)
    ensures IntactAt(i, ForceStopApply(s, step))
  {
  }

  lemma EnvKeepsIntact(s: State, step: EnvStep, i: nat)
    requires IntactAt(i, s) && EnvEnabled(s, step) && step != StreamBreaks(i)
    ensures IntactAt(i, EnvApply(s, step))
  {
  }

  lemma IntactStep(c: Config, s: State, step: Step, i: nat)
    requires IntactAt(i, s) && Enabled(s, step) && step != Environment(StreamBreaks(i))
    ensures IntactAt(i, Apply(c, s, step))
  {
    match step
    case StartSonicd(t) => StartKeepsIntact(c, s, t, i);
    case StopSonicd(t) => StopKeepsIntact(s, t, i);
    case ForceStopSonicd(t) => ForceStopKeepsIntact(s, t, i);
    case Environment(t) => EnvKeepsIntact(s, t, i);
    case _ =>
  }

  /** Nothing but the environment acts, and no stream breaks. */
  ghost predicate Undisturbed(steps: seq<Step>) {
    forall t :: t in steps ==> t.Environment? && !t.env.StreamBreaks?
  }

  /** The node waits for its client, whose stream has not ended before it. */
  ghost predicate AwaitsExit(s: State) {
    && Fit(s) && Tied(s) && (s.pc.StopSignalled? || s.pc.KillSignalled?)
    && |s.procs| > 0 && IntactAt(|s.procs| - 1, s)
  }

  lemma AwaitingStep(c: Config, s: State, t: EnvStep)
    requires AwaitsExit(s) && EnvEnabled(s, t) && !t.StreamBreaks?
    ensures AwaitsExit(EnvApply(s, t))
  {
    EnvKeepsIntact(s, t, |s.procs| - 1);
    FitStep(c, s, Environment(t));
    EnvKeepsTied(s, t);
  }

  lemma {:induction false} AwaitingAlways(c: Config, s: State, steps: seq<Step>)
    requires AwaitsExit(s) && IsRun(c, s, steps) && Undisturbed(steps)
    ensures AwaitsExit(After(c, s, steps))
    decreases |steps|
  {
    if steps != [] {
      assert steps[0] in steps && forall t :: t in steps[1..] ==> t in steps;
      AwaitingStep(c, s, steps[0].env);
      AwaitingAlways(c, Apply(c, s, steps[0]), steps[1..]);
    }
  }

  lemma SeenExitIsReal(s: State)
    requires AwaitsExit(s) && ExitSeen(s)
    ensures NoneAlive(s)
  {
    CalmMeansNoneAlive(s);
  }

  /**
    Whenever a run waits for the client to exit, after SIGINT or SIGKILL, the end it may see while
    no stream breaks is the client's exit if and only if the stream has not yet ended before the client.
   */
  lemma StopSuccessIsRealIff(c: Config, steps: seq<Step>)
    requires IsRun(c, INITIAL, steps)
    requires After(c, INITIAL, steps).pc.StopSignalled? || After(c, INITIAL, steps).pc.KillSignalled?
    ensures var s := After(c, INITIAL, steps);
            && |s.procs| > 0
            && ((forall more :: IsRun(c, s, more) && Undisturbed(more) && ExitSeen(After(c, s, more)) ==> NoneAlive(After(c, s, more)))
                <==> !(Last(s).done && Last(s).alive))
  {
    InitialIsFit();
    TiedAlways(c, INITIAL, steps);
    var s := After(c, INITIAL, steps);
    if Last(s).done && Last(s).alive {
      var none: seq<Step> := [];
      assert IsRun(c, s, none) && Undisturbed(none) && After(c, s, none) == s;
    } else {
      forall more | IsRun(c, s, more) && Undisturbed(more) && ExitSeen(After(c, s, more))
        ensures NoneAlive(After(c, s, more))
      {
        AwaitingAlways(c, s, more);
        SeenExitIsReal(After(c, s, more));
      }
    }
  }

  /** A stream that breaks during a stop makes it report success beside a live client. */
  lemma BrokenStreamEndsAStopEarly(c: Config) returns (steps: seq<Step>)
    ensures IsRun(c, INITIAL, steps) && steps != [] && steps[|steps| - 1] == StopSonicd(StopSeesExit)
    ensures var s := After(c, INITIAL, steps);
            s.rec == Record(Ready, 1, Some(0), false) && |s.procs| == 1 && s.procs[0].alive
  {
    steps := RunToStopping(c);
    assert After(c, INITIAL, steps).procs[0].alive;
    steps := Extend(c, INITIAL, steps, StopSonicd(InterruptClients));
    steps := Extend(c, INITIAL, steps, Environment(StreamBreaks(0)));
    steps := Extend(c, INITIAL, steps, StopSonicd(StopSeesExit));
  }
}
