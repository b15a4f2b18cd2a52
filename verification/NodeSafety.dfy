/**
  Safety of the node lifecycle over whole runs: exclusive use of the data
  directory, no launch on a dirty one, truthful recorded states and at most one
  client without doublesign protection.
 */
module NodeSafety {
  import opened Common
  import opened NodeRecord
  import opened NodeLifecycle

  // ---- Runs ----

  ghost predicate IsRun(c: Config, s: State, steps: seq<Step>)
    decreases |steps|
  {
    steps == [] || (Enabled(s, steps[0]) && IsRun(c, Apply(c, s, steps[0]), steps[1..]))
  }

  ghost function After(c: Config, s: State, steps: seq<Step>): State
    requires IsRun(c, s, steps)
    decreases |steps|
  {
    if steps == [] then s else After(c, Apply(c, s, steps[0]), steps[1..])
  }

  /** A run can be cut anywhere. */
  lemma {:induction false} Cut(c: Config, s: State, steps: seq<Step>, k: nat)
    requires IsRun(c, s, steps) && k <= |steps|
    ensures IsRun(c, s, steps[..k])
    ensures IsRun(c, After(c, s, steps[..k]), steps[k..])
    ensures After(c, After(c, s, steps[..k]), steps[k..]) == After(c, s, steps)
    decreases |steps|
  {
    if k == 0 {
      assert steps[..0] == [] && steps[0..] == steps;
    } else {
      Cut(c, Apply(c, s, steps[0]), steps[1..], k - 1);
      assert steps[..k][1..] == steps[1..][..k - 1];
      assert steps[k..] == steps[1..][k - 1..];
    }
  }

  /** A failing exec that nevertheless left a client behind. */
  const PHANTOM_START := StartSonicd(Exec(StartedButReportedFailed))

  // ---- One client per data directory, in every run ----

  predicate Calm(s: State) {
    |s.procs| == 0 || !Last(s).alive
  }

  /** Every client but the latest is gone and superseded. */
  predicate PastAt(i: nat, s: State) {
    i + 1 < |s.procs| ==> !s.procs[i].alive && s.procs[i].gen < s.rec.clientGen
  }

  ghost predicate Past(s: State) {
    forall i :: PastAt(i, s)
  }

  lemma CalmMeansNoneAlive(s: State)
    requires Past(s)
    ensures Calm(s) <==> NoneAlive(s)
  {
    if Calm(s) {
      forall i | 0 <= i < |s.procs|
        ensures !s.procs[i].alive
      {
        assert PastAt(i, s);
      }
    }
  }

  /** In every run a signal reaches the latest client if that is alive, and otherwise nobody. */
  lemma SignalReachesTheLatest(s: State, kill: bool)
    requires Past(s)
    ensures Signalled(s.procs, kill) ==
            if NoneAlive(s) then s.procs
            else s.procs[|s.procs| - 1 := if kill then Last(s).(killed := true) else Last(s).(interrupted := true)]
  {
    CalmMeansNoneAlive(s);
    forall i | 0 <= i < |s.procs| - 1
      ensures Signalled(s.procs, kill)[i] == s.procs[i]
    {
      assert PastAt(i, s);
    }
  }

  /** A start that has claimed its state but launched nothing yet. */
  predicate EarlyStart(pc: Pc) {
    pc.StartClaimed? || pc.StartScanned? || pc.StartWritten?
  }

  predicate LateStart(pc: Pc) {
    pc.StartLaunched? || pc.StartAttached?
  }

  /** The states an action in flight may find the node in. */
  predicate StateFitsPc(s: State) {
    match s.pc
    case Idle => s.rec.state != Initializing && s.rec.state != Healing
    case InitClaimed => s.rec.state == Initializing
    case SyncPolling | SyncAnswered => s.rec.state == Syncing || s.rec.state == Killed
    case StopClaimed | StopSignalled => s.rec.state == Stopping
    case KillClaimed | KillSignalled => s.rec.state == Killed
    case HealClaimed | HealExecuting | HealExecuted => s.rec.state == Healing
    case _ => s.rec.state == Syncing
  }

  /** The latest client, and the action in flight. */
  predicate Current(s: State) {
    && StateFitsPc(s)
    && (s.pc.StartScanned? || s.pc.StartWritten? || s.pc.HealExecuting? || s.pc.HealExecuted? ==> Calm(s))
    && (|s.procs| > 0 ==> Last(s).gen <= s.rec.clientGen)
    && (EarlyStart(s.pc) ==>
          s.pc.gen == s.rec.clientGen && (|s.procs| > 0 ==> Last(s).gen < s.rec.clientGen))
    && (LateStart(s.pc) ==>
          && |s.procs| > 0 && s.pc.gen == s.rec.clientGen == Last(s).gen
          && Last(s).watcher.NoWatcher? && !Last(s).interrupted && !Last(s).killed)
  }

  /** Holds in every run, whatever fails. */
  ghost predicate Fit(s: State) {
    Past(s) && Current(s)
  }

  lemma StartKeepsPast(c: Config, s: State, step: StartStep)
    requires Fit(s) && StartEnabled(s, step)
    ensures Past(StartApply(c, s, step))
  {
    var t := StartApply(c, s, step);
    forall i: nat
      ensures PastAt(i, t)
    {
      assert PastAt(i, s);
    }
  }

  /** The past is about the clients and the generation only. */
  lemma PastIsKept(s: State, t: State)
    requires Past(s) && t.procs == s.procs && t.rec.clientGen == s.rec.clientGen
    ensures Past(t)
  {
    forall i: nat
      ensures PastAt(i, t)
    {
      assert PastAt(i, s);
    }
  }

  lemma EnvKeepsPast(s: State, step: EnvStep)
    requires Past(s) && EnvEnabled(s, step)
    ensures Past(EnvApply(s, step))
  {
    var t := EnvApply(s, step);
    forall i: nat
      ensures PastAt(i, t)
    {
      assert PastAt(i, s);
    }
  }

  lemma StartKeepsCurrent(c: Config, s: State, step: StartStep)
    requires Fit(s) && StartEnabled(s, step)
    ensures Current(StartApply(c, s, step))
  {
    CalmMeansNoneAlive(s);
  }

  lemma StopKeepsPast(s: State, step: StopStep)
    requires Past(s) && StopEnabled(s, step)
    ensures Past(StopApply(s, step))
  {
    var t := StopApply(s, step);
    forall i: nat
      ensures PastAt(i, t)
    {
      assert PastAt(i, s);
    }
  }

  lemma StopKeepsCurrent(s: State, step: StopStep)
    requires Current(s) && StopEnabled(s, step)
    ensures Current(StopApply(s, step))
  {
  }

  lemma ForceStopKeepsPast(s: State, step: ForceStopStep)
    requires Past(s) && ForceStopEnabled(s, step)
    ensures Past(ForceStopApply(s, step))
  {
    var t := ForceStopApply(s, step);
    forall i: nat
      ensures PastAt(i, t)
    {
      assert PastAt(i, s);
    }
  }

  lemma ForceStopKeepsCurrent(s: State, step: ForceStopStep)
    requires Current(s) && ForceStopEnabled(s, step)
    ensures Current(ForceStopApply(s, step))
  {
  }

  lemma HealKeepsCurrent(s: State, step: HealStep)
    requires Fit(s) && HealEnabled(s, step)
    ensures Current(HealApply(s, step))
  {
    CalmMeansNoneAlive(s);
  }

  lemma InitKeepsCurrent(s: State, step: InitStep)
    requires Current(s) && InitEnabled(s, step)
    ensures Current(InitApply(s, step))
  {
  }

  lemma SyncKeepsCurrent(s: State, step: SyncStep)
    requires Current(s) && SyncEnabled(s, step)
    ensures Current(SyncApply(s, step))
  {
  }

  lemma EnvKeepsCurrent(s: State, step: EnvStep)
    requires Fit(s) && EnvEnabled(s, step)
    ensures Current(EnvApply(s, step))
  {
    if !step.LostHealEnds? {
      assert PastAt(step.proc, s);
    }
  }

  lemma FitStep(c: Config, s: State, step: Step)
    requires Fit(s) && Enabled(s, step)
    ensures Fit(Apply(c, s, step))
  {
    match step
    case Initialize(t) => PastIsKept(s, InitApply(s, t)); InitKeepsCurrent(s, t);
    case StartSonicd(t) => StartKeepsPast(c, s, t); StartKeepsCurrent(c, s, t);
    case WaitForSync(t) => PastIsKept(s, SyncApply(s, t)); SyncKeepsCurrent(s, t);
    case StopSonicd(t) => StopKeepsPast(s, t); StopKeepsCurrent(s, t);
    case ForceStopSonicd(t) => ForceStopKeepsPast(s, t); ForceStopKeepsCurrent(s, t);
    case HealSonicd(t) => PastIsKept(s, HealApply(s, t)); HealKeepsCurrent(s, t);
    case Environment(t) => EnvKeepsPast(s, t); EnvKeepsCurrent(s, t);
  }

  lemma {:induction false} FitAlways(c: Config, s: State, steps: seq<Step>)
    requires Fit(s) && IsRun(c, s, steps)
    ensures Fit(After(c, s, steps))
    decreases |steps|
  {
    if steps != [] {
      FitStep(c, s, steps[0]);
      FitAlways(c, Apply(c, s, steps[0]), steps[1..]);
    }
  }

  lemma InitialIsFit()
    ensures Fit(INITIAL)
  {
    forall i: nat
      ensures PastAt(i, INITIAL)
    {
    }
  }

  /**
    Whatever the scans, signals, execs and streams do, two clients never share the data
    directory, and while HealSonicd waits for its heal no client is alive.
   */
  lemma OneClientPerDataDirectory(c: Config, steps: seq<Step>)
    requires IsRun(c, INITIAL, steps)
    ensures var s := After(c, INITIAL, steps);
            && (forall i, j :: 0 <= i < |s.procs| && 0 <= j < |s.procs| && s.procs[i].alive && s.procs[j].alive ==> i == j)
            && (s.pc.HealExecuting? ==> NoneAlive(s))
  {
    InitialIsFit();
    FitAlways(c, INITIAL, steps);
    var s := After(c, INITIAL, steps);
    CalmMeansNoneAlive(s);
    forall i | 0 <= i < |s.procs| && s.procs[i].alive
      ensures i == |s.procs| - 1
    {
      assert PastAt(i, s);
    }
  }

  // ---- The data directory ----

  /** States in which the data directory is handed on as clean. */
  predicate TrustsDirectory(s: State) {
    || s.rec.state == Uninitialized || s.rec.state == Initializing || s.rec.state == Ready
    || EarlyStart(s.pc)
    || (s.rec.state == Stopping && !s.pc.StopClaimed?)
    || s.pc.HealExecuted?
  }

  predicate Directory(s: State) {
    && (s.dirty ==> Calm(s) && !TrustsDirectory(s))
    && (!Calm(s) ==>
          && (Last(s).killed ==> s.rec.state == Killed || s.rec.state == Healing)
          && (TrustsDirectory(s) ==> Last(s).interrupted))
  }

  /** Doublesign protection is only ever off for a first client that brings up a network alone. */
  predicate MayBeUnprotected(c: Config) {
    c.networkBootstrap && IsLoneGenesisValidator(c)
  }

  predicate ProtectedAt(i: nat, c: Config, s: State) {
    i < |s.procs| && s.procs[i].unprotected ==> i == 0 && MayBeUnprotected(c)
  }

  ghost predicate Protection(c: Config, s: State) {
    forall i :: ProtectedAt(i, c, s)
  }

  /** The recorded handle is the latest client's, and the configuration fits it. */
  predicate Handle(c: Config, s: State) {
    && (s.rec.sonicd == None ==> |s.procs| == 0 || (|s.procs| == 1 && s.pc.StartLaunched?))
    && (s.rec.sonicd.Some? ==>
          |s.procs| > 0 && s.rec.sonicd.value == |s.procs| - if s.pc.StartLaunched? then 2 else 1)
    && (s.pc.StartWritten? ==> (s.unprotected <==> s.rec.sonicd == None && MayBeUnprotected(c)))
  }

  ghost predicate Clean(c: Config, s: State) {
    Trusty(c, s) && Protection(c, s)
  }

  ghost predicate Sound(c: Config, s: State) {
    Fit(s) && Clean(c, s)
  }

  /** What Clean says apart from Protection. */
  predicate Trusty(c: Config, s: State) {
    Directory(s) && Handle(c, s)
  }

  lemma InitKeepsTrusty(c: Config, s: State, step: InitStep)
    requires Current(s) && Trusty(c, s) && InitEnabled(s, step)
    ensures Trusty(c, InitApply(s, step))
  {
  }

  lemma StartKeepsDirectory(c: Config, s: State, step: StartStep)
    requires Fit(s) && Directory(s) && StartEnabled(s, step)
    requires step != Exec(StartedButReportedFailed)
    ensures Directory(StartApply(c, s, step))
  {
    CalmMeansNoneAlive(s);
  }

  lemma StartKeepsHandle(c: Config, s: State, step: StartStep)
    requires Current(s) && Handle(c, s) && StartEnabled(s, step)
    requires step != Exec(StartedButReportedFailed)
    ensures Handle(c, StartApply(c, s, step))
  {
  }

  lemma SyncKeepsTrusty(c: Config, s: State, step: SyncStep)
    requires Current(s) && Trusty(c, s) && SyncEnabled(s, step)
    ensures Trusty(c, SyncApply(s, step))
  {
  }

  lemma StopKeepsDirectory(s: State, step: StopStep)
    requires Fit(s) && Directory(s) && StopEnabled(s, step)
    ensures Directory(StopApply(s, step))
  {
    CalmMeansNoneAlive(s);
  }

  lemma StopKeepsHandle(c: Config, s: State, step: StopStep)
    requires Handle(c, s) && StopEnabled(s, step)
    ensures Handle(c, StopApply(s, step))
  {
  }

  lemma ForceStopKeepsDirectory(s: State, step: ForceStopStep)
    requires Current(s) && Directory(s) && ForceStopEnabled(s, step)
    ensures Directory(ForceStopApply(s, step))
  {
  }

  lemma ForceStopKeepsHandle(c: Config, s: State, step: ForceStopStep)
    requires Handle(c, s) && ForceStopEnabled(s, step)
    ensures Handle(c, ForceStopApply(s, step))
  {
  }

  lemma HealKeepsDirectory(s: State, step: HealStep)
    requires Current(s) && Directory(s) && HealEnabled(s, step)
    ensures Directory(HealApply(s, step))
  {
  }

  lemma HealKeepsHandle(c: Config, s: State, step: HealStep)
    requires Handle(c, s) && HealEnabled(s, step)
    ensures Handle(c, HealApply(s, step))
  {
  }

  lemma EnvKeepsTrusty(c: Config, s: State, step: EnvStep)
    requires Fit(s) && Trusty(c, s) && EnvEnabled(s, step)
    ensures Trusty(c, EnvApply(s, step))
  {
    if !step.LostHealEnds? {
      assert PastAt(step.proc, s);
    }
  }

  lemma TrustyStep(c: Config, s: State, step: Step)
    requires Fit(s) && Trusty(c, s) && Enabled(s, step) && step != PHANTOM_START
    ensures Trusty(c, Apply(c, s, step))
  {
    match step
    case Initialize(t) => InitKeepsTrusty(c, s, t);
    case StartSonicd(t) => StartKeepsDirectory(c, s, t); StartKeepsHandle(c, s, t);
    case WaitForSync(t) => SyncKeepsTrusty(c, s, t);
    case StopSonicd(t) => StopKeepsDirectory(s, t); StopKeepsHandle(c, s, t);
    case ForceStopSonicd(t) => ForceStopKeepsDirectory(s, t); ForceStopKeepsHandle(c, s, t);
    case HealSonicd(t) => HealKeepsDirectory(s, t); HealKeepsHandle(c, s, t);
    case Environment(t) => EnvKeepsTrusty(c, s, t);
  }

  /** A client keeps its flag; a launched one gets that of the configuration. */
  predicate FlagKept(i: nat, s: State, t: State) {
    && (i < |s.procs| ==> i < |t.procs| && t.procs[i].unprotected == s.procs[i].unprotected)
    && (|s.procs| <= i < |t.procs| ==> i == |s.procs| && s.pc.StartWritten? && t.procs[i].unprotected == s.unprotected)
  }

  lemma StartKeepsFlag(c: Config, s: State, step: StartStep, i: nat)
    requires StartEnabled(s, step)
    ensures FlagKept(i, s, StartApply(c, s, step))
  {
  }

  lemma StopKeepsFlag(s: State, step: StopStep, i: nat)
    requires StopEnabled(s, step)
    ensures FlagKept(i, s, StopApply(s, step))
  {
  }

  lemma ForceStopKeepsFlag(s: State, step: ForceStopStep, i: nat)
    requires ForceStopEnabled(s, step)
    ensures FlagKept(i, s, ForceStopApply(s, step))
  {
  }

  lemma EnvKeepsFlag(s: State, step: EnvStep, i: nat)
    requires EnvEnabled(s, step)
    ensures FlagKept(i, s, EnvApply(s, step))
  {
  }

  lemma StepKeepsFlag(c: Config, s: State, step: Step, i: nat)
    requires Enabled(s, step)
    ensures FlagKept(i, s, Apply(c, s, step))
  {
    match step
    case StartSonicd(t) => StartKeepsFlag(c, s, t, i);
    case StopSonicd(t) => StopKeepsFlag(s, t, i);
    case ForceStopSonicd(t) => ForceStopKeepsFlag(s, t, i);
    case Environment(t) => EnvKeepsFlag(s, t, i);
    case _ =>
  }

  lemma ProtectionStep(c: Config, s: State, step: Step)
    requires Sound(c, s) && Enabled(s, step) && step != PHANTOM_START
    ensures Protection(c, Apply(c, s, step))
  {
    var t := Apply(c, s, step);
    forall i: nat
      ensures ProtectedAt(i, c, t)
    {
      StepKeepsFlag(c, s, step, i);
      assert ProtectedAt(i, c, s);
    }
  }

  lemma SoundStep(c: Config, s: State, step: Step)
    requires Sound(c, s) && Enabled(s, step) && step != PHANTOM_START
    ensures Sound(c, Apply(c, s, step))
  {
    FitStep(c, s, step);
    TrustyStep(c, s, step);
    ProtectionStep(c, s, step);
  }

  lemma {:induction false} SoundAlways(c: Config, s: State, steps: seq<Step>)
    requires Sound(c, s) && IsRun(c, s, steps) && PHANTOM_START !in steps
    ensures Sound(c, After(c, s, steps))
    decreases |steps|
  {
    if steps != [] {
      SoundStep(c, s, steps[0]);
      SoundAlways(c, Apply(c, s, steps[0]), steps[1..]);
    }
  }

  lemma InitialIsSound(c: Config)
    ensures Sound(c, INITIAL)
  {
    InitialIsFit();
    forall i: nat
      ensures ProtectedAt(i, c, INITIAL)
    {
    }
  }

  // ---- No launch on a dirty directory ----

  const LAUNCH := StartSonicd(Exec(Started))
  const HEALED := HealSonicd(HealEnds(Healed))

  lemma {:induction false} StaysDirty(c: Config, s: State, steps: seq<Step>)
    requires s.dirty && IsRun(c, s, steps) && HEALED !in steps
    ensures After(c, s, steps).dirty
    decreases |steps|
  {
    if steps != [] {
      StaysDirty(c, Apply(c, s, steps[0]), steps[1..]);
    }
  }

  /**
    Between an unclean exit and any later launch a heal has completed, however
    crashes, watchers, failed scans and given-up stops interleave.
   */
  lemma LaunchOnlyAfterHeal(c: Config, steps: seq<Step>, i: nat, j: nat)
    requires IsRun(c, INITIAL, steps) && PHANTOM_START !in steps
    requires i < j < |steps| && steps[j] == LAUNCH
    requires steps[i].Environment? && steps[i].env.UncleanExit?
    ensures exists k :: i < k < j && steps[k] == HEALED
  {
    Cut(c, INITIAL, steps, j);
    var atLaunch := After(c, INITIAL, steps[..j]);
    InitialIsSound(c);
    SoundAlways(c, INITIAL, steps[..j]);
    assert steps[j..][0] == LAUNCH;
    assert !atLaunch.dirty;
    Cut(c, INITIAL, steps[..j], i);
    var atExit := After(c, INITIAL, steps[..j][..i]);
    assert steps[..j][i..][0] == steps[i];
    var between := steps[..j][i..][1..];
    if HEALED !in between {
      StaysDirty(c, Apply(c, atExit, steps[i]), between);
    }
    var k :| 0 <= k < |between| && between[k] == HEALED;
    assert steps[i + 1 + k] == HEALED;
  }

  // ---- Doublesign protection ----

  /**
    Over the whole life of a node at most one client runs without doublesign
    protection: the first one of a lone genesis validator that bootstraps the network.
   */
  lemma AtMostOneUnprotectedClient(c: Config, steps: seq<Step>)
    requires IsRun(c, INITIAL, steps) && PHANTOM_START !in steps
    ensures var procs := After(c, INITIAL, steps).procs;
            forall i :: 0 <= i < |procs| && procs[i].unprotected ==>
              i == 0 && c.networkBootstrap && c.numValidators == 1 && c.validatorId == Some(1)
  {
    InitialIsSound(c);
    SoundAlways(c, INITIAL, steps);
    var s := After(c, INITIAL, steps);
    forall i | 0 <= i < |s.procs| && s.procs[i].unprotected
      ensures i == 0 && MayBeUnprotected(c)
    {
      assert ProtectedAt(i, c, s);
    }
  }

  // ---- What a failing exec that started the client breaks ----

  /** Somewhere in the run a client is launched on a dirty data directory. */
  ghost predicate LaunchesDirty(c: Config, s: State, steps: seq<Step>)
    requires IsRun(c, s, steps)
    decreases |steps|
  {
    steps != [] && ((steps[0] == LAUNCH && s.dirty) || LaunchesDirty(c, Apply(c, s, steps[0]), steps[1..]))
  }

  lemma {:induction false} SoundNeverLaunchesDirty(c: Config, s: State, steps: seq<Step>)
    requires Sound(c, s) && IsRun(c, s, steps) && PHANTOM_START !in steps
    ensures !LaunchesDirty(c, s, steps)
    decreases |steps|
  {
    if steps != [] {
      SoundStep(c, s, steps[0]);
      SoundNeverLaunchesDirty(c, Apply(c, s, steps[0]), steps[1..]);
    }
  }

  lemma {:induction false} DirtyLaunchAtEnd(c: Config, s: State, steps: seq<Step>)
    requires IsRun(c, s, steps) && After(c, s, steps).dirty && Enabled(After(c, s, steps), LAUNCH)
    ensures IsRun(c, s, steps + [LAUNCH]) && LaunchesDirty(c, s, steps + [LAUNCH])
    decreases |steps|
  {
    ExtendFrom(c, s, steps, LAUNCH);
    if steps == [] {
      assert steps + [LAUNCH] == [LAUNCH];
    } else {
      assert (steps + [LAUNCH])[1..] == steps[1..] + [LAUNCH];
      DirtyLaunchAtEnd(c, Apply(c, s, steps[0]), steps[1..]);
    }
  }

  ghost predicate TwoUnprotected(s: State) {
    exists i, j :: 0 <= i < j < |s.procs| && s.procs[i].unprotected && s.procs[j].unprotected
  }

  predicate LaterProtectedAt(i: nat, s: State) {
    0 < i < |s.procs| ==> !s.procs[i].unprotected
  }

  /** No client but the first runs unprotected, and none will. */
  ghost predicate StaysProtected(c: Config, s: State) {
    && (forall i :: LaterProtectedAt(i, s))
    && (s.rec.sonicd.Some? || !MayBeUnprotected(c))
    && (s.pc.StartWritten? ==> !s.unprotected)
  }

  lemma StaysConfigured(c: Config, s: State, step: Step)
    requires s.rec.sonicd.Some? || !MayBeUnprotected(c)
    requires (s.pc.StartWritten? ==> !s.unprotected) && Enabled(s, step)
    ensures var t := Apply(c, s, step);
            (t.rec.sonicd.Some? || !MayBeUnprotected(c)) && (t.pc.StartWritten? ==> !t.unprotected)
  {
  }

  lemma StaysProtectedStep(c: Config, s: State, step: Step)
    requires StaysProtected(c, s) && Enabled(s, step)
    ensures StaysProtected(c, Apply(c, s, step))
  {
    var t := Apply(c, s, step);
    StaysConfigured(c, s, step);
    forall i: nat
      ensures LaterProtectedAt(i, t)
    {
      StepKeepsFlag(c, s, step, i);
      assert LaterProtectedAt(i, s);
    }
  }

  lemma {:induction false} StaysProtectedAlways(c: Config, s: State, steps: seq<Step>)
    requires StaysProtected(c, s) && IsRun(c, s, steps)
    ensures !TwoUnprotected(After(c, s, steps))
    decreases |steps|
  {
    if steps == [] {
      forall j | 0 < j < |s.procs|
        ensures !s.procs[j].unprotected
      {
        assert LaterProtectedAt(j, s);
      }
    } else {
      StaysProtectedStep(c, s, steps[0]);
      StaysProtectedAlways(c, Apply(c, s, steps[0]), steps[1..]);
    }
  }

  lemma {:induction false} ExtendFrom(c: Config, s: State, steps: seq<Step>, step: Step)
    requires IsRun(c, s, steps) && Enabled(After(c, s, steps), step)
    ensures IsRun(c, s, steps + [step])
    ensures After(c, s, steps + [step]) == Apply(c, After(c, s, steps), step)
    decreases |steps|
  {
    if steps == [] {
      assert steps + [step] == [step];
    } else {
      assert (steps + [step])[1..] == steps[1..] + [step];
      ExtendFrom(c, Apply(c, s, steps[0]), steps[1..], step);
    }
  }

  /** A run can be continued by any enabled step. */
  lemma Extend(c: Config, s: State, steps: seq<Step>, step: Step) returns (longer: seq<Step>)
    requires IsRun(c, s, steps) && Enabled(After(c, s, steps), step)
    ensures IsRun(c, s, longer) && longer == steps + [step]
    ensures After(c, s, longer) == Apply(c, After(c, s, steps), step)
  {
    ExtendFrom(c, s, steps, step);
    longer := steps + [step];
  }

  lemma RunToReady(c: Config) returns (steps: seq<Step>)
    ensures IsRun(c, INITIAL, steps) && PHANTOM_START !in steps
    ensures After(c, INITIAL, steps) == INITIAL.(rec := FRESH.(state := Ready))
  {
    steps := [];
    steps := Extend(c, INITIAL, steps, Initialize(BeginInitialize));
    steps := Extend(c, INITIAL, steps, Initialize(InitializeEnds(true)));
  }

  /** The state in which a start attempt of a Ready node gets to the exec. */
  function AtExec(c: Config, s: State): State {
    s.(rec := ClientStartBegun(s.rec), pc := StartWritten(s.rec.clientGen + 1, false),
       unprotected := ConfigIsUnprotected(c, BootstrapsNetwork(c, s.rec)))
  }

  lemma RunToExec(c: Config, s: State, before: seq<Step>) returns (steps: seq<Step>)
    requires IsRun(c, s, before)
    requires var t := After(c, s, before); t.pc.Idle? && t.rec.state == Ready && NoneAlive(t)
    ensures IsRun(c, s, steps)
    ensures forall t :: t in steps ==> t in before || (t.StartSonicd? && t != PHANTOM_START)
    ensures After(c, s, steps) == AtExec(c, After(c, s, before))
  {
    steps := Extend(c, s, before, StartSonicd(BeginStart(false)));
    steps := Extend(c, s, steps, StartSonicd(StartScan(true)));
    steps := Extend(c, s, steps, StartSonicd(WriteConfig(true)));
  }

  /** A client that the roll-back forgot crashes, and the next start launches on what it left. */
  lemma CrashAndRestart(c: Config, s: State) returns (more: seq<Step>)
    requires Past(s) && !Calm(s) && !Last(s).interrupted && s.pc.Idle? && s.rec.state == Ready
    ensures IsRun(c, s, more) && PHANTOM_START !in more && LaunchesDirty(c, s, more)
    ensures |After(c, s, more).procs| == |s.procs| + 1
    ensures After(c, s, more).procs[|s.procs|].unprotected == ConfigIsUnprotected(c, BootstrapsNetwork(c, s.rec))
    ensures After(c, s, more).procs[|s.procs| - 1].unprotected == Last(s).unprotected
  {
    var n := |s.procs| - 1;
    more := Extend(c, s, [], Environment(UncleanExit(n)));
    var crashed := After(c, s, more);
    assert crashed == EnvApply(s, UncleanExit(n));
    forall i | 0 <= i < |crashed.procs|
      ensures !crashed.procs[i].alive
    {
      assert PastAt(i, s);
    }
    more := RunToExec(c, s, more);
    DirtyLaunchAtEnd(c, s, more);
    more := Extend(c, s, more, LAUNCH);
  }

  /**
    When an exec is rolled back or taken, a client can later be launched on a dirty data
    directory, without another such exec, if and only if this one reported a failure
    although it started the client.
   */
  lemma DirtyLaunchIff(c: Config, s: State, outcome: ExecOutcome)
    requires Sound(c, s) && s.pc.StartWritten?
    ensures var t := StartApply(c, s, Exec(outcome));
            (exists more :: IsRun(c, t, more) && PHANTOM_START !in more && LaunchesDirty(c, t, more)) <==>
            outcome == StartedButReportedFailed
  {
    var t := StartApply(c, s, Exec(outcome));
    FitStep(c, s, StartSonicd(Exec(outcome)));
    if outcome == StartedButReportedFailed {
      var more := CrashAndRestart(c, t);
    } else {
      SoundStep(c, s, StartSonicd(Exec(outcome)));
      forall more | IsRun(c, t, more) && PHANTOM_START !in more
        ensures !LaunchesDirty(c, t, more)
      {
        SoundNeverLaunchesDirty(c, t, more);
      }
    }
  }

  /** And a second client can run without doublesign protection if and only if, besides, this was such a first start. */
  lemma SecondUnprotectedIff(c: Config, s: State, outcome: ExecOutcome)
    requires Sound(c, s) && s.pc.StartWritten?
    ensures var t := StartApply(c, s, Exec(outcome));
            (exists more :: IsRun(c, t, more) && PHANTOM_START !in more && TwoUnprotected(After(c, t, more))) <==>
            outcome == StartedButReportedFailed && MayBeUnprotected(c) && s.rec.sonicd == None
  {
    var t := StartApply(c, s, Exec(outcome));
    FitStep(c, s, StartSonicd(Exec(outcome)));
    if outcome == StartedButReportedFailed && MayBeUnprotected(c) && s.rec.sonicd == None {
      var more := CrashAndRestart(c, t);
      var u := After(c, t, more);
      assert u.procs[0].unprotected && u.procs[1].unprotected;
    } else {
      forall more | IsRun(c, t, more) && PHANTOM_START !in more
        ensures !TwoUnprotected(After(c, t, more))
      {
        if outcome == StartedButReportedFailed {
          PhantomStaysProtected(c, s);
          StaysProtectedAlways(c, t, more);
        } else {
          SoundStep(c, s, StartSonicd(Exec(outcome)));
          SoundAlways(c, t, more);
          OneUnprotected(c, After(c, t, more));
        }
      }
    }
  }

  lemma OneUnprotected(c: Config, s: State)
    requires Protection(c, s)
    ensures !TwoUnprotected(s)
  {
    forall j | 0 < j < |s.procs|
      ensures !s.procs[j].unprotected
    {
      assert ProtectedAt(j, c, s);
    }
  }

  lemma PhantomStaysProtected(c: Config, s: State)
    requires Sound(c, s) && s.pc.StartWritten? && !(MayBeUnprotected(c) && s.rec.sonicd == None)
    ensures StaysProtected(c, StartApply(c, s, Exec(StartedButReportedFailed)))
  {
    var t := StartApply(c, s, Exec(StartedButReportedFailed));
    forall i: nat
      ensures LaterProtectedAt(i, t)
    {
      assert ProtectedAt(i, c, s);
    }
  }

  /** Every node can get there: its first start may end in a dirty launch, and a lone bootstrapping one's in a second unprotected client. */
  lemma PhantomStartDefeatsBoth(c: Config) returns (steps: seq<Step>, more: seq<Step>)
    ensures IsRun(c, INITIAL, steps) && steps != [] && steps[|steps| - 1] == PHANTOM_START
    ensures IsRun(c, After(c, INITIAL, steps), more) && PHANTOM_START !in more
    ensures LaunchesDirty(c, After(c, INITIAL, steps), more)
    ensures MayBeUnprotected(c) ==> TwoUnprotected(After(c, After(c, INITIAL, steps), more))
  {
    steps := RunToReady(c);
    steps := RunToExec(c, INITIAL, steps);
    InitialIsFit();
    FitAlways(c, INITIAL, steps);
    var s := After(c, INITIAL, steps);
    FitStep(c, s, PHANTOM_START);
    steps := Extend(c, INITIAL, steps, PHANTOM_START);
    var t := After(c, INITIAL, steps);
    more := CrashAndRestart(c, t);
    assert MayBeUnprotected(c) ==> After(c, t, more).procs[0].unprotected && After(c, t, more).procs[1].unprotected;
  }
}
