/**
  The node lifecycle as a transition system. The actions of
  driver/node/node_actions.go are cut at the points where the lock is released
  or the container is consulted; between any two of those points clients may
  exit, output streams may end and exit watchers may run. At most one action is
  in flight, because the executor runs scenario steps one by one
  (driver/executor/run.go:144-195).
 */
module NodeLifecycle {
  import opened Common
  import opened NodeRecord

  /** The part of the node configuration that decides about doublesign protection. */
  datatype Config = Config(numValidators: int, validatorId: Option<int>, networkBootstrap: bool)

  predicate IsLoneGenesisValidator(c: Config) {
    c.numValidators == 1 && c.validatorId == Some(1)
  }

  predicate BootstrapsNetwork(c: Config, r: Record) {
    c.networkBootstrap && r.sonicd == None
  }

  /** Whether the written client configuration sets DoublesignProtection to 0. */
  predicate ConfigIsUnprotected(c: Config, bootstrap: bool) {
    bootstrap && IsLoneGenesisValidator(c)
  }

  datatype Watcher = NoWatcher | Waiting | Finished

  /** A client process: which start launched it, what it was sent, what became of it. */
  datatype Proc = Proc(
    gen: nat,
    unprotected: bool, // launched with doublesign protection disabled
    observer: bool,
    alive: bool,
    interrupted: bool, // SIGINT was delivered
    killed: bool,      // SIGKILL was delivered
    done: bool,        // the output stream has ended: handle.Done is closed
    watcher: Watcher)

  /** Where the action in flight stands. */
  datatype Pc =
    | Idle
    | InitClaimed
    | StartClaimed(gen: nat, observer: bool)
    | StartScanned(gen: nat, observer: bool)
    | StartWritten(gen: nat, observer: bool)
    | StartLaunched(gen: nat)
    | StartAttached(gen: nat)
    | SyncPolling
    | SyncAnswered
    | StopClaimed
    | StopSignalled
    | KillClaimed
    | KillSignalled
    | HealClaimed
    | HealExecuting
    | HealExecuted

  datatype State = State(
    rec: Record,
    pc: Pc,
    procs: seq<Proc>,  // every client ever launched, in launch order
    unprotected: bool, // the configuration file in the container disables the protection
    dirty: bool,       // a client went away uncleanly and no heal has completed since
    lostHeals: nat)    // heals that were reported as failed and run on

  const INITIAL := State(FRESH, Idle, [], false, false, 0)

  datatype ExecOutcome = Started | NotStarted | StartedButReportedFailed

  datatype InitStep = BeginInitialize | InitializeEnds(ok: bool)

  datatype StartStep =
    | BeginStart(observer: bool)
    | StartScan(ok: bool)
    | WriteConfig(ok: bool)
    | Exec(outcome: ExecOutcome)
    | Attach
    | SpawnWatcher

  datatype SyncStep = BeginWaitForSync | RpcAnswers | SyncGivesUp | SyncCompletes

  datatype StopStep =
    | BeginStop
    | InterruptClients
    | InterruptFails(delivered: bool)
    | StopSeesExit
    | StopGivesUp

  datatype ForceStopStep =
    | BeginForceStop
    | KillClients
    | KillFails(delivered: bool)
    | ForceStopEnds

  /** HealLost: the exec lost the output of a heal, reported a failure, and the heal runs on. */
  datatype HealOutcome = Healed | HealFailed | HealLost

  datatype HealStep = BeginHeal | HealScan(ok: bool) | HealEnds(outcome: HealOutcome) | HealCommits

  datatype EnvStep =
    | UncleanExit(proc: nat)
    | CleanExit(proc: nat)
    | StreamEnds(proc: nat)
    | StreamBreaks(proc: nat)
    | WatcherRuns(proc: nat)
    | LostHealEnds

  datatype Step =
    | Initialize(init: InitStep)
    | StartSonicd(start: StartStep)
    | WaitForSync(sync: SyncStep)
    | StopSonicd(stop: StopStep)
    | ForceStopSonicd(force: ForceStopStep)
    | HealSonicd(heal: HealStep)
    | Environment(env: EnvStep)

  predicate NoneAlive(s: State) {
    forall i :: 0 <= i < |s.procs| ==> !s.procs[i].alive
  }

  function Last(s: State): Proc
    requires |s.procs| > 0
  {
    s.procs[|s.procs| - 1]
  }

  /** The handle wait is over: no client was ever attached, or its stream ended. */
  predicate ExitSeen(s: State) {
    s.rec.sonicd.Some? ==> s.rec.sonicd.value < |s.procs| && s.procs[s.rec.sonicd.value].done
  }

  /** Every live client receives the signal. */
  function Signalled(procs: seq<Proc>, kill: bool): seq<Proc> {
    seq(|procs|, i requires 0 <= i < |procs| =>
      if !procs[i].alive then procs[i]
      else if kill then procs[i].(killed := true)
      else procs[i].(interrupted := true))
  }

  /** Claims a state for an action, which ends at once when the state does not allow it. */
  function Claim(s: State, from: NodeState, to: NodeState, pc: Pc): State {
    if s.rec.state == from then s.(rec := Transitioned(s.rec, from, to), pc := pc) else s
  }

  /** Ends the action in flight with a guarded transition. */
  function Finish(s: State, from: NodeState, to: NodeState): State {
    s.(rec := Transitioned(s.rec, from, to), pc := Idle)
  }

  /** Ends the action in flight by rolling the state back. */
  function RollBack(s: State, to: NodeState): State {
    s.(rec := Forced(s.rec, to), pc := Idle)
  }

  function Launch(s: State, gen: nat, observer: bool): State {
    s.(procs := s.procs + [Proc(gen, s.unprotected, observer, true, false, false, false, NoWatcher)])
  }

  // ---- Initialize ----

  predicate InitEnabled(s: State, step: InitStep) {
    match step
    case BeginInitialize => s.pc.Idle?
    case InitializeEnds(_) => s.pc.InitClaimed?
  }

  function InitApply(s: State, step: InitStep): State
    requires InitEnabled(s, step)
  {
    match step
    case BeginInitialize => Claim(s, Uninitialized, Initializing, InitClaimed)
    case InitializeEnds(ok) =>
      if ok then Finish(s, Initializing, Ready) else RollBack(s, Uninitialized)
  }

  // ---- StartSonicd, StartSonicdAsObserver ----

  predicate StartEnabled(s: State, step: StartStep) {
    match step
    case BeginStart(_) => s.pc.Idle?
    case StartScan(_) => s.pc.StartClaimed?
    case WriteConfig(_) => s.pc.StartScanned?
    case Exec(_) => s.pc.StartWritten?
    case Attach => s.pc.StartLaunched? && |s.procs| > 0
    case SpawnWatcher => s.pc.StartAttached? && |s.procs| > 0
  }

  function StartApply(c: Config, s: State, step: StartStep): State
    requires StartEnabled(s, step)
  {
    match step
    case BeginStart(observer) =>
      if s.rec.state == Ready
      then s.(rec := ClientStartBegun(s.rec), pc := StartClaimed(s.rec.clientGen + 1, observer))
      else s
    case StartScan(ok) =>
      if ok && NoneAlive(s) then s.(pc := StartScanned(s.pc.gen, s.pc.observer)) else RollBack(s, Ready)
    case WriteConfig(ok) =>
      if ok
      then s.(pc := StartWritten(s.pc.gen, s.pc.observer),
              unprotected := ConfigIsUnprotected(c, BootstrapsNetwork(c, s.rec)))
      else RollBack(s, Ready)
    case Exec(Started) =>
      Launch(s, s.pc.gen, s.pc.observer).(pc := StartLaunched(s.pc.gen))
    case Exec(NotStarted) => RollBack(s, Ready)
    case Exec(StartedButReportedFailed) =>
      RollBack(Launch(s, s.pc.gen, s.pc.observer), Ready)
    case Attach =>
      s.(rec := ClientAttached(s.rec, s.pc.gen, |s.procs| - 1), pc := StartAttached(s.pc.gen))
    case SpawnWatcher =>
      s.(procs := s.procs[|s.procs| - 1 := Last(s).(watcher := Waiting)], pc := Idle)
  }

  // ---- WaitForSync ----

  predicate SyncEnabled(s: State, step: SyncStep) {
    match step
    case BeginWaitForSync => s.pc.Idle?
    case RpcAnswers => s.pc.SyncPolling? && !NoneAlive(s)
    case SyncGivesUp => s.pc.SyncPolling?
    case SyncCompletes => s.pc.SyncAnswered?
  }

  function SyncApply(s: State, step: SyncStep): State
    requires SyncEnabled(s, step)
  {
    match step
    case BeginWaitForSync =>
      if s.rec.state == Syncing then s.(pc := SyncPolling) else s
    case RpcAnswers => s.(pc := SyncAnswered)
    case SyncGivesUp => s.(pc := Idle)
    case SyncCompletes => Finish(s, Syncing, Running)
  }

  // ---- StopSonicd ----

  predicate StopEnabled(s: State, step: StopStep) {
    match step
    case BeginStop => s.pc.Idle?
    case InterruptClients | InterruptFails(_) => s.pc.StopClaimed?
    case StopSeesExit => s.pc.StopSignalled? && ExitSeen(s)
    case StopGivesUp => s.pc.StopSignalled?
  }

  function StopApply(s: State, step: StopStep): State
    requires StopEnabled(s, step)
  {
    match step
    case BeginStop => Claim(s, Running, Stopping, StopClaimed)
    case InterruptClients =>
      if NoneAlive(s) then RollBack(s, Killed)
      else s.(procs := Signalled(s.procs, false), pc := StopSignalled)
    case InterruptFails(delivered) =>
      RollBack(if delivered then s.(procs := Signalled(s.procs, false)) else s, Running)
    case StopSeesExit => Finish(s, Stopping, Ready)
    case StopGivesUp => s.(pc := Idle)
  }

  // ---- ForceStopSonicd ----

  predicate ForceStopEnabled(s: State, step: ForceStopStep) {
    match step
    case BeginForceStop => s.pc.Idle?
    case KillClients | KillFails(_) => s.pc.KillClaimed?
    case ForceStopEnds => s.pc.KillSignalled?
  }

  function ForceStopApply(s: State, step: ForceStopStep): State
    requires ForceStopEnabled(s, step)
  {
    match step
    case BeginForceStop =>
      if s.rec.state == Running || s.rec.state == Stopping
      then s.(rec := TransitionedFromAny(s.rec, Killed, [Running, Stopping]), pc := KillClaimed)
      else s
    case KillClients => s.(procs := Signalled(s.procs, true), pc := KillSignalled)
    case KillFails(delivered) =>
      (if delivered then s.(procs := Signalled(s.procs, true)) else s).(pc := Idle)
    case ForceStopEnds => s.(pc := Idle)
  }

  // ---- HealSonicd ----

  predicate HealEnabled(s: State, step: HealStep) {
    match step
    case BeginHeal => s.pc.Idle?
    case HealScan(_) => s.pc.HealClaimed?
    case HealEnds(_) => s.pc.HealExecuting?
    case HealCommits => s.pc.HealExecuted?
  }

  function HealApply(s: State, step: HealStep): State
    requires HealEnabled(s, step)
  {
    match step
    case BeginHeal => Claim(s, Killed, Healing, HealClaimed)
    case HealScan(ok) =>
      if ok && NoneAlive(s) then s.(pc := HealExecuting) else RollBack(s, Killed)
    case HealEnds(Healed) => s.(dirty := false, pc := HealExecuted)
    case HealEnds(HealFailed) => RollBack(s, Killed)
    case HealEnds(HealLost) => RollBack(s, Killed).(lostHeals := s.lostHeals + 1)
    case HealCommits => Finish(s, Healing, Ready)
  }

  // ---- Environment ----

  /**
    A client that received SIGINT exits cleanly unless it is also killed; any
    other exit leaves the data directory dirty. An output stream ends after its
    client exited but may also break while the client lives on. A watcher runs
    once the stream of its client has ended.  What a lost heal does to the directory is not
    relied upon: it only runs, and ends at some time.
   */
  predicate EnvEnabled(s: State, step: EnvStep) {
    match step
    case LostHealEnds => s.lostHeals > 0
    case _ =>
      && step.proc < |s.procs|
      && var p := s.procs[step.proc];
         match step
         case UncleanExit(_) => p.alive && (p.interrupted ==> p.killed)
         case CleanExit(_) => p.alive && p.interrupted
         case StreamEnds(_) => !p.alive
         case StreamBreaks(_) => p.alive
         case WatcherRuns(_) => p.done && p.watcher.Waiting?
  }

  function EnvApply(s: State, step: EnvStep): State
    requires EnvEnabled(s, step)
  {
    match step
    case UncleanExit(i) => s.(procs := s.procs[i := s.procs[i].(alive := false)], dirty := true)
    case CleanExit(i) => s.(procs := s.procs[i := s.procs[i].(alive := false)])
    case StreamEnds(i) => s.(procs := s.procs[i := s.procs[i].(done := true)])
    case StreamBreaks(i) => s.(procs := s.procs[i := s.procs[i].(done := true)])
    case WatcherRuns(i) =>
      s.(rec := ExitRecorded(s.rec, s.procs[i].gen),
         procs := s.procs[i := s.procs[i].(watcher := Finished)])
    case LostHealEnds => s.(lostHeals := s.lostHeals - 1)
  }

  // ---- All steps ----

  predicate Enabled(s: State, step: Step) {
    match step
    case Initialize(t) => InitEnabled(s, t)
    case StartSonicd(t) => StartEnabled(s, t)
    case WaitForSync(t) => SyncEnabled(s, t)
    case StopSonicd(t) => StopEnabled(s, t)
    case ForceStopSonicd(t) => ForceStopEnabled(s, t)
    case HealSonicd(t) => HealEnabled(s, t)
    case Environment(t) => EnvEnabled(s, t)
  }

  function Apply(c: Config, s: State, step: Step): State
    requires Enabled(s, step)
  {
    match step
    case Initialize(t) => InitApply(s, t)
    case StartSonicd(t) => StartApply(c, s, t)
    case WaitForSync(t) => SyncApply(s, t)
    case StopSonicd(t) => StopApply(s, t)
    case ForceStopSonicd(t) => ForceStopApply(s, t)
    case HealSonicd(t) => HealApply(s, t)
    case Environment(t) => EnvApply(s, t)
  }
}
