/**
  The actions of driver/node/node_actions.go as the executor calls them, one at a time:
  each runs its steps in order, and between any two of them, as between two actions,
  clients may exit, streams may end and watchers may run.  Whatever happens in between,
  the steps taken are a run of NodeLifecycle, so that everything proved about runs holds
  after every sequence of actions; here it is proved what each action returns with.
 */
module NodeActions {
  import opened Common
  import opened NodeRecord
  import opened NodeLifecycle
  import opened NodeSafety
  import opened NodeTruth
  import opened NodeExits
  import opened NodeHeals
  import opened NodeSignals

  /** What the environment alone can change. */
  ghost predicate Drifted(s: State, t: State) {
    && t.pc == s.pc && |t.procs| == |s.procs|
    && (t.rec == s.rec || (ClaimsClient(s) && t.rec == s.rec.(state := Killed, clientExitWasUnexpected := true)))
    && (NoneAlive(s) ==> NoneAlive(t) && t.dirty == s.dirty)
    && t.unprotected == s.unprotected
    && (|s.procs| > 0 ==> Last(t).observer == Last(s).observer && Last(t).unprotected == Last(s).unprotected)
  }

  lemma EnvironmentDrifts(s: State, step: EnvStep)
    requires EnvEnabled(s, step)
    ensures Drifted(s, EnvApply(s, step))
  {
  }

  class Node {
    const config: Config
    const record: OperaNode
    var s: State
    ghost var trace: seq<Step>   // every step since the node was created

    /** No exec that failed has left a client behind. */
    ghost predicate Trusted()
      reads this
    {
      PHANTOM_START !in trace
    }

    ghost predicate Valid()
      reads this, record
    {
      && IsRun(config, INITIAL, trace) && s == After(config, INITIAL, trace)
      && s.rec == record.Contents() && Fit(s) && Tied(s) && Unflagged(s)
      && (Trusted() ==> Clean(config, s)) && (LOST_HEAL !in trace ==> s.lostHeals == 0)
      && forall i :: Environment(StreamBreaks(i)) !in trace ==> IntactAt(i, s)
    }

    constructor (config: Config)
      ensures Valid() && this.config == config && s == INITIAL && trace == [] && fresh(record)
    {
      this.config, s, trace := config, INITIAL, [];
      record := new OperaNode();
      new;
      InitialIsSound(config);
    }

    // ---- The record part of every step, by the operations of the node object ----

    method RecordInitialize(t: InitStep)
      requires InitEnabled(s, t) && record.Contents() == s.rec
      modifies record
      ensures record.Contents() == InitApply(s, t).rec
    {
      match t
      case BeginInitialize => var ok := record.Transition(Uninitialized, Initializing);
      case InitializeEnds(true) => var ok := record.Transition(Initializing, Ready);
      case InitializeEnds(false) => record.ForceSetState(Uninitialized);
    }

    method RecordStart(t: StartStep)
      requires StartEnabled(s, t) && record.Contents() == s.rec
      modifies record
      ensures record.Contents() == StartApply(config, s, t).rec
    {
      match t
      case BeginStart(_) => var gen := record.BeginClientStart();
      case StartScan(ok) => if !ok || !NoneAlive(s) { record.ForceSetState(Ready); }
      case WriteConfig(ok) => if !ok { record.ForceSetState(Ready); }
      case Exec(outcome) => if outcome != Started { record.ForceSetState(Ready); }
      case Attach => record.AttachClient(s.pc.gen, |s.procs| - 1);
      case SpawnWatcher =>
    }

    method RecordWaitForSync(t: SyncStep)
      requires SyncEnabled(s, t) && record.Contents() == s.rec
      modifies record
      ensures record.Contents() == SyncApply(s, t).rec
    {
      if t == SyncCompletes {
        var ok := record.Transition(Syncing, Running);
      }
    }

    method RecordStop(t: StopStep)
      requires StopEnabled(s, t) && record.Contents() == s.rec
      modifies record
      ensures record.Contents() == StopApply(s, t).rec
    {
      match t
      case BeginStop => var ok := record.Transition(Running, Stopping);
      case InterruptClients => if NoneAlive(s) { record.ForceSetState(Killed); }
      case InterruptFails(_) => record.ForceSetState(Running);
      case StopSeesExit => var ok := record.Transition(Stopping, Ready);
      case StopGivesUp =>
    }

    method RecordForceStop(t: ForceStopStep)
      requires ForceStopEnabled(s, t) && record.Contents() == s.rec
      modifies record
      ensures record.Contents() == ForceStopApply(s, t).rec
    {
      if t == BeginForceStop {
        var ok := record.TransitionFromAny(Killed, [Running, Stopping]);
      }
    }

    method RecordHeal(t: HealStep)
      requires HealEnabled(s, t) && record.Contents() == s.rec
      modifies record
      ensures record.Contents() == HealApply(s, t).rec
    {
      match t
      case BeginHeal => var ok := record.Transition(Killed, Healing);
      case HealScan(ok) => if !ok || !NoneAlive(s) { record.ForceSetState(Killed); }
      case HealEnds(outcome) => if outcome != Healed { record.ForceSetState(Killed); }
      case HealCommits => var ok := record.Transition(Healing, Ready);
    }

    method RecordEnvironment(t: EnvStep)
      requires EnvEnabled(s, t) && record.Contents() == s.rec
      modifies record
      ensures record.Contents() == EnvApply(s, t).rec
    {
      if t.WatcherRuns? {
        var recorded := record.RecordUnexpectedClientExit(s.procs[t.proc].gen);
      }
    }

    /** The lock-protected operations, taken in the order of the actions, keep the record of the transition system. */
    method RecordStep(step: Step)
      requires Enabled(s, step) && record.Contents() == s.rec
      modifies record
      ensures record.Contents() == Apply(config, s, step).rec
    {
      match step
      case Initialize(t) => RecordInitialize(t);
      case StartSonicd(t) => RecordStart(t);
      case WaitForSync(t) => RecordWaitForSync(t);
      case StopSonicd(t) => RecordStop(t);
      case ForceStopSonicd(t) => RecordForceStop(t);
      case HealSonicd(t) => RecordHeal(t);
      case Environment(t) => RecordEnvironment(t);
    }

    lemma StepIsIntact(step: Step, i: nat)
      requires Valid() && Enabled(s, step) && Environment(StreamBreaks(i)) !in trace + [step]
      ensures IntactAt(i, Apply(config, s, step))
    {
      assert step in trace + [step] && forall t :: t in trace ==> t in trace + [step];
      IntactStep(config, s, step, i);
    }

    lemma StepKeeps(step: Step)
      requires Valid() && Enabled(s, step)
      ensures var t := Apply(config, s, step);
              && Fit(t) && Tied(t) && Unflagged(t)
              && (PHANTOM_START !in trace + [step] ==> Clean(config, t))
              && (LOST_HEAL !in trace + [step] ==> t.lostHeals == 0)
    {
      FitStep(config, s, step);
      TiedStep(config, s, step);
      UnflaggedStep(config, s, step);
      assert step in trace + [step] && forall t :: t in trace ==> t in trace + [step];
      if LOST_HEAL !in trace + [step] {
        NoneLostStep(config, s, step);
      }
      if PHANTOM_START !in trace + [step] {
        SoundStep(config, s, step);
      }
    }

    method Do(step: Step)
      requires Valid() && Enabled(s, step)
      modifies this, record
      ensures Valid() && s == Apply(config, old(s), step) && trace == old(trace) + [step]
    {
      StepKeeps(step);
      ExtendFrom(config, INITIAL, trace, step);
      ghost var after, longer := Apply(config, s, step), trace + [step];
      forall i: nat | Environment(StreamBreaks(i)) !in longer
        ensures IntactAt(i, after)
      {
        StepIsIntact(step, i);
      }
      RecordStep(step);
      s := Apply(config, s, step);
      trace := trace + [step];
    }

    /** The environment takes those of the given steps that it can. */
    method Interfere(steps: seq<EnvStep>)
      requires Valid()
      modifies this, record
      ensures Valid() && old(trace) <= trace && Drifted(old(s), s)
      ensures old(Trusted()) ==> Trusted()
    {
      for i := 0 to |steps|
        invariant Valid() && old(trace) <= trace && Drifted(old(s), s)
        invariant old(Trusted()) ==> Trusted()
      {
        if EnvEnabled(s, steps[i]) {
          EnvironmentDrifts(s, steps[i]);
          Do(Environment(steps[i]));
        }
      }
    }

    /** A step of an action, and what happens until the next one. */
    method DoAmid(step: Step, env: seq<EnvStep>)
      requires Valid() && Enabled(s, step)
      modifies this, record
      ensures Valid() && old(trace) + [step] <= trace && Drifted(Apply(config, old(s), step), s)
      ensures old(Trusted()) && step != PHANTOM_START ==> Trusted()
    {
      Do(step);
      Interfere(env);
    }

    /** Initialize: a failure returns the node to where it was. */
    method Initialize(ok: bool, env: seq<EnvStep>) returns (done: bool)
      requires Valid() && s.pc.Idle?
      modifies this, record
      ensures Valid() && s.pc.Idle? && (old(Trusted()) ==> Trusted())
      ensures done == (old(s).rec.state == Uninitialized && ok)
      ensures old(s).rec.state == Uninitialized ==> s.rec.state == if done then Ready else Uninitialized
      ensures old(s).rec.state != Uninitialized ==> s == old(s)
    {
      if s.rec.state != Uninitialized {
        return false;
      }
      DoAmid(Step.Initialize(BeginInitialize), env);
      Do(Step.Initialize(InitializeEnds(ok)));
      return ok;
    }

    /**
      startSonicd, which scans as step `at` of the trace, in the state `found`: it succeeds if
      and only if the node is Ready, the scan finds no client, the configuration is written and
      the client started.  Success means one new client, launched by this start in the role that
      was asked for, attached and watched; it is unprotected exactly if it is the first one of a
      lone genesis validator that bootstraps the network.  A failure leaves the node Ready, with
      no client more unless the exec started one and reported that it failed.
     */
    method StartSonicd(observer: bool, scan: bool, written: bool, outcome: ExecOutcome, env: nat -> seq<EnvStep>)
      returns (done: bool, ghost at: nat, ghost found: State)
      requires Valid() && s.pc.Idle?
      modifies this, record
      ensures Valid() && s.pc.Idle? && (old(Trusted()) && outcome != StartedButReportedFailed ==> Trusted())
      ensures old(s).rec.state == Ready ==>
        && |old(trace)| < at && Took(config, trace, at, Step.StartSonicd(StartScan(scan)), found)
        && (done <==> scan && NoneAlive(found) && written && outcome == Started)
      ensures done ==> |s.procs| == |old(s).procs| + 1 && s.rec.sonicd == Some(|s.procs| - 1)
      ensures done ==> s.rec.state == Syncing && Last(s).gen == s.rec.clientGen && Last(s).watcher.Waiting?
      ensures done ==> Last(s).observer == observer
      ensures done ==>
        (Last(s).unprotected <==>
           old(s).rec.sonicd == None && config.networkBootstrap && config.numValidators == 1 && config.validatorId == Some(1))
      ensures old(s).rec.state == Ready && !done ==>
        && s.rec.state == Ready
        && (|s.procs| == |old(s).procs| || (outcome == StartedButReportedFailed && |s.procs| == |old(s).procs| + 1))
      ensures old(s).rec.state != Ready ==> !done && s == old(s)
    {
      at, found := 0, s;
      if s.rec.state != Ready {
        return false, at, found;
      }
      DoAmid(Step.StartSonicd(BeginStart(observer)), env(0));
      var prepared: bool;
      prepared, at, found := Prepare(scan, written, env);
      if !prepared {
        return false, at, found;
      }
      ghost var before := trace;
      done := Launch(outcome, env);
      TookLater(config, before, trace, at, Step.StartSonicd(StartScan(scan)), found);
    }

    /** From the claimed start to the exec. */
    method Prepare(scan: bool, written: bool, env: nat -> seq<EnvStep>) returns (prepared: bool, ghost at: nat, ghost found: State)
      requires Valid() && s.pc.StartClaimed?
      modifies this, record
      ensures Valid() && (old(Trusted()) ==> Trusted()) && |s.procs| == |old(s).procs| && old(trace) <= trace
      ensures at == |old(trace)| && found == old(s) && Took(config, trace, at, Step.StartSonicd(StartScan(scan)), found)
      ensures prepared == (scan && NoneAlive(found) && written)
      ensures prepared ==> s.pc == StartWritten(old(s).pc.gen, old(s).pc.observer)
      ensures prepared ==> s.unprotected == ConfigIsUnprotected(config, BootstrapsNetwork(config, old(s).rec))
      ensures !prepared ==> s.pc.Idle? && s.rec.state == Ready
    {
      at, found := |trace|, s;
      TookNow(config, trace, Step.StartSonicd(StartScan(scan)));
      ghost var scanned := trace + [Step.StartSonicd(StartScan(scan))];
      DoAmid(Step.StartSonicd(StartScan(scan)), env(1));
      if s.pc.Idle? {
        prepared := false;
      } else {
        prepared := Configure(written, env(2));
      }
      TookLater(config, scanned, trace, at, Step.StartSonicd(StartScan(scan)), found);
    }

    method Configure(written: bool, env: seq<EnvStep>) returns (prepared: bool)
      requires Valid() && s.pc.StartScanned?
      modifies this, record
      ensures Valid() && (old(Trusted()) ==> Trusted()) && |s.procs| == |old(s).procs| && old(trace) <= trace
      ensures prepared == written
      ensures prepared ==> s.pc == StartWritten(old(s).pc.gen, old(s).pc.observer)
      ensures prepared ==> s.unprotected == ConfigIsUnprotected(config, BootstrapsNetwork(config, old(s).rec))
      ensures !prepared ==> s.pc.Idle? && s.rec.state == Ready
    {
      DoAmid(Step.StartSonicd(WriteConfig(written)), env);
      prepared := !s.pc.Idle?;
    }

    method Launch(outcome: ExecOutcome, env: nat -> seq<EnvStep>) returns (done: bool)
      requires Valid() && s.pc.StartWritten?
      modifies this, record
      ensures Valid() && s.pc.Idle? && (old(Trusted()) && outcome != StartedButReportedFailed ==> Trusted())
      ensures done == (outcome == Started) && old(trace) <= trace
      ensures done ==> |s.procs| == |old(s).procs| + 1 && s.rec.sonicd == Some(|s.procs| - 1)
      ensures done ==> s.rec.state == Syncing && Last(s).gen == s.rec.clientGen && Last(s).watcher.Waiting?
      ensures done ==> Last(s).observer == old(s).pc.observer && Last(s).unprotected == old(s).unprotected
      ensures !done ==>
        && s.rec.state == Ready
        && |s.procs| == |old(s).procs| + if outcome == StartedButReportedFailed then 1 else 0
    {
      Do(Step.StartSonicd(Exec(outcome)));
      if outcome != Started {
        return false;
      }
      AttachAndWatch(env);
      return true;
    }

    method AttachAndWatch(env: nat -> seq<EnvStep>)
      requires Valid() && s.pc.StartLaunched?
      modifies this, record
      ensures Valid() && s.pc.Idle? && (old(Trusted()) ==> Trusted()) && old(trace) <= trace
      ensures |s.procs| == |old(s).procs| > 0 && s.rec.sonicd == Some(|s.procs| - 1)
      ensures s.rec.state == Syncing && Last(s).gen == s.rec.clientGen && Last(s).watcher.Waiting?
      ensures Last(s).observer == Last(old(s)).observer && Last(s).unprotected == Last(old(s)).unprotected
    {
      Interfere(env(3));
      DoAmid(Step.StartSonicd(Attach), env(4));
      Watch();
    }

    method Watch()
      requires Valid() && s.pc.StartAttached?
      modifies this, record
      ensures Valid() && s.pc.Idle? && (old(Trusted()) ==> Trusted()) && old(trace) <= trace
      ensures |s.procs| == |old(s).procs| > 0 && s.rec == old(s).rec
      ensures s.rec.state == Syncing && Last(s) == Last(old(s)).(watcher := Waiting) && Last(s).gen == s.rec.clientGen
    {
      Do(Step.StartSonicd(SpawnWatcher));
    }

    /**
      WaitForSync, whose wait ends with step `at` of the trace, in the state `found`: it succeeds
      if and only if the node is Syncing, a live client answers, and its exit is not reported
      before the wait is over; otherwise the node is as it was unless that was reported.
     */
    method WaitForSync(answers: bool, env: nat -> seq<EnvStep>) returns (done: bool, ghost at: nat, ghost found: State)
      requires Valid() && s.pc.Idle?
      modifies this, record
      ensures Valid() && s.pc.Idle? && (old(Trusted()) ==> Trusted())
      ensures done ==> old(s).rec.state == Syncing && s.rec.state == Running
      ensures old(s).rec.state == Syncing ==>
        && |old(trace)| < at
        && Took(config, trace, at, Step.WaitForSync(if answers && !NoneAlive(found) then RpcAnswers else SyncGivesUp), found)
        && (done <==> answers && !NoneAlive(found) && !s.rec.clientExitWasUnexpected)
      ensures old(s).rec.state == Syncing && !done ==>
        s.rec.state == if s.rec.clientExitWasUnexpected then Killed else Syncing
      ensures old(s).rec.state != Syncing ==> !done && s == old(s)
    {
      at, found := 0, s;
      if s.rec.state != Syncing {
        return false, at, found;
      }
      DoAmid(Step.WaitForSync(BeginWaitForSync), env(0));
      at, found := |trace|, s;
      done := PollForSync(answers, env(1));
    }

    method PollForSync(answers: bool, env: seq<EnvStep>) returns (done: bool)
      requires Valid() && s.pc.SyncPolling?
      modifies this, record
      ensures Valid() && s.pc.Idle? && (old(Trusted()) ==> Trusted())
      ensures Took(config, trace, |old(trace)|,
                   Step.WaitForSync(if answers && !NoneAlive(old(s)) then RpcAnswers else SyncGivesUp), old(s))
      ensures done ==> answers && !NoneAlive(old(s)) && s.rec.state == Running && !s.rec.clientExitWasUnexpected
      ensures old(s).rec.state == Syncing && !done && answers && !NoneAlive(old(s)) ==>
        s.rec.state == Killed && s.rec.clientExitWasUnexpected
      ensures old(s).rec.state == Killed && !done ==> s.rec == old(s).rec
      ensures !answers || NoneAlive(old(s)) ==> s.rec == old(s).rec
    {
      if !answers || NoneAlive(s) {
        TookNow(config, trace, Step.WaitForSync(SyncGivesUp));
        Do(Step.WaitForSync(SyncGivesUp));
        return false;
      }
      TookNow(config, trace, Step.WaitForSync(RpcAnswers));
      ghost var answered := trace + [Step.WaitForSync(RpcAnswers)];
      done := Answered(env);
      TookLater(config, answered, trace, |old(trace)|, Step.WaitForSync(RpcAnswers), old(s));
    }

    method Answered(env: seq<EnvStep>) returns (done: bool)
      requires Valid() && s.pc.SyncPolling? && !NoneAlive(s)
      modifies this, record
      ensures Valid() && s.pc.Idle? && (old(Trusted()) ==> Trusted())
      ensures old(trace) + [Step.WaitForSync(RpcAnswers)] <= trace
      ensures done ==> s.rec.state == Running && !s.rec.clientExitWasUnexpected
      ensures old(s).rec.state == Syncing && !done ==> s.rec.state == Killed && s.rec.clientExitWasUnexpected
      ensures old(s).rec.state == Killed ==> !done && s.rec == old(s).rec
    {
      DoAmid(Step.WaitForSync(RpcAnswers), env);
      done := s.rec.state == Syncing;
      Do(Step.WaitForSync(SyncCompletes));
    }

    /** The stream of the latest client did not break. */
    ghost predicate Unbroken()
      reads this
    {
      |s.procs| > 0 ==> Environment(StreamBreaks(|s.procs| - 1)) !in trace
    }

    /** The end of the client's stream means that no client is alive, unless that stream broke. */
    lemma ExitSeenIsReal()
      requires Valid() && ExitSeen(s) && (s.pc.StopSignalled? || s.pc.KillSignalled?)
      ensures Unbroken() ==> NoneAlive(s)
    {
      if Unbroken() {
        assert IntactAt(|s.procs| - 1, s);
        SeenExitIsReal(s);
      }
    }

    /** A node that is Ready with no action in flight has a clean directory. */
    lemma ReadyIsClean()
      requires Valid() && Trusted() && s.rec.state == Ready
      ensures !s.dirty
    {
    }

    /** Step `at` of the trace, taken in the state `found`, sent this signal, which did what signals do. */
    ghost predicate SentAt(at: nat, found: State, kill: bool, ok: bool, delivered: bool)
      reads this
    {
      && Took(config, trace, at, SignalStep(kill, ok, delivered), found)
      && SignalEffect(found.procs, Apply(config, found, SignalStep(kill, ok, delivered)).procs, kill, ok, delivered)
    }

    method SendSignal(kill: bool, ok: bool, delivered: bool)
      requires Valid() && Enabled(s, SignalStep(kill, ok, delivered))
      modifies this, record
      ensures Valid() && s == Apply(config, old(s), SignalStep(kill, ok, delivered))
      ensures trace == old(trace) + [SignalStep(kill, ok, delivered)] && SentAt(|old(trace)|, old(s), kill, ok, delivered)
      ensures old(Trusted()) ==> Trusted()
    {
      TookNow(config, trace, SignalStep(kill, ok, delivered));
      SignalsReachEveryClient(config, s, kill, ok, delivered);
      Do(SignalStep(kill, ok, delivered));
    }

    /**
      StopSonicd, which sends SIGINT as step `at` of the trace, in the state `found`: Killed
      exactly if no client was alive there, and otherwise Ready once the client's stream has
      ended, after which no client is alive unless that stream broke.
     */
    method StopSonicd(signals: bool, delivered: bool, exits: bool, env: nat -> seq<EnvStep>)
      returns (done: bool, ghost at: nat, ghost found: State)
      requires Valid() && s.pc.Idle?
      modifies this, record
      ensures Valid() && s.pc.Idle? && (old(Trusted()) ==> Trusted())
      ensures old(s).rec.state != Running ==> !done && s == old(s)
      ensures old(s).rec.state == Running ==> |old(trace)| < at && SentAt(at, found, false, signals, delivered)
      ensures old(s).rec.state == Running && !signals ==> !done && s.rec.state == Running
      ensures old(s).rec.state == Running && signals ==>
        && s.rec.state == (if NoneAlive(found) then Killed else if done then Ready else Stopping)
        && (done <==> !NoneAlive(found) && exits && ExitSeen(s))
      ensures done ==> s.rec.state == Ready && (Trusted() ==> !s.dirty) && (Unbroken() ==> NoneAlive(s))
    {
      at, found := 0, s;
      if s.rec.state != Running {
        return false, at, found;
      }
      DoAmid(Step.StopSonicd(BeginStop), env(0));
      at, found := |trace|, s;
      done := Interrupt(signals, delivered, exits, env(1));
      if done && Trusted() {
        ReadyIsClean();
      }
    }

    method Interrupt(signals: bool, delivered: bool, exits: bool, env: seq<EnvStep>) returns (done: bool)
      requires Valid() && s.pc.StopClaimed?
      modifies this, record
      ensures Valid() && s.pc.Idle? && (old(Trusted()) ==> Trusted())
      ensures SentAt(|old(trace)|, old(s), false, signals, delivered)
      ensures !signals ==> !done && s.rec.state == Running
      ensures signals ==>
        && s.rec.state == (if NoneAlive(old(s)) then Killed else if done then Ready else Stopping)
        && (done <==> !NoneAlive(old(s)) && exits && ExitSeen(s))
      ensures done ==> s.rec.state == Ready && (Unbroken() ==> NoneAlive(s))
    {
      SendSignal(false, signals, delivered);
      if s.pc.Idle? {
        return false;
      }
      ghost var sent := trace;
      done := AwaitExit(exits, env);
      TookLater(config, sent, trace, |old(trace)|, SignalStep(false, signals, delivered), old(s));
    }

    /** waitForSonicdExit, and what StopSonicd makes of it. */
    method AwaitExit(exits: bool, env: seq<EnvStep>) returns (done: bool)
      requires Valid() && s.pc.StopSignalled?
      modifies this, record
      ensures Valid() && s.pc.Idle? && (old(Trusted()) ==> Trusted()) && old(trace) <= trace
      ensures s.rec.state == (if done then Ready else Stopping) && done == (exits && ExitSeen(s))
      ensures done ==> (Unbroken() ==> NoneAlive(s))
    {
      Interfere(env);
      done := exits && ExitSeen(s);
      if done {
        EndWait(Step.StopSonicd(StopSeesExit));
      } else {
        Do(Step.StopSonicd(StopGivesUp));
      }
    }

    /** The last step after the client's exit was seen. */
    method EndWait(step: Step)
      requires Valid() && ExitSeen(s)
      requires (s.pc.StopSignalled? && step == Step.StopSonicd(StopSeesExit))
            || (s.pc.KillSignalled? && step == Step.ForceStopSonicd(ForceStopEnds))
      modifies this, record
      ensures Valid() && s.pc.Idle? && trace == old(trace) + [step] && ExitSeen(s)
      ensures s.rec.state == if old(s).pc.StopSignalled? then Ready else Killed
      ensures Unbroken() ==> NoneAlive(s)
    {
      ghost var procs := s.procs;
      ghost var held := Unbroken();
      ExitSeenIsReal();
      ghost var none := NoneAlive(s);
      Do(step);
      assert s.procs == procs;
      assert none ==> NoneAlive(s);
      assert Unbroken() ==> held;
    }

    /**
      ForceStopSonicd, which sends SIGKILL as step `at` of the trace, in the state `found`: the
      node is Killed on every path; success means that the client is gone unless its stream broke.
     */
    method ForceStopSonicd(signals: bool, delivered: bool, exits: bool, env: nat -> seq<EnvStep>)
      returns (done: bool, ghost at: nat, ghost found: State)
      requires Valid() && s.pc.Idle?
      modifies this, record
      ensures Valid() && s.pc.Idle? && (old(Trusted()) ==> Trusted())
      ensures old(s).rec.state == Running || old(s).rec.state == Stopping ==>
        && s.rec.state == Killed && |old(trace)| < at && SentAt(at, found, true, signals, delivered)
        && (done <==> signals && exits && ExitSeen(s))
      ensures old(s).rec.state != Running && old(s).rec.state != Stopping ==> !done && s == old(s)
      ensures done && Unbroken() ==> NoneAlive(s)
    {
      at, found := 0, s;
      if s.rec.state != Running && s.rec.state != Stopping {
        return false, at, found;
      }
      DoAmid(Step.ForceStopSonicd(BeginForceStop), env(0));
      at, found := |trace|, s;
      done := Kill(signals, delivered, exits, env(1));
    }

    method Kill(signals: bool, delivered: bool, exits: bool, env: seq<EnvStep>) returns (done: bool)
      requires Valid() && s.pc.KillClaimed?
      modifies this, record
      ensures Valid() && s.pc.Idle? && (old(Trusted()) ==> Trusted())
      ensures s.rec.state == Killed && SentAt(|old(trace)|, old(s), true, signals, delivered)
      ensures done <==> signals && exits && ExitSeen(s)
      ensures done && Unbroken() ==> NoneAlive(s)
    {
      SendSignal(true, signals, delivered);
      if !signals {
        return false;
      }
      ghost var sent := trace;
      done := AwaitKill(exits, env);
      TookLater(config, sent, trace, |old(trace)|, SignalStep(true, signals, delivered), old(s));
    }

    method AwaitKill(exits: bool, env: seq<EnvStep>) returns (done: bool)
      requires Valid() && s.pc.KillSignalled?
      modifies this, record
      ensures Valid() && s.pc.Idle? && (old(Trusted()) ==> Trusted()) && old(trace) <= trace
      ensures s.rec.state == Killed && done == (exits && ExitSeen(s)) && (done && Unbroken() ==> NoneAlive(s))
    {
      Interfere(env);
      done := exits && ExitSeen(s);
      if done {
        EndWait(Step.ForceStopSonicd(ForceStopEnds));
      } else {
        Do(Step.ForceStopSonicd(ForceStopEnds));
      }
    }

    /**
      HealSonicd, which scans as step `at` of the trace, in the state `found`: it succeeds if and
      only if the node is Killed, the scan finds no client and the heal succeeds.  Success means
      a clean directory that no client uses, and no heal either unless one was lost; a failure
      leaves the node Killed.
     */
    method HealSonicd(scan: bool, outcome: HealOutcome, env: nat -> seq<EnvStep>)
      returns (done: bool, ghost at: nat, ghost found: State)
      requires Valid() && s.pc.Idle?
      modifies this, record
      ensures Valid() && s.pc.Idle? && (old(Trusted()) ==> Trusted())
      ensures old(s).rec.state == Killed ==>
        && |old(trace)| < at && Took(config, trace, at, Step.HealSonicd(HealScan(scan)), found)
        && (done <==> scan && NoneAlive(found) && outcome == Healed)
      ensures done ==> old(s).rec.state == Killed && s.rec.state == Ready
      ensures done ==> !s.dirty && NoneAlive(s) && (LOST_HEAL !in trace ==> HealsRunning(s) == 0)
      ensures old(s).rec.state == Killed && !done ==> s.rec.state == Killed
      ensures old(s).rec.state != Killed ==> !done && s == old(s)
    {
      at, found := 0, s;
      if s.rec.state != Killed {
        return false, at, found;
      }
      DoAmid(Step.HealSonicd(BeginHeal), env(0));
      at, found := |trace|, s;
      done := ScanAndHeal(scan, outcome, env);
    }

    method ScanAndHeal(scan: bool, outcome: HealOutcome, env: nat -> seq<EnvStep>) returns (done: bool)
      requires Valid() && s.pc.HealClaimed?
      modifies this, record
      ensures Valid() && s.pc.Idle? && (old(Trusted()) ==> Trusted())
      ensures Took(config, trace, |old(trace)|, Step.HealSonicd(HealScan(scan)), old(s))
      ensures done <==> scan && NoneAlive(old(s)) && outcome == Healed
      ensures done ==> s.rec.state == Ready && !s.dirty && NoneAlive(s)
      ensures !done ==> s.rec.state == Killed
    {
      TookNow(config, trace, Step.HealSonicd(HealScan(scan)));
      ghost var scanned := trace + [Step.HealSonicd(HealScan(scan))];
      DoAmid(Step.HealSonicd(HealScan(scan)), env(1));
      if s.pc.Idle? {
        done := false;
      } else {
        done := Recover(outcome, env);
      }
      TookLater(config, scanned, trace, |old(trace)|, Step.HealSonicd(HealScan(scan)), old(s));
    }

    method Recover(outcome: HealOutcome, env: nat -> seq<EnvStep>) returns (done: bool)
      requires Valid() && s.pc.HealExecuting? && NoneAlive(s)
      modifies this, record
      ensures Valid() && s.pc.Idle? && (old(Trusted()) ==> Trusted()) && old(trace) <= trace
      ensures done == (outcome == Healed)
      ensures done ==> s.rec.state == Ready && !s.dirty && NoneAlive(s)
      ensures !done ==> s.rec.state == Killed
    {
      if outcome == Healed {
        DoAmid(Step.HealSonicd(HealEnds(Healed)), env(2));
        CommitHeal();
      } else {
        Do(Step.HealSonicd(HealEnds(outcome)));
      }
      done := outcome == Healed;
    }

    method CommitHeal()
      requires Valid() && s.pc.HealExecuted? && NoneAlive(s) && !s.dirty
      modifies this, record
      ensures Valid() && s.pc.Idle? && (old(Trusted()) ==> Trusted()) && old(trace) <= trace
      ensures s.rec.state == Ready && !s.dirty && NoneAlive(s)
    {
      Do(Step.HealSonicd(HealCommits));
    }
  }

  datatype Action =
    | InitializeNode(ok: bool)
    | Start(observer: bool, scan: bool, written: bool, exec: ExecOutcome)
    | Sync(answers: bool)
    | Stop(signals: bool, delivered: bool, exits: bool)
    | ForceStop(signals: bool, delivered: bool, exits: bool)
    | Heal(scan: bool, outcome: HealOutcome)

  predicate IsPhantom(action: Action) {
    action.Start? && action.exec == StartedButReportedFailed
  }

  /**
    Where a failed action that was accepted leaves the node in another state than it started from:
    a stop that signalled, a wait during which the client's exit was reported, and any kill.
   */
  predicate EndsElsewhere(action: Action, before: Record, after: Record) {
    match action
    case Stop(signals, _, _) => before.state == Running && signals
    case Sync(_) => before.state == Syncing && after.clientExitWasUnexpected
    case ForceStop(_, _, _) => before.state == Running || before.state == Stopping
    case _ => false
  }

  method Perform(n: Node, action: Action, env: nat -> seq<EnvStep>) returns (done: bool)
    requires n.Valid() && n.s.pc.Idle?
    modifies n, n.record
    ensures n.Valid() && n.s.pc.Idle?
    ensures old(n.Trusted()) && !IsPhantom(action) ==> n.Trusted()
    ensures !done ==> (n.s.rec.state != old(n.s).rec.state <==> EndsElsewhere(action, old(n.s).rec, n.s.rec))
  {
    ghost var at, found;
    match action
    case InitializeNode(ok) => done := n.Initialize(ok, env(0));
    case Start(observer, scan, written, outcome) => done, at, found := n.StartSonicd(observer, scan, written, outcome, env);
    case Sync(answers) => done, at, found := n.WaitForSync(answers, env);
    case Stop(signals, delivered, exits) => done, at, found := n.StopSonicd(signals, delivered, exits, env);
    case ForceStop(signals, delivered, exits) => done, at, found := n.ForceStopSonicd(signals, delivered, exits, env);
    case Heal(scan, outcome) => done, at, found := n.HealSonicd(scan, outcome, env);
  }

  /**
    Every sequence of actions, with anything the environment may do within and between
    them, is a run of the transition system, so that a node never has two clients; and
    unless an exec started a client and reported that it failed, it is only ever Ready with
    a clean data directory and never has a second client without doublesign protection.
    Unless a heal was lost, heals run alone.
   */
  method Execute(config: Config, actions: seq<Action>, env: nat -> nat -> seq<EnvStep>) returns (n: Node)
    ensures fresh(n) && fresh(n.record) && n.config == config && n.Valid() && n.s.pc.Idle?
    ensures forall i, j :: 0 <= i < |n.s.procs| && 0 <= j < |n.s.procs| && n.s.procs[i].alive && n.s.procs[j].alive ==> i == j
    ensures (forall i :: 0 <= i < |actions| ==> !IsPhantom(actions[i])) ==>
      && (n.s.rec.state == Ready ==> !n.s.dirty)
      && (forall i :: 0 <= i < |n.s.procs| && n.s.procs[i].unprotected ==> i == 0)
    ensures LOST_HEAL !in n.trace ==> !ClientBesideHeal(n.s) && !TwoHeals(n.s)
  {
    n := new Node(config);
    for i := 0 to |actions|
      invariant fresh(n) && fresh(n.record) && n.config == config && n.Valid() && n.s.pc.Idle?
      invariant (forall k :: 0 <= k < i ==> !IsPhantom(actions[k])) ==> n.Trusted()
    {
      var done := Perform(n, actions[i], env(i));
      n.Interfere(env(i)(9));
    }
    OneClientPerDataDirectory(config, n.trace);
    if n.Trusted() {
      AtMostOneUnprotectedClient(config, n.trace);
    }
    if LOST_HEAL !in n.trace {
      HealRunsAlone(config, n.trace);
    }
  }
}
