/**
  What the signals of StopSonicd and ForceStopSonicd do to the clients, and how a step of
  a longer run is pointed at.
 */
module NodeSignals {
  import opened Common
  import opened NodeRecord
  import opened NodeLifecycle
  import opened NodeSafety

  /** A client that is alive has received the signal and is otherwise as before; one that is gone is as before. */
  predicate ReceivedAt(i: nat, before: seq<Proc>, after: seq<Proc>, kill: bool) {
    i < |before| == |after| ==>
      after[i] == if !before[i].alive then before[i]
                  else if kill then before[i].(killed := true) else before[i].(interrupted := true)
  }

  ghost predicate Received(before: seq<Proc>, after: seq<Proc>, kill: bool) {
    |after| == |before| && forall i :: ReceivedAt(i, before, after, kill)
  }

  /** The step that sends SIGKILL or SIGINT; a failing one may or may not have delivered it. */
  function SignalStep(kill: bool, ok: bool, delivered: bool): Step {
    if kill then ForceStopSonicd(if ok then KillClients else KillFails(delivered))
    else StopSonicd(if ok then InterruptClients else InterruptFails(delivered))
  }

  /** The clients before and after a signal that was sent successfully, or failed having been delivered or not. */
  ghost predicate SignalEffect(before: seq<Proc>, after: seq<Proc>, kill: bool, ok: bool, delivered: bool) {
    if ok || delivered then Received(before, after, kill) else after == before
  }

  /** In every state in which a signal is sent, every client that is alive receives it, and nothing else happens to any client. */
  lemma SignalsReachEveryClient(c: Config, s: State, kill: bool, ok: bool, delivered: bool)
    requires Enabled(s, SignalStep(kill, ok, delivered))
    ensures SignalEffect(s.procs, Apply(c, s, SignalStep(kill, ok, delivered)).procs, kill, ok, delivered)
  {
    var t := Apply(c, s, SignalStep(kill, ok, delivered));
    if ok || delivered {
      forall i: nat
        ensures ReceivedAt(i, s.procs, t.procs, kill)
      {
      }
    }
  }

  // ---- Steps of a run ----

  /** Step number `at` of the run was this one, taken in this state. */
  ghost predicate Took(c: Config, trace: seq<Step>, at: nat, step: Step, s: State) {
    && at < |trace| && trace[at] == step
    && IsRun(c, INITIAL, trace[..at]) && After(c, INITIAL, trace[..at]) == s
    && Enabled(s, step)
  }

  lemma TookNow(c: Config, trace: seq<Step>, step: Step)
    requires IsRun(c, INITIAL, trace) && Enabled(After(c, INITIAL, trace), step)
    ensures Took(c, trace + [step], |trace|, step, After(c, INITIAL, trace))
  {
    assert (trace + [step])[..|trace|] == trace;
  }

  lemma TookLater(c: Config, trace: seq<Step>, longer: seq<Step>, at: nat, step: Step, s: State)
    requires Took(c, trace, at, step, s) && trace <= longer
    ensures Took(c, longer, at, step, s)
  {
    assert longer[..at] == trace[..at];
  }
}
