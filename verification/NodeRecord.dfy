/**
  The lifecycle record of one node: the recorded state, the client generation
  counter, the handle of the latest client and the unexpected-exit flag, with
  the operations that update it while holding the state lock
  (driver/node/opera.go, driver/node/node_actions.go).
 */
module NodeRecord {
  import opened Common

  datatype NodeState =
    | Uninitialized
    | Initializing
    | Ready
    | Syncing
    | Running
    | Stopping
    | Killed
    | Healing

  /** The lock-protected fields. `sonicd` names a client by its launch number. */
  datatype Record = Record(
    state: NodeState,
    clientGen: nat,
    sonicd: Option<nat>,
    clientExitWasUnexpected: bool)

  const FRESH := Record(Uninitialized, 0, None, false)

  // ---- What each locked operation does to the record ----

  function Transitioned(r: Record, from: NodeState, to: NodeState): Record {
    if r.state == from then r.(state := to) else r
  }

  function TransitionedFromAny(r: Record, to: NodeState, from: seq<NodeState>): Record {
    if r.state in from then r.(state := to) else r
  }

  function Forced(r: Record, to: NodeState): Record {
    r.(state := to)
  }

  function ClientStartBegun(r: Record): Record {
    if r.state == Ready
    then r.(state := Syncing, clientGen := r.clientGen + 1, clientExitWasUnexpected := false)
    else r
  }

  function ClientAttached(r: Record, gen: nat, handle: nat): Record {
    if r.clientGen == gen then r.(sonicd := Some(handle)) else r
  }

  function ExitRecorded(r: Record, gen: nat): Record {
    if r.clientGen == gen && (r.state == Syncing || r.state == Running)
    then r.(state := Killed, clientExitWasUnexpected := true)
    else r
  }

  /** Of two callers that try to claim the same transition, the second fails and changes nothing. */
  lemma ClaimExcludes(r: Record, from: NodeState, to: NodeState, other: NodeState)
    requires r.state == from && from != to
    ensures Transitioned(Transitioned(r, from, to), from, other) == Transitioned(r, from, to)
    ensures Transitioned(r, from, to) != r
  {
  }

  /** Beginning a start retires all earlier ones: neither their watchers nor their handles change the record any more. */
  lemma StartRetiresEarlierOnes(r: Record, gen: nat, handle: nat)
    requires r.state == Ready && gen <= r.clientGen
    ensures ExitRecorded(ClientStartBegun(r), gen) == ClientStartBegun(r)
    ensures ClientAttached(ClientStartBegun(r), gen, handle) == ClientStartBegun(r)
  {
  }

  /** The node object; every method is one critical section of the state lock. */
  class OperaNode {
    var state: NodeState
    var clientGen: nat
    var sonicd: Option<nat>
    var clientExitWasUnexpected: bool

    function Contents(): Record
      reads this
    {
      Record(state, clientGen, sonicd, clientExitWasUnexpected)
    }

    constructor ()
      ensures Contents() == FRESH
    {
      state := Uninitialized;
      clientGen := 0;
      sonicd := None;
      clientExitWasUnexpected := false;
    }

    method TransitionFromAny(to: NodeState, from: seq<NodeState>) returns (ok: bool)
      modifies this
      ensures ok == (old(state) in from)
      ensures Contents() == old(TransitionedFromAny(Contents(), to, from))
    {
      if state !in from {
        return false;
      }
      state := to;
      return true;
    }

    method Transition(from: NodeState, to: NodeState) returns (ok: bool)
      modifies this
      ensures ok == (old(state) == from)
      ensures Contents() == old(Transitioned(Contents(), from, to))
    {
      ok := TransitionFromAny(to, [from]);
    }

    method ForceSetState(to: NodeState)
      modifies this
      ensures Contents() == old(Forced(Contents(), to))
    {
      state := to;
    }

    method BeginClientStart() returns (gen: Option<nat>)
      modifies this
      ensures Contents() == old(ClientStartBegun(Contents()))
      ensures gen == if old(state) == Ready then Some(old(clientGen) + 1) else None
    {
      if state != Ready {
        return None;
      }
      state := Syncing;
      clientGen := clientGen + 1;
      clientExitWasUnexpected := false;
      return Some(clientGen);
    }

    method AttachClient(gen: nat, handle: nat)
      modifies this
      ensures Contents() == old(ClientAttached(Contents(), gen, handle))
    {
      if clientGen == gen {
        sonicd := Some(handle);
      }
    }

    method RecordUnexpectedClientExit(gen: nat) returns (recorded: bool)
      modifies this
      ensures Contents() == old(ExitRecorded(Contents(), gen))
      ensures recorded <==> Contents() != old(Contents())
    {
      if clientGen != gen {
        return false;
      }
      if state != Syncing && state != Running {
        return false;
      }
      state := Killed;
      clientExitWasUnexpected := true;
      return true;
    }
  }
}
