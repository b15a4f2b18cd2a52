/**
  The executor's book of delegated stakes (driver/executor/run.go) against the stakes the
  chain holds.  The chain is a ledger in wei that refuses to undelegate more than there is
  and to hold more than the supply; every transaction may also fail, or take effect
  without its receipt being seen.  Distinct delegator names have distinct accounts.
 */
module Stakes {
  import opened Common

  const WEI: nat := 1_000_000_000_000_000_000
  const UINT64: nat := 0x1_0000_0000_0000_0000

  type Uint64 = x: int | 0 <= x < UINT64

  // ---------------------------------------------------------------- units

  /** stakeToWei */
  function StakeToWei(stake: Uint64): nat {
    stake * WEI
  }

  /** weiToStake: rounded down, and zero if the result has no 64 bits. */
  function WeiToStake(wei: Option<nat>): Uint64 {
    match wei
    case None => 0
    case Some(w) => if w / WEI < UINT64 then w / WEI else 0
  }

  /** Converting to wei and back loses nothing. */
  lemma WeiRoundTrip(stake: Uint64)
    ensures WeiToStake(Some(StakeToWei(stake))) == stake
  {
  }

  /** A positive stake is read exactly if the chain holds at least that and less than one more. */
  lemma ReadsAs(wei: nat, stake: Uint64)
    requires stake > 0
    ensures WeiToStake(Some(wei)) == stake <==> StakeToWei(stake) <= wei < StakeToWei(stake) + WEI
  {
  }

  // ---------------------------------------------------------------- the chain

  datatype Address = Delegator(name: string) | Validator(id: int)

  datatype Pair = Pair(account: Address, validator: int)

  type Ledger = map<Pair, nat>

  function StakeAt(chain: Ledger, p: Pair): nat {
    if p in chain then chain[p] else 0
  }

  /** How a transaction ends: Lost took effect, but was reported as an error. */
  datatype Reply = Done | Refused | Lost

  /** The ledger after a transaction that asked for this stake. */
  function Settled(chain: Ledger, p: Pair, stake: nat, reply: Reply): Ledger {
    if reply == Refused then chain else chain[p := stake]
  }

  /** DelegateToValidator */
  function Delegated(chain: Ledger, supply: nat, p: Pair, stake: Uint64, reply: Reply): (Ledger, bool) {
    var wei := StakeAt(chain, p) + StakeToWei(stake);
    if stake == 0 || wei > supply then (chain, false) else (Settled(chain, p, wei, reply), reply == Done)
  }

  /** UndelegateFromValidator: zero means everything, which must be something. */
  function Undelegated(chain: Ledger, p: Pair, stake: Uint64, reply: Reply): (Ledger, bool) {
    var held := StakeAt(chain, p);
    var wei := if stake == 0 then held else StakeToWei(stake);
    if wei == 0 || wei > held then (chain, false) else (Settled(chain, p, held - wei, reply), reply == Done)
  }

  /** UnregisterValidatorNode: a validator's own stake; zero means everything. */
  function Unregistered(chain: Ledger, id: int, stake: Uint64, reply: Reply): (Ledger, bool) {
    var p := Pair(Validator(id), id);
    var held := StakeAt(chain, p);
    var wei := if stake == 0 then held else StakeToWei(stake);
    if wei > held then (chain, false) else (Settled(chain, p, held - wei, reply), reply == Done)
  }

  // ---------------------------------------------------------------- the book

  datatype StakeKey = StakeKey(delegator: string, validator: int)

  type Book = map<StakeKey, Uint64>

  function PairOf(key: StakeKey): Pair {
    Pair(Delegator(key.delegator), key.validator)
  }

  function Booked(expected: Book, key: StakeKey): Uint64 {
    if key in expected then expected[key] else 0
  }

  /** The chain holds exactly what is booked, and nothing for pairs that are not. */
  ghost predicate AgreesAt(key: StakeKey, expected: Book, chain: Ledger) {
    StakeAt(chain, PairOf(key)) == StakeToWei(Booked(expected, key))
  }

  ghost predicate Agrees(expected: Book, chain: Ledger) {
    forall key :: AgreesAt(key, expected, chain)
  }

  ghost predicate KnownAt(key: StakeKey, expected: Book, delegators: map<string, Address>) {
    key in expected ==> key.delegator in delegators
  }

  ghost predicate Known(expected: Book, delegators: map<string, Address>) {
    && (forall key :: KnownAt(key, expected, delegators))
    && (forall name :: name in delegators ==> delegators[name] == Delegator(name))
  }

  /** Booking what a transaction left on chain for one pair keeps the agreement. */
  lemma AgreesAfter(expected: Book, chain: Ledger, key: StakeKey, stake: Uint64)
    requires Agrees(expected, chain)
    ensures Agrees(expected[key := stake], chain[PairOf(key) := StakeToWei(stake)])
  {
    var e, c := expected[key := stake], chain[PairOf(key) := StakeToWei(stake)];
    forall other: StakeKey
      ensures AgreesAt(other, e, c)
    {
      assert AgreesAt(other, expected, chain);
    }
  }

  /** A validator's own stake is no delegator's. */
  lemma AgreesAfterUnregister(expected: Book, chain: Ledger, id: int, wei: nat)
    requires Agrees(expected, chain)
    ensures Agrees(expected, chain[Pair(Validator(id), id) := wei])
  {
    var c := chain[Pair(Validator(id), id) := wei];
    forall other: StakeKey
      ensures AgreesAt(other, expected, c)
    {
      assert AgreesAt(other, expected, chain);
    }
  }

  lemma KnownAfter(expected: Book, delegators: map<string, Address>, key: StakeKey, stake: Uint64)
    requires Known(expected, delegators) && key.delegator in delegators
    ensures Known(expected[key := stake], delegators)
  {
    var e := expected[key := stake];
    forall other: StakeKey
      ensures KnownAt(other, e, delegators)
    {
      assert KnownAt(other, expected, delegators);
    }
  }

  lemma KnownWith(expected: Book, delegators: map<string, Address>, name: string)
    requires Known(expected, delegators)
    ensures Known(expected, delegators[name := Delegator(name)])
  {
    var d := delegators[name := Delegator(name)];
    forall other: StakeKey
      ensures KnownAt(other, expected, d)
    {
      assert KnownAt(other, expected, delegators);
    }
  }

  datatype DelegateTarget = DelegateTarget(
    validator: Option<int>, delegator: string, stake: Uint64, funded: bool, reply: Reply)

  /** An empty delegator means the validator itself. */
  datatype UndelegateTarget = UndelegateTarget(
    validator: Option<int>, delegator: string, stake: Option<Uint64>, reply: Reply)

  /** What verifyStakes reports of a tracked pair. */
  predicate Mismatch(key: StakeKey, expected: Book, delegators: map<string, Address>, chain: Ledger)
    requires key in expected
  {
    || key.delegator !in delegators
    || WeiToStake(Some(StakeAt(chain, Pair(delegators[key.delegator], key.validator)))) != expected[key]
  }

  /**
    The chain's stake of this many wei reads as the expected stake: it is that stake, or more by
    less than one S.  A stake of 2^64 S or more reads as nothing.
   */
  ghost predicate ReadsAsExpected(wei: nat, expected: Uint64) {
    || (expected * 1_000_000_000_000_000_000 <= wei < (expected + 1) * 1_000_000_000_000_000_000)
    || (expected == 0 && wei >= 18_446_744_073_709_551_616 * 1_000_000_000_000_000_000)
  }

  /** What verifyStakes compares is what the chain holds. */
  lemma MismatchIff(key: StakeKey, expected: Book, delegators: map<string, Address>, chain: Ledger)
    requires key in expected && key.delegator in delegators
    ensures !Mismatch(key, expected, delegators, chain) <==>
            ReadsAsExpected(StakeAt(chain, Pair(delegators[key.delegator], key.validator)), expected[key])
  {
  }

  /** Within any supply below 2^64 S, a difference of one S or more is seen, and so is any shortfall. */
  lemma DifferencesAreSeen(wei: nat, expected: Uint64)
    requires wei < 18_446_744_073_709_551_616 * 1_000_000_000_000_000_000
    ensures ReadsAsExpected(wei, expected) <==>
            0 <= wei - expected * 1_000_000_000_000_000_000 < 1_000_000_000_000_000_000
  {
  }

  lemma AgreementHasNoMismatch(key: StakeKey, expected: Book, delegators: map<string, Address>, chain: Ledger)
    requires Agrees(expected, chain) && Known(expected, delegators) && key in expected
    ensures !Mismatch(key, expected, delegators, chain)
  {
    assert AgreesAt(key, expected, chain) && KnownAt(key, expected, delegators);
    WeiRoundTrip(expected[key]);
  }

  /** The new stake of a pair after a successful delegation: booked without wrapping around. */
  lemma DelegationIsBooked(expected: Book, chain: Ledger, supply: nat, key: StakeKey, stake: Uint64)
    requires Agrees(expected, chain) && supply < UINT64 * WEI
    requires Delegated(chain, supply, PairOf(key), stake, Done).1
    ensures Booked(expected, key) + stake < UINT64
    ensures Delegated(chain, supply, PairOf(key), stake, Done).0
         == chain[PairOf(key) := StakeToWei(Booked(expected, key) + stake)]
  {
    assert AgreesAt(key, expected, chain);
  }

  /** A successful undelegation is of a tracked pair and of no more than is booked for it. */
  lemma UndelegationIsBooked(expected: Book, chain: Ledger, key: StakeKey, stake: Uint64)
    requires Agrees(expected, chain)
    requires Undelegated(chain, PairOf(key), stake, Done).1
    ensures key in expected && stake <= expected[key] && expected[key] > 0
    ensures Undelegated(chain, PairOf(key), stake, Done).0
         == chain[PairOf(key) := StakeToWei(if stake == 0 then 0 else expected[key] - stake)]
    ensures StakeAt(chain, PairOf(key)) - StakeToWei(stake) == StakeToWei(expected[key] - stake)
  {
    assert AgreesAt(key, expected, chain);
  }

  function Min(a: Uint64, b: Uint64): Uint64 {
    if a < b then a else b
  }

  /** The account and validator of a delegation. */
  function DelegatedPair(t: DelegateTarget): Pair
    requires t.validator.Some?
  {
    Pair(Delegator(t.delegator), t.validator.value)
  }

  /** What the executor and the chain demand of a delegation: a validator, a stake, and room within the supply. */
  ghost predicate Delegable(t: DelegateTarget, chain: Ledger, supply: nat) {
    && t.validator.Some? && t.stake > 0
    && StakeAt(chain, DelegatedPair(t)) + t.stake * 1_000_000_000_000_000_000 <= supply
  }

  /** The wei that an undelegation asks for: everything if no amount, or zero, is given. */
  ghost function AskedWei(stake: Uint64, held: nat): nat {
    if stake == 0 then held else stake * 1_000_000_000_000_000_000
  }

  class Executor {
    var delegators: map<string, Address>
    var expectedStakes: Book
    var chain: Ledger
    const supply: nat    // in wei

    ghost predicate Valid()
      reads this
    {
      supply < UINT64 * WEI && Agrees(expectedStakes, chain) && Known(expectedStakes, delegators)
    }

    /** No delegator has a stake when a scenario begins. */
    constructor (genesis: Ledger, supply: nat)
      requires supply < UINT64 * WEI
      requires forall key :: StakeAt(genesis, PairOf(key)) == 0
      ensures Valid() && expectedStakes == map[] && chain == genesis
    {
      this.supply := supply;
      delegators, expectedStakes, chain := map[], map[], genesis;
    }

    /** getOrCreateDelegator */
    method GetOrCreateDelegator(name: string) returns (account: Address)
      requires Valid()
      modifies this`delegators
      ensures Valid() && account == Delegator(name) && name in delegators
    {
      if name !in delegators {
        KnownWith(expectedStakes, delegators, name);
        delegators := delegators[name := Delegator(name)];
      }
      account := delegators[name];
    }

    /** One target of execDelegate. */
    method Delegate(t: DelegateTarget) returns (ok: bool)
      requires Valid()
      modifies this`delegators, this`expectedStakes, this`chain
      ensures ok <==> t.funded && Delegable(t, old(chain), supply) && t.reply == Done
      ensures ok ==> Valid()
      ensures !ok ==> expectedStakes == old(expectedStakes)
      ensures chain == if t.funded && Delegable(t, old(chain), supply) && t.reply != Refused
                       then old(chain)[DelegatedPair(t) := StakeAt(old(chain), DelegatedPair(t)) + t.stake * 1_000_000_000_000_000_000]
                       else old(chain)
      ensures ok ==> var key := StakeKey(t.delegator, t.validator.value);
        && Booked(old(expectedStakes), key) + t.stake < UINT64
        && expectedStakes == old(expectedStakes)[key := Booked(old(expectedStakes), key) + t.stake]
        && chain == old(chain)[PairOf(key) := StakeAt(old(chain), PairOf(key)) + StakeToWei(t.stake)]
    {
      if t.validator.None? {
        return false;
      }
      var account := GetOrCreateDelegator(t.delegator);
      if !t.funded {
        return false;
      }
      var id := t.validator.value;
      ghost var before := chain;
      var (after, done) := Delegated(chain, supply, Pair(account, id), t.stake, t.reply);
      chain := after;
      if !done {
        return false;
      }
      var key := StakeKey(t.delegator, id);
      Book(key, t.stake, before);
      return true;
    }

    /** The bookkeeping of a delegation that the chain accepted. */
    method Book(key: StakeKey, more: Uint64, ghost before: Ledger)
      requires supply < UINT64 * WEI && Agrees(expectedStakes, before) && Known(expectedStakes, delegators)
      requires key.delegator in delegators && Delegated(before, supply, PairOf(key), more, Done) == (chain, true)
      modifies this`expectedStakes
      ensures Valid() && Booked(old(expectedStakes), key) + more < UINT64
      ensures expectedStakes == old(expectedStakes)[key := Booked(old(expectedStakes), key) + more]
    {
      DelegationIsBooked(expectedStakes, before, supply, key, more);
      var stake := (Booked(expectedStakes, key) + more) % UINT64;
      AgreesAfter(expectedStakes, before, key, stake);
      KnownAfter(expectedStakes, delegators, key, stake);
      expectedStakes := expectedStakes[key := stake];
    }

    /** One target of execUndelegate. */
    method Undelegate(t: UndelegateTarget) returns (ok: bool)
      requires Valid()
      modifies this`expectedStakes, this`chain
      ensures ok ==> Valid() && t.validator.Some?
      ensures t.delegator == "" ==> expectedStakes == old(expectedStakes)
      ensures ok && t.delegator != "" ==>
        var key := StakeKey(t.delegator, t.validator.value);
        var all := t.stake == None || t.stake == Some(0);
        && key in old(expectedStakes) && (all || t.stake.value <= old(expectedStakes)[key])
        && expectedStakes == old(expectedStakes)[key := if all then 0 else old(expectedStakes)[key] - t.stake.value]
      ensures t.validator.Some? ==>
        var p := Pair(if t.delegator == "" then Validator(t.validator.value) else Delegator(t.delegator), t.validator.value);
        var held := StakeAt(old(chain), p);
        var wei := if t.stake == None then held else AskedWei(t.stake.value, held);
        var may := wei <= held && (t.delegator != "" ==> t.delegator in delegators && wei > 0);
        && (ok <==> may && t.reply == Done)
        && chain == if may && t.reply != Refused then old(chain)[p := held - wei] else old(chain)
    {
      if t.validator.None? {
        return false;
      }
      if t.delegator == "" {
        ok := Unregister(t.validator.value, Asked(t), t.reply);
        return;
      }
      ok := UndelegateAs(t.validator.value, t.delegator, Asked(t), t.reply);
    }

    method Unregister(id: int, stake: Uint64, reply: Reply) returns (ok: bool)
      requires Valid()
      modifies this`chain
      ensures Valid()
      ensures var held := StakeAt(old(chain), Pair(Validator(id), id));
        && (ok <==> AskedWei(stake, held) <= held && reply == Done)
        && chain == if AskedWei(stake, held) <= held && reply != Refused
                    then old(chain)[Pair(Validator(id), id) := held - AskedWei(stake, held)] else old(chain)
    {
      ghost var before := chain;
      var (after, done) := Unregistered(chain, id, stake, reply);
      chain := after;
      AgreesAfterUnregister(expectedStakes, before, id, StakeAt(after, Pair(Validator(id), id)));
      return done;
    }

    method UndelegateAs(id: int, delegator: string, stake: Uint64, reply: Reply) returns (ok: bool)
      requires Valid()
      modifies this`expectedStakes, this`chain
      ensures ok ==> Valid()
      ensures ok ==> var key := StakeKey(delegator, id);
        && key in old(expectedStakes) && stake <= old(expectedStakes)[key]
        && expectedStakes == old(expectedStakes)[key := if stake == 0 then 0 else old(expectedStakes)[key] - stake]
      ensures !ok ==> expectedStakes == old(expectedStakes)
      ensures var p := Pair(Delegator(delegator), id);
        var held := StakeAt(old(chain), p);
        var may := delegator in delegators && 0 < AskedWei(stake, held) <= held;
        && (ok <==> may && reply == Done)
        && chain == if may && reply != Refused then old(chain)[p := held - AskedWei(stake, held)] else old(chain)
    {
      if delegator !in delegators {
        return false;
      }
      var key := StakeKey(delegator, id);
      var effective := if stake == 0 then Booked(expectedStakes, key) else stake;
      ghost var before := chain;
      var (after, done) := Undelegated(chain, Pair(delegators[delegator], id), stake, reply);
      chain := after;
      if !done {
        return false;
      }
      UndelegationIsBooked(expectedStakes, before, key, stake);
      if key in expectedStakes {
        var remaining := expectedStakes[key];
        var left := remaining - Min(effective, remaining);
        AgreesAfter(expectedStakes, before, key, left);
        KnownAfter(expectedStakes, delegators, key, left);
        expectedStakes := expectedStakes[key := left];
      }
      return true;
    }

    /** execVerifyStakes: exactly the tracked pairs that differ or could not be queried are reported. */
    method VerifyStakes(unreachable: set<StakeKey>) returns (errs: set<StakeKey>)
      ensures errs <= expectedStakes.Keys
      ensures forall key :: key in expectedStakes ==>
        (key !in errs <==>
           && key.delegator in delegators && key !in unreachable
           && ReadsAsExpected(StakeAt(chain, Pair(delegators[key.delegator], key.validator)), expectedStakes[key]))
      ensures Valid() ==> errs <= unreachable
    {
      errs := {};
      var todo := expectedStakes.Keys;
      while todo != {}
        invariant todo <= expectedStakes.Keys && errs <= expectedStakes.Keys - todo
        invariant forall key :: key in expectedStakes && key !in todo ==>
          (key in errs <==> Mismatch(key, expectedStakes, delegators, chain) || key in unreachable)
        decreases todo
      {
        var key :| key in todo;
        todo := todo - {key};
        if Mismatch(key, expectedStakes, delegators, chain) || key in unreachable {
          errs := errs + {key};
        }
      }
      forall key | key in expectedStakes && key.delegator in delegators
        ensures Mismatch(key, expectedStakes, delegators, chain) <==>
          !ReadsAsExpected(StakeAt(chain, Pair(delegators[key.delegator], key.validator)), expectedStakes[key])
      {
        MismatchIff(key, expectedStakes, delegators, chain);
      }
      if Valid() {
        forall key | key in errs
          ensures key in unreachable
        {
          AgreementHasNoMismatch(key, expectedStakes, delegators, chain);
        }
      }
    }
  }

  /** No amount, or an amount of zero, means everything. */
  function Asked(t: UndelegateTarget): Uint64 {
    if t.stake.Some? then t.stake.value else 0
  }

  datatype Step = DelegateTo(to: DelegateTarget) | UndelegateFrom(from: UndelegateTarget) | Verify(unreachable: set<StakeKey>)

  /** A verification may report what could not be queried, and nothing else. */
  ghost predicate ReportsOnlyUnreachable(reports: seq<set<StakeKey>>, steps: seq<Step>)
    requires |reports| <= |steps|
  {
    forall i :: 0 <= i < |reports| && steps[i].Verify? ==> reports[i] <= steps[i].unreachable
  }

  /**
    After every successful sequence of delegations and undelegations the book agrees with
    the chain, and no verification on the way reports a pair that could be queried.
   */
  method RunSteps(genesis: Ledger, supply: nat, steps: seq<Step>) returns (ok: bool, reports: seq<set<StakeKey>>, e: Executor)
    requires supply < UINT64 * WEI
    requires forall key :: StakeAt(genesis, PairOf(key)) == 0
    ensures fresh(e) && (ok ==> e.Valid() && |reports| == |steps|)
    ensures |reports| <= |steps| && ReportsOnlyUnreachable(reports, steps)
  {
    e := new Executor(genesis, supply);
    ok, reports := true, [];
    for i := 0 to |steps|
      invariant fresh(e) && ok && e.Valid() && |reports| == i && ReportsOnlyUnreachable(reports, steps)
    {
      var report := {};
      match steps[i] {
        case DelegateTo(t) => ok := e.Delegate(t);
        case UndelegateFrom(t) => ok := e.Undelegate(t);
        case Verify(unreachable) => report := e.VerifyStakes(unreachable);
      }
      if !ok {
        return;
      }
      reports := reports + [report];
    }
  }
}
