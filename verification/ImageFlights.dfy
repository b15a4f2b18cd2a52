/**
  Sharing of image provisioning between concurrent node starts (driver/node/opera.go):
  one provisioning operation per image is in flight, later callers wait for it.  Every
  method is one atomic step of one caller: a critical section of the mutex, one channel
  operation, or the end of the provisioning call.
 */
module ImageFlights {
  import opened Common

  type Image = string

  /** The result of provisioning an image, or of giving up because of the caller's context. */
  datatype Result = Available | Failed(code: int) | Cancelled

  /** imageEnsureState; `done` is whether the channel of this name is closed. */
  datatype Flight = Flight(image: Image, owner: nat, done: bool, err: Result)

  /** What a call of ensureImageAvailable is doing. */
  datatype Pc =
    | Provisioning(flight: nat)              // in docker.EnsureImages
    | Completing(flight: nat, err: Result)   // before the second critical section
    | Waiting(flight: nat)
    | Returned(flight: nat, result: Result, gaveUp: bool)

  datatype Call = Call(image: Image, pc: Pc)

  predicate Owns(pc: Pc, flight: nat) {
    (pc.Provisioning? || pc.Completing?) && pc.flight == flight
  }

  /** A call and the flight it started or joined. */
  ghost predicate CallAt(c: nat, calls: map<nat, Call>, flights: seq<Flight>) {
    c in calls ==>
      var call := calls[c];
      && call.pc.flight < |flights| && flights[call.pc.flight].image == call.image
      && (Owns(call.pc, call.pc.flight) ==> flights[call.pc.flight].owner == c && !flights[call.pc.flight].done)
      && (call.pc.Returned? && !call.pc.gaveUp ==>
            flights[call.pc.flight].done && call.pc.result == flights[call.pc.flight].err)
  }

  /** A flight that is not over is the one in flight for its image and has an owner at work. */
  ghost predicate FlightAt(f: nat, calls: map<nat, Call>, flights: seq<Flight>, inFlight: map<Image, nat>) {
    f < |flights| && !flights[f].done ==>
      && flights[f].image in inFlight && inFlight[flights[f].image] == f
      && flights[f].owner in calls && Owns(calls[flights[f].owner].pc, f)
  }

  ghost predicate ImageAt(image: Image, flights: seq<Flight>, inFlight: map<Image, nat>) {
    image in inFlight ==>
      inFlight[image] < |flights| && flights[inFlight[image]].image == image && !flights[inFlight[image]].done
  }

  ghost predicate Consistent(calls: map<nat, Call>, flights: seq<Flight>, inFlight: map<Image, nat>) {
    && (forall c :: CallAt(c, calls, flights))
    && (forall f :: FlightAt(f, calls, flights, inFlight))
    && (forall image :: ImageAt(image, flights, inFlight))
  }

  predicate Provisions(c: nat, image: Image, calls: map<nat, Call>) {
    c in calls && calls[c].image == image && calls[c].pc.Provisioning?
  }

  /** At most one provisioning per image is in progress. */
  lemma OneProvisioningPerImage(calls: map<nat, Call>, flights: seq<Flight>, inFlight: map<Image, nat>, a: nat, b: nat, image: Image)
    requires Consistent(calls, flights, inFlight)
    requires Provisions(a, image, calls) && Provisions(b, image, calls)
    ensures a == b
  {
    assert CallAt(a, calls, flights) && CallAt(b, calls, flights);
    assert FlightAt(calls[a].pc.flight, calls, flights, inFlight);
    assert FlightAt(calls[b].pc.flight, calls, flights, inFlight);
  }

  /** Nobody waits in vain: the flight is over, or its owner is at work on it. */
  lemma WaitersAreServed(calls: map<nat, Call>, flights: seq<Flight>, inFlight: map<Image, nat>, c: nat)
    requires Consistent(calls, flights, inFlight) && c in calls && calls[c].pc.Waiting?
    ensures var f := calls[c].pc.flight;
      && f < |flights| && flights[f].image == calls[c].image
      && (flights[f].done || (flights[f].owner in calls && Owns(calls[flights[f].owner].pc, f)))
  {
    assert CallAt(c, calls, flights);
    assert FlightAt(calls[c].pc.flight, calls, flights, inFlight);
  }

  /** A call that did not give up returns what its flight ended with. */
  lemma ReturnsItsFlight(calls: map<nat, Call>, flights: seq<Flight>, inFlight: map<Image, nat>, c: nat)
    requires Consistent(calls, flights, inFlight) && c in calls && calls[c].pc.Returned? && !calls[c].pc.gaveUp
    ensures var f := calls[c].pc.flight;
      f < |flights| && flights[f].image == calls[c].image && flights[f].done && calls[c].pc.result == flights[f].err
  {
    assert CallAt(c, calls, flights);
  }

  /** A call moves on without starting or ending a flight. */
  lemma CallMoves(calls: map<nat, Call>, flights: seq<Flight>, inFlight: map<Image, nat>, c: nat, pc: Pc)
    requires Consistent(calls, flights, inFlight) && c in calls && pc.flight == calls[c].pc.flight
    requires Owns(calls[c].pc, pc.flight) <==> Owns(pc, pc.flight)
    requires pc.Returned? && !pc.gaveUp ==>
      pc.flight < |flights| && flights[pc.flight].done && pc.result == flights[pc.flight].err
    ensures Consistent(calls[c := Call(calls[c].image, pc)], flights, inFlight)
  {
    var after := calls[c := Call(calls[c].image, pc)];
    assert CallAt(c, calls, flights);
    forall d: nat ensures CallAt(d, after, flights) {
      assert CallAt(d, calls, flights);
    }
    forall f: nat ensures FlightAt(f, after, flights, inFlight) {
      assert FlightAt(f, calls, flights, inFlight);
    }
  }

  lemma JoinKeeps(calls: map<nat, Call>, flights: seq<Flight>, inFlight: map<Image, nat>, c: nat, image: Image)
    requires Consistent(calls, flights, inFlight) && c !in calls && image in inFlight
    ensures Consistent(calls[c := Call(image, Waiting(inFlight[image]))], flights, inFlight)
  {
    var after := calls[c := Call(image, Waiting(inFlight[image]))];
    assert ImageAt(image, flights, inFlight);
    forall d: nat ensures CallAt(d, after, flights) {
      assert CallAt(d, calls, flights);
    }
    forall f: nat ensures FlightAt(f, after, flights, inFlight) {
      assert FlightAt(f, calls, flights, inFlight);
    }
  }

  lemma LaunchKeeps(calls: map<nat, Call>, flights: seq<Flight>, inFlight: map<Image, nat>, c: nat, image: Image)
    requires Consistent(calls, flights, inFlight) && c !in calls && image !in inFlight
    ensures Consistent(calls[c := Call(image, Provisioning(|flights|))],
                       flights + [Flight(image, c, false, Available)], inFlight[image := |flights|])
  {
    var afterCalls := calls[c := Call(image, Provisioning(|flights|))];
    var after, air := flights + [Flight(image, c, false, Available)], inFlight[image := |flights|];
    forall d: nat ensures CallAt(d, afterCalls, after) {
      assert CallAt(d, calls, flights);
    }
    forall f: nat ensures FlightAt(f, afterCalls, after, air) {
      assert FlightAt(f, calls, flights, inFlight);
    }
    forall other: Image ensures ImageAt(other, after, air) {
      assert ImageAt(other, flights, inFlight);
    }
  }

  lemma CompleteKeeps(calls: map<nat, Call>, flights: seq<Flight>, inFlight: map<Image, nat>, c: nat)
    requires Consistent(calls, flights, inFlight) && c in calls && calls[c].pc.Completing?
    ensures calls[c].pc.flight < |flights| && !flights[calls[c].pc.flight].done
    ensures var f, err := calls[c].pc.flight, calls[c].pc.err;
      Consistent(calls[c := Call(calls[c].image, Returned(f, err, false))],
                 flights[f := flights[f].(err := err, done := true)], inFlight - {calls[c].image})
  {
    assert CallAt(c, calls, flights);
    var f, err := calls[c].pc.flight, calls[c].pc.err;
    var afterCalls := calls[c := Call(calls[c].image, Returned(f, err, false))];
    var after, air := flights[f := flights[f].(err := err, done := true)], inFlight - {calls[c].image};
    assert FlightAt(f, calls, flights, inFlight);
    forall d: nat ensures CallAt(d, afterCalls, after) {
      assert CallAt(d, calls, flights);
    }
    forall g: nat ensures FlightAt(g, afterCalls, after, air) {
      assert FlightAt(g, calls, flights, inFlight);
    }
    forall other: Image ensures ImageAt(other, after, air) {
      assert ImageAt(other, flights, inFlight);
    }
  }

  class ImageProvisioner {
    var inFlight: map<Image, nat>   // imageEnsureInFlight
    var flights: seq<Flight>        // every flight ever started
    var calls: map<nat, Call>

    ghost predicate Valid()
      reads this
    {
      Consistent(calls, flights, inFlight)
    }

    constructor ()
      ensures Valid() && calls == map[] && flights == []
    {
      inFlight, flights, calls := map[], [], map[];
    }

    /** The first critical section: join the flight in progress, or start a new one if there is none. */
    method Begin(c: nat, image: Image)
      requires Valid() && c !in calls
      modifies this
      ensures Valid() && c in calls && calls[c].pc.flight < |flights| && !flights[calls[c].pc.flight].done
      ensures image in old(inFlight) ==>
        && calls == old(calls)[c := Call(image, Waiting(old(inFlight)[image]))]
        && flights == old(flights) && inFlight == old(inFlight)
      ensures image !in old(inFlight) ==>
        && calls == old(calls)[c := Call(image, Provisioning(|old(flights)|))]
        && flights == old(flights) + [Flight(image, c, false, Available)]
        && inFlight == old(inFlight)[image := |old(flights)|]
    {
      assert ImageAt(image, flights, inFlight);
      if image in inFlight {
        JoinKeeps(calls, flights, inFlight, c, image);
        calls := calls[c := Call(image, Waiting(inFlight[image]))];
      } else {
        LaunchKeeps(calls, flights, inFlight, c, image);
        calls := calls[c := Call(image, Provisioning(|flights|))];
        inFlight := inFlight[image := |flights|];
        flights := flights + [Flight(image, c, false, Available)];
      }
    }

    method Move(c: nat, pc: Pc)
      requires Valid() && c in calls && pc.flight == calls[c].pc.flight
      requires Owns(calls[c].pc, pc.flight) <==> Owns(pc, pc.flight)
      requires pc.Returned? && !pc.gaveUp ==>
        pc.flight < |flights| && flights[pc.flight].done && pc.result == flights[pc.flight].err
      modifies this`calls
      ensures Valid() && calls == old(calls)[c := Call(old(calls)[c].image, pc)]
    {
      CallMoves(calls, flights, inFlight, c, pc);
      calls := calls[c := Call(calls[c].image, pc)];
    }

    /** docker.EnsureImages returns. */
    method Provisioned(c: nat, err: Result)
      requires Valid() && c in calls && calls[c].pc.Provisioning?
      modifies this`calls
      ensures Valid() && calls == old(calls)[c := Call(old(calls)[c].image, Completing(old(calls)[c].pc.flight, err))]
    {
      Move(c, Completing(calls[c].pc.flight, err));
    }

    /** The second critical section: the channel is closed, which happens once, and the flight is over. */
    method Complete(c: nat)
      requires Valid() && c in calls && calls[c].pc.Completing?
      modifies this
      ensures Valid() && old(calls)[c].pc.flight < |old(flights)| && !old(flights)[old(calls)[c].pc.flight].done
      ensures var f, err := old(calls)[c].pc.flight, old(calls)[c].pc.err;
        && calls == old(calls)[c := Call(old(calls)[c].image, Returned(f, err, false))]
        && flights == old(flights)[f := old(flights)[f].(err := err, done := true)]
        && inFlight == old(inFlight) - {old(calls)[c].image}
    {
      CompleteKeeps(calls, flights, inFlight, c);
      var f, err, image := calls[c].pc.flight, calls[c].pc.err, calls[c].image;
      flights := flights[f := flights[f].(err := err, done := true)];
      inFlight := inFlight - {image};
      calls := calls[c := Call(image, Returned(f, err, false))];
    }

    /** A waiting call sees the channel closed. */
    method Wake(c: nat) returns (woken: bool)
      requires Valid() && c in calls && calls[c].pc.Waiting?
      modifies this`calls
      ensures Valid() && old(calls)[c].pc.flight < |flights| && woken == flights[old(calls)[c].pc.flight].done
      ensures var f := old(calls)[c].pc.flight;
        calls == if woken then old(calls)[c := Call(old(calls)[c].image, Returned(f, flights[f].err, false))] else old(calls)
    {
      WaitersAreServed(calls, flights, inFlight, c);
      var f := calls[c].pc.flight;
      woken := flights[f].done;
      if woken {
        Move(c, Returned(f, flights[f].err, false));
      }
    }

    /** A waiting call gives up because its own context is done. */
    method GiveUp(c: nat)
      requires Valid() && c in calls && calls[c].pc.Waiting?
      modifies this`calls
      ensures Valid() && calls == old(calls)[c := Call(old(calls)[c].image, Returned(old(calls)[c].pc.flight, Cancelled, true))]
    {
      Move(c, Returned(calls[c].pc.flight, Cancelled, true));
    }
  }

  // ---------------------------------------------------------------- every interleaving

  datatype Op =
    | DoBegin(c: nat, image: Image)
    | DoProvisioned(c: nat, err: Result)
    | DoComplete(c: nat)
    | DoWake(c: nat)
    | DoGiveUp(c: nat)

  /** The operation is the next one of its caller. */
  predicate Enabled(op: Op, calls: map<nat, Call>) {
    match op
    case DoBegin(c, _) => c !in calls
    case DoProvisioned(c, _) => c in calls && calls[c].pc.Provisioning?
    case DoComplete(c) => c in calls && calls[c].pc.Completing?
    case DoWake(c) => c in calls && calls[c].pc.Waiting?
    case DoGiveUp(c) => c in calls && calls[c].pc.Waiting?
  }

  /** A flight that is over keeps its result. */
  ghost predicate Settled(before: seq<Flight>, after: seq<Flight>) {
    |before| <= |after| && forall f :: 0 <= f < |before| && before[f].done ==> after[f] == before[f]
  }

  method Do(p: ImageProvisioner, op: Op)
    requires p.Valid() && Enabled(op, p.calls)
    modifies p
    ensures p.Valid() && Settled(old(p.flights), p.flights)
  {
    match op
    case DoBegin(c, image) => p.Begin(c, image);
    case DoProvisioned(c, err) => p.Provisioned(c, err);
    case DoComplete(c) => p.Complete(c);
    case DoWake(c) => var woken := p.Wake(c);
    case DoGiveUp(c) => p.GiveUp(c);
  }

  /**
    In every interleaving of any number of callers at most one provisioning per image is in
    progress, and every call that returned without giving up returned the result of its flight.
   */
  method Interleave(schedule: seq<Op>) returns (p: ImageProvisioner)
    ensures fresh(p) && p.Valid()
    ensures forall a, b, image :: Provisions(a, image, p.calls) && Provisions(b, image, p.calls) ==> a == b
    ensures forall c :: c in p.calls && p.calls[c].pc.Returned? && !p.calls[c].pc.gaveUp ==>
      p.calls[c].pc.flight < |p.flights| && p.calls[c].pc.result == p.flights[p.calls[c].pc.flight].err
  {
    p := new ImageProvisioner();
    for i := 0 to |schedule|
      invariant fresh(p) && p.Valid()
    {
      if Enabled(schedule[i], p.calls) {
        Do(p, schedule[i]);
      }
    }
    forall a, b, image | Provisions(a, image, p.calls) && Provisions(b, image, p.calls)
      ensures a == b
    {
      OneProvisioningPerImage(p.calls, p.flights, p.inFlight, a, b, image);
    }
    forall c | c in p.calls && p.calls[c].pc.Returned? && !p.calls[c].pc.gaveUp
      ensures p.calls[c].pc.flight < |p.flights| && p.calls[c].pc.result == p.flights[p.calls[c].pc.flight].err
    {
      ReturnsItsFlight(p.calls, p.flights, p.inFlight, c);
    }
  }
}
