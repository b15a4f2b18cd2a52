/**
  Walks over the event DAG of a network: the one-shot count of events per creator
  (driver/checking/event_throttled.go) and the definitions both walks share.
  Events are immutable; the DAG grows by events whose parents already exist.
 */
module EventDag {
  import opened Common

  type Hash = nat
  type Creator = nat

  datatype Event = Event(creator: Creator, creationTime: nat, parents: seq<Hash>, transactions: seq<Hash>)

  type Dag = map<Hash, Event>

  // ---- Reachability ----

  /** A walk from child to parent through events that exist. */
  ghost predicate IsPath(dag: Dag, path: seq<Hash>) {
    forall i :: 0 <= i < |path| - 1 ==> path[i] in dag && path[i + 1] in dag[path[i]].parents
  }

  ghost predicate Reachable(dag: Dag, heads: set<Hash>, h: Hash) {
    exists path :: |path| > 0 && path[0] in heads && path[|path| - 1] == h && IsPath(dag, path)
  }

  lemma HeadIsReachable(dag: Dag, heads: set<Hash>, h: Hash)
    requires h in heads
    ensures Reachable(dag, heads, h)
  {
    assert IsPath(dag, [h]);
    assert [h][|[h]| - 1] == h;
  }

  lemma ParentIsReachable(dag: Dag, heads: set<Hash>, h: Hash, p: Hash)
    requires Reachable(dag, heads, h) && h in dag && p in dag[h].parents
    ensures Reachable(dag, heads, p)
  {
    var path :| |path| > 0 && path[0] in heads && path[|path| - 1] == h && IsPath(dag, path);
    var longer := path + [p];
    assert IsPath(dag, longer);
    assert longer[|longer| - 1] == p;
  }

  /** Closed under the parents of existing events. */
  ghost predicate Closed(dag: Dag, hashes: set<Hash>) {
    forall h, p :: h in hashes && h in dag && p in dag[h].parents ==> p in hashes
  }

  lemma {:induction false} PathStaysInside(dag: Dag, hashes: set<Hash>, path: seq<Hash>)
    requires Closed(dag, hashes) && IsPath(dag, path) && |path| > 0 && path[0] in hashes
    ensures path[|path| - 1] in hashes
    decreases |path|
  {
    if |path| > 1 {
      assert path[1] in hashes;
      PathStaysInside(dag, hashes, path[1..]);
    }
  }

  lemma ClosedHoldsReachable(dag: Dag, heads: set<Hash>, hashes: set<Hash>)
    requires heads <= hashes && Closed(dag, hashes)
    ensures forall h :: Reachable(dag, heads, h) ==> h in hashes
  {
    forall h | Reachable(dag, heads, h)
      ensures h in hashes
    {
      var path :| |path| > 0 && path[0] in heads && path[|path| - 1] == h && IsPath(dag, path);
      PathStaysInside(dag, hashes, path);
    }
  }

  // ---- The walk that counts ----

  /** Every hash a walk can come across: the bound that makes it terminate. */
  ghost predicate Bounds(dag: Dag, heads: set<Hash>, all: set<Hash>) {
    heads <= all && forall h, p :: h in dag && p in dag[h].parents ==> p in all
  }

  ghost function Known(dag: Dag, heads: set<Hash>): (all: set<Hash>)
    ensures Bounds(dag, heads, all)
  {
    heads + set h, p | h in dag && p in dag[h].parents :: p
  }

  function EventsBy(dag: Dag, hashes: set<Hash>, c: Creator): set<Hash> {
    set h | h in hashes && h in dag && dag[h].creator == c
  }

  /** A count for exactly the creators that have events among the given hashes. */
  ghost predicate CountsOf(counts: map<Creator, nat>, dag: Dag, hashes: set<Hash>) {
    && (forall c :: c in counts <==> EventsBy(dag, hashes, c) != {})
    && (forall c :: c in counts ==> counts[c] == |EventsBy(dag, hashes, c)|)
  }

  function Incremented(counts: map<Creator, nat>, c: Creator): map<Creator, nat> {
    counts[c := if c in counts then counts[c] + 1 else 1]
  }

  lemma EventsWith(dag: Dag, hashes: set<Hash>, h: Hash, c: Creator)
    requires h !in hashes
    ensures EventsBy(dag, hashes + {h}, c) ==
            if h in dag && dag[h].creator == c then EventsBy(dag, hashes, c) + {h} else EventsBy(dag, hashes, c)
    ensures h !in EventsBy(dag, hashes, c)
  {
  }

  lemma CountOneMore(counts: map<Creator, nat>, dag: Dag, hashes: set<Hash>, h: Hash)
    requires CountsOf(counts, dag, hashes) && h !in hashes
    ensures CountsOf(if h in dag then Incremented(counts, dag[h].creator) else counts, dag, hashes + {h})
  {
    var counts' := if h in dag then Incremented(counts, dag[h].creator) else counts;
    forall c
      ensures c in counts' <==> EventsBy(dag, hashes + {h}, c) != {}
      ensures c in counts' ==> counts'[c] == |EventsBy(dag, hashes + {h}, c)|
    {
      EventsWith(dag, hashes, h, c);
    }
  }

  /** Nothing below the starting points is forgotten. */
  ghost predicate Covers(dag: Dag, heads: set<Hash>, visited: set<Hash>, queue: seq<Hash>) {
    && (forall h :: h in heads ==> h in visited || h in queue)
    && (forall h, p :: h in visited && h in dag && p in dag[h].parents ==> p in visited || p in queue)
  }

  /** Nothing else is looked at. */
  ghost predicate StaysBelow(dag: Dag, heads: set<Hash>, all: set<Hash>, visited: set<Hash>, queue: seq<Hash>) {
    && (forall h :: h in visited ==> h in all && Reachable(dag, heads, h))
    && (forall h :: h in queue ==> h in all && Reachable(dag, heads, h))
  }

  /** The state of a walk between two iterations, for a given set of starting points. */
  ghost predicate Walking(dag: Dag, heads: set<Hash>, all: set<Hash>, visited: set<Hash>, queue: seq<Hash>) {
    Bounds(dag, heads, all) && Covers(dag, heads, visited, queue) && StaysBelow(dag, heads, all, visited, queue)
  }

  function AsSet(hashes: seq<Hash>): set<Hash> {
    set h | h in hashes
  }

  lemma WalkBegins(dag: Dag, heads: seq<Hash>)
    ensures Walking(dag, AsSet(heads), Known(dag, AsSet(heads)), {}, heads)
  {
    forall h | h in heads
      ensures Reachable(dag, AsSet(heads), h)
    {
      HeadIsReachable(dag, AsSet(heads), h);
    }
  }

  function Unvisited(parents: seq<Hash>, visited: set<Hash>): (r: seq<Hash>)
    ensures forall p :: p in r <==> p in parents && p !in visited
  {
    if parents == [] then []
    else
      var r := Unvisited(parents[..|parents| - 1], visited);
      var p := parents[|parents| - 1];
      if p in visited then r else r + [p]
  }

  lemma WalkSkips(dag: Dag, heads: set<Hash>, all: set<Hash>, visited: set<Hash>, rest: seq<Hash>, id: Hash)
    requires Walking(dag, heads, all, visited, rest + [id]) && id in visited
    ensures Walking(dag, heads, all, visited, rest)
  {
    assert forall h :: h in rest + [id] <==> h in rest || h == id;
    assert Covers(dag, heads, visited, rest);
  }

  lemma VisitCovers(dag: Dag, heads: set<Hash>, visited: set<Hash>, rest: seq<Hash>, id: Hash, more: seq<Hash>)
    requires Covers(dag, heads, visited, rest + [id])
    requires id in dag ==> forall p :: p in dag[id].parents ==> p in more || p in visited + {id}
    ensures Covers(dag, heads, visited + {id}, rest + more)
  {
    assert forall h :: h in rest + [id] <==> h in rest || h == id;
    assert forall h :: h in rest + more <==> h in rest || h in more;
  }

  lemma VisitStaysBelow(dag: Dag, heads: set<Hash>, all: set<Hash>, visited: set<Hash>,
                        rest: seq<Hash>, id: Hash, more: seq<Hash>)
    requires Bounds(dag, heads, all) && StaysBelow(dag, heads, all, visited, rest + [id])
    requires forall p :: p in more ==> id in dag && p in dag[id].parents
    ensures StaysBelow(dag, heads, all, visited + {id}, rest + more)
  {
    assert id in rest + [id];
    assert forall h :: h in rest ==> h in rest + [id];
    forall p | p in more
      ensures Reachable(dag, heads, p)
    {
      ParentIsReachable(dag, heads, id, p);
    }
  }

  /** Visiting an event and queueing its parents, or at least the unvisited ones, goes on with the walk. */
  lemma WalkVisits(dag: Dag, heads: set<Hash>, all: set<Hash>, visited: set<Hash>,
                   rest: seq<Hash>, id: Hash, more: seq<Hash>)
    requires Walking(dag, heads, all, visited, rest + [id])
    requires forall p :: p in more ==> id in dag && p in dag[id].parents
    requires id in dag ==> forall p :: p in dag[id].parents ==> p in more || p in visited + {id}
    ensures Walking(dag, heads, all, visited + {id}, rest + more)
  {
    VisitCovers(dag, heads, visited, rest, id, more);
    VisitStaysBelow(dag, heads, all, visited, rest, id, more);
  }

  lemma WalkEnds(dag: Dag, heads: set<Hash>, all: set<Hash>, visited: set<Hash>)
    requires Walking(dag, heads, all, visited, [])
    ensures heads <= visited && Closed(dag, visited)
    ensures forall h :: h in visited <==> Reachable(dag, heads, h)
  {
    ClosedHoldsReachable(dag, heads, visited);
  }

  ghost predicate Counting(dag: Dag, heads: set<Hash>, all: set<Hash>, visited: set<Hash>, queue: seq<Hash>,
                           counts: map<Creator, nat>, fetched: seq<Hash>)
  {
    && Walking(dag, heads, all, visited, queue) && CountsOf(counts, dag, visited)
    && Distinct(fetched) && AsSet(fetched) == visited
  }

  lemma CountingSkips(dag: Dag, heads: set<Hash>, all: set<Hash>, visited: set<Hash>, rest: seq<Hash>, id: Hash,
                      counts: map<Creator, nat>, fetched: seq<Hash>)
    requires Counting(dag, heads, all, visited, rest + [id], counts, fetched) && id in visited
    ensures Counting(dag, heads, all, visited, rest, counts, fetched)
  {
    WalkSkips(dag, heads, all, visited, rest, id);
  }

  /** The fetched events are exactly the reachable ones, all readable, and counted. */
  ghost predicate CountedAll(dag: Dag, heads: set<Hash>, unreadable: set<Hash>, counts: map<Creator, nat>, fetched: seq<Hash>) {
    && (forall h :: h in fetched <==> Reachable(dag, heads, h))
    && CountsOf(counts, dag, AsSet(fetched))
    && (forall h :: h in unreadable ==> !Reachable(dag, heads, h))
  }

  lemma CountingEnds(dag: Dag, heads: set<Hash>, all: set<Hash>, visited: set<Hash>, unreadable: set<Hash>,
                     counts: map<Creator, nat>, fetched: seq<Hash>)
    requires Counting(dag, heads, all, visited, [], counts, fetched) && visited !! unreadable
    ensures CountedAll(dag, heads, unreadable, counts, fetched)
  {
    WalkEnds(dag, heads, all, visited);
    assert forall h :: h in fetched <==> h in AsSet(fetched);
  }

  lemma FetchIsNew(fetched: seq<Hash>, id: Hash)
    requires Distinct(fetched) && id !in fetched
    ensures Distinct(fetched + [id]) && AsSet(fetched + [id]) == AsSet(fetched) + {id}
  {
  }

  /** The parents that a visit appends to the queue. */
  function Queued(dag: Dag, visited: set<Hash>, id: Hash): seq<Hash> {
    if id in dag then Unvisited(dag[id].parents, visited) else []
  }

  lemma CountingVisits(dag: Dag, heads: set<Hash>, all: set<Hash>, visited: set<Hash>, rest: seq<Hash>, id: Hash,
                       counts: map<Creator, nat>, fetched: seq<Hash>)
    requires Counting(dag, heads, all, visited, rest + [id], counts, fetched) && id !in visited
    ensures Counting(dag, heads, all, visited + {id}, rest + Queued(dag, visited + {id}, id),
                     if id in dag then Incremented(counts, dag[id].creator) else counts, fetched + [id])
    ensures id in all && Reachable(dag, heads, id)
  {
    assert id in rest + [id];
    FetchIsNew(fetched, id);
    CountOneMore(counts, dag, visited, id);
    WalkVisits(dag, heads, all, visited, rest, id, Queued(dag, visited + {id}, id));
  }

  /** One iteration: what was visited is skipped, anything else is fetched and its parents are queued. */
  lemma CountingTurn(dag: Dag, heads: set<Hash>, all: set<Hash>, visited: set<Hash>, queue: seq<Hash>,
                     counts: map<Creator, nat>, fetched: seq<Hash>)
    requires queue != [] && Counting(dag, heads, all, visited, queue, counts, fetched)
    ensures var id, rest := queue[|queue| - 1], queue[..|queue| - 1];
            if id in visited then Counting(dag, heads, all, visited, rest, counts, fetched)
            else
              && id in all && Reachable(dag, heads, id)
              && if id in dag
                 then Counting(dag, heads, all, visited + {id}, rest + Unvisited(dag[id].parents, visited + {id}),
                               Incremented(counts, dag[id].creator), fetched + [id])
                 else Counting(dag, heads, all, visited + {id}, rest, counts, fetched + [id])
  {
    var id, rest := queue[|queue| - 1], queue[..|queue| - 1];
    assert queue == rest + [id];
    if id in visited {
      CountingSkips(dag, heads, all, visited, rest, id, counts, fetched);
    } else {
      CountingVisits(dag, heads, all, visited, rest, id, counts, fetched);
      assert rest + [] == rest;
    }
  }

  datatype CountResult = Counted(counts: map<Creator, nat>) | ReadFailed(at: Hash) | Cancelled

  /**
    countEventsFromHeads. `unreadable` are the hashes whose fetch fails; a hash that
    is not in the DAG is fetched without a result. If the context is cancelled at all,
    the walk may notice it before any iteration. `fetched` records the fetches in order.
   */
  method CountEventsFromHeads(dag: Dag, heads: seq<Hash>, unreadable: set<Hash>, cancelled: bool)
    returns (r: CountResult, ghost fetched: seq<Hash>)
    ensures r.Cancelled? ==> cancelled
    ensures Distinct(fetched)
    ensures r.Counted? ==> CountedAll(dag, AsSet(heads), unreadable, r.counts, fetched)
    ensures r.ReadFailed? ==> r.at in unreadable && Reachable(dag, AsSet(heads), r.at)
  {
    var counts: map<Creator, nat> := map[];
    var visited: set<Hash> := {};
    var queue := heads;
    fetched := [];
    WalkBegins(dag, heads);
    ghost var from, all := AsSet(heads), Known(dag, AsSet(heads));
    while |queue| > 0
      invariant Counting(dag, from, all, visited, queue, counts, fetched)
      invariant visited !! unreadable
      decreases all - visited, |queue|
    {
      var noticed: bool := *;
      if cancelled && noticed {
        return Cancelled, fetched;
      }
      CountingTurn(dag, from, all, visited, queue, counts, fetched);
      var id := queue[|queue| - 1];
      queue := queue[..|queue| - 1];
      if id in visited {
        continue;
      }
      visited := visited + {id};
      fetched := fetched + [id];
      if id in unreadable {
        return ReadFailed(id), fetched;
      }
      if id !in dag {
        continue;
      }
      counts := Incremented(counts, dag[id].creator);
      queue := queue + Unvisited(dag[id].parents, visited);
    }
    CountingEnds(dag, from, all, visited, unreadable, counts, fetched);
    r := Counted(counts);
  }

  // ---- Snapshots of a growing DAG ----

  /** The DAG grew by appending the hashes in this order, each after its parents. */
  ghost predicate GrownInOrder(dag: Dag, order: seq<Hash>) {
    && Distinct(order) && (forall h :: h in order <==> h in dag)
    && (forall i, p :: 0 <= i < |order| && p in dag[order[i]].parents ==> p in order[..i])
  }

  ghost predicate IsChildless(dag: Dag, h: Hash) {
    forall child :: child in dag ==> h !in dag[child].parents
  }

  ghost predicate AreHeads(dag: Dag, heads: seq<Hash>) {
    forall h :: h in heads <==> h in dag && IsChildless(dag, h)
  }

  /** Every event is below some head: following children ends at a childless event. */
  lemma {:induction false} EveryEventIsReachable(dag: Dag, order: seq<Hash>, heads: seq<Hash>, i: nat)
    requires GrownInOrder(dag, order) && AreHeads(dag, heads) && i < |order|
    ensures Reachable(dag, AsSet(heads), order[i])
    decreases |order| - i
  {
    var h := order[i];
    if IsChildless(dag, h) {
      assert h in heads;
      HeadIsReachable(dag, AsSet(heads), h);
    } else {
      var child :| child in dag && h in dag[child].parents;
      var j := ChildIsLater(dag, order, i, child);
      EveryEventIsReachable(dag, order, heads, j);
      ParentIsReachable(dag, AsSet(heads), child, h);
    }
  }

  lemma ChildIsLater(dag: Dag, order: seq<Hash>, i: nat, child: Hash) returns (j: nat)
    requires GrownInOrder(dag, order)
    requires i < |order| && child in dag && order[i] in dag[child].parents
    ensures i < j < |order| && order[j] == child
  {
    assert child in order;
    j :| 0 <= j < |order| && order[j] == child;
    assert order[i] in order[..j];
  }

  lemma ReachableExists(dag: Dag, order: seq<Hash>, heads: seq<Hash>)
    requires GrownInOrder(dag, order) && AreHeads(dag, heads)
    ensures forall h :: Reachable(dag, AsSet(heads), h) <==> h in dag
  {
    forall h | h in dag
      ensures Reachable(dag, AsSet(heads), h)
    {
      var i :| 0 <= i < |order| && order[i] == h;
      EveryEventIsReachable(dag, order, heads, i);
    }
    assert Closed(dag, dag.Keys) by {
      forall h, p | h in dag && p in dag[h].parents
        ensures p in dag
      {
        var i :| 0 <= i < |order| && order[i] == h;
        assert p in order[..i];
      }
    }
    ClosedHoldsReachable(dag, AsSet(heads), dag.Keys);
  }

  /**
    A snapshot from the heads of a grown DAG counts all of its events, each fetched
    once; it fails only on an unreadable event of the DAG.
   */
  method SnapshotCounts(dag: Dag, heads: seq<Hash>, unreadable: set<Hash>, cancelled: bool, ghost order: seq<Hash>)
    returns (r: CountResult, ghost fetched: seq<Hash>)
    requires GrownInOrder(dag, order) && AreHeads(dag, heads)
    ensures Distinct(fetched)
    ensures r.Counted? ==> AsSet(fetched) == dag.Keys && CountsOf(r.counts, dag, dag.Keys) && unreadable !! dag.Keys
    ensures r.Cancelled? ==> cancelled
    ensures r.ReadFailed? ==> r.at in unreadable && r.at in dag
  {
    r, fetched := CountEventsFromHeads(dag, heads, unreadable, cancelled);
    match r
    case Counted(counts) => CountedAllEvents(dag, order, heads, unreadable, counts, fetched);
    case ReadFailed(at) => ReachableExists(dag, order, heads);
    case Cancelled =>
  }

  lemma CountedAllEvents(dag: Dag, order: seq<Hash>, heads: seq<Hash>, unreadable: set<Hash>,
                         counts: map<Creator, nat>, fetched: seq<Hash>)
    requires GrownInOrder(dag, order) && AreHeads(dag, heads)
    requires CountedAll(dag, AsSet(heads), unreadable, counts, fetched)
    ensures AsSet(fetched) == dag.Keys && CountsOf(counts, dag, dag.Keys) && unreadable !! dag.Keys
  {
    ReachableExists(dag, order, heads);
    assert AsSet(fetched) == dag.Keys;
  }

  function CountIn(counts: map<Creator, nat>, c: Creator): nat {
    if c in counts then counts[c] else 0
  }

  /** sampleEmissionRates: events per second between two snapshots of one epoch. */
  function EmissionRates(first: map<Creator, nat>, second: map<Creator, nat>, seconds: real): map<Creator, real>
    requires seconds > 0.0
  {
    map c | c in second :: (second[c] - CountIn(first, c)) as real / seconds
  }

  lemma LaterSnapshotDominates(earlier: Dag, later: Dag, first: map<Creator, nat>, second: map<Creator, nat>, c: Creator)
    requires forall h :: h in earlier ==> h in later && later[h] == earlier[h]
    requires CountsOf(first, earlier, earlier.Keys) && CountsOf(second, later, later.Keys)
    ensures c in first ==> c in second
    ensures CountIn(first, c) <= CountIn(second, c)
  {
    var a, b := EventsBy(earlier, earlier.Keys, c), EventsBy(later, later.Keys, c);
    assert a <= b;
    SubsetIsSmaller(a, b);
  }

  lemma SubsetIsSmaller(a: set<Hash>, b: set<Hash>)
    requires a <= b
    ensures |a| <= |b|
  {
    assert b == a + (b - a);
  }

  lemma QuotientOfDifference(a: nat, b: nat, seconds: real)
    requires a <= b && seconds > 0.0
    ensures (b - a) as real / seconds >= 0.0
    ensures (b - a) as real / seconds * seconds == (b - a) as real
  {
  }

  /** No validator is ever reported to emit at a negative rate. */
  lemma RatesAreNonNegative(earlier: Dag, later: Dag, first: map<Creator, nat>, second: map<Creator, nat>,
                            seconds: real, c: Creator)
    requires forall h :: h in earlier ==> h in later && later[h] == earlier[h]
    requires CountsOf(first, earlier, earlier.Keys) && CountsOf(second, later, later.Keys) && seconds > 0.0
    ensures var rates := EmissionRates(first, second, seconds);
            && (c in first ==> c in rates)
            && (c in rates ==> rates[c] >= 0.0)
            && (c in rates ==>
                  rates[c] * seconds == (|EventsBy(later, later.Keys, c)| - |EventsBy(earlier, earlier.Keys, c)|) as real)
  {
    LaterSnapshotDominates(earlier, later, first, second, c);
    QuotientOfDifference(CountIn(first, c), CountIn(second, c), seconds);
  }

  /** What the network answers when a snapshot is taken: its epoch, and the DAG of that epoch. */
  datatype View = View(epoch: nat, at: real, dag: Dag, heads: seq<Hash>, unreadable: set<Hash>, cancelled: bool)

  /** The DAG of one epoch, grown in some order, with its childless events as heads. */
  ghost predicate IsView(v: View) {
    AreHeads(v.dag, v.heads) && exists order :: GrownInOrder(v.dag, order)
  }

  /** The epoch has heads, and every event can be read. */
  predicate Countable(v: View) {
    v.heads != [] && v.unreadable !! v.dag.Keys
  }

  /** snapshotEpochCounts: unless cancelled, it succeeds if and only if there is something to count and all of it can be read. */
  method Snapshot(v: View) returns (counts: Option<map<Creator, nat>>)
    requires IsView(v)
    ensures counts.Some? ==> CountsOf(counts.value, v.dag, v.dag.Keys) && Countable(v)
    ensures !v.cancelled ==> (counts.Some? <==> Countable(v))
  {
    if |v.heads| == 0 {
      return None;
    }
    ghost var order :| GrownInOrder(v.dag, order);
    var r, fetched := SnapshotCounts(v.dag, v.heads, v.unreadable, v.cancelled, order);
    if !r.Counted? {
      return None;
    }
    SomethingIsCounted(v, r.counts);
    if r.counts == map[] {
      return None;
    }
    return Some(r.counts);
  }

  lemma SomethingIsCounted(v: View, counts: map<Creator, nat>)
    requires AreHeads(v.dag, v.heads) && v.heads != [] && CountsOf(counts, v.dag, v.dag.Keys)
    ensures counts != map[]
  {
    var h := v.heads[0];
    assert h in v.heads && h in EventsBy(v.dag, v.dag.Keys, v.dag[h].creator);
    assert v.dag[h].creator in counts;
  }

  ghost predicate RateAt(c: Creator, rates: map<Creator, real>, first: View, second: View) {
    var added := |EventsBy(second.dag, second.dag.Keys, c)| - |EventsBy(first.dag, first.dag.Keys, c)|;
    && (c in rates <==> EventsBy(second.dag, second.dag.Keys, c) != {})
    && (c in rates ==> rates[c] >= 0.0 && rates[c] * (second.at - first.at) == added as real)
  }

  /** The rates of the validators that have events: those added between two views, per second. */
  ghost predicate RatesBetween(rates: map<Creator, real>, first: View, second: View) {
    && first.epoch == second.epoch && first.at < second.at
    && forall c :: RateAt(c, rates, first, second)
  }

  lemma RatesAreRight(first: View, second: View, before: map<Creator, nat>, after: map<Creator, nat>)
    requires first.epoch == second.epoch && first.at < second.at
    requires forall h :: h in first.dag ==> h in second.dag && second.dag[h] == first.dag[h]
    requires CountsOf(before, first.dag, first.dag.Keys) && CountsOf(after, second.dag, second.dag.Keys)
    ensures RatesBetween(EmissionRates(before, after, second.at - first.at), first, second)
  {
    var rates := EmissionRates(before, after, second.at - first.at);
    forall c: Creator
      ensures RateAt(c, rates, first, second)
    {
      RatesAreNonNegative(first.dag, second.dag, before, after, second.at - first.at, c);
    }
  }

  /** There are rates to sample: two countable views of one epoch, the second taken later. */
  predicate Comparable(first: View, second: View) {
    Countable(first) && Countable(second) && first.epoch == second.epoch && first.at < second.at
  }

  /** sampleEmissionRates: unless cancelled, it succeeds if and only if there are rates to sample. */
  method SampleEmissionRates(first: View, second: View) returns (rates: Option<map<Creator, real>>)
    requires IsView(first) && IsView(second)
    requires first.epoch == second.epoch ==> forall h :: h in first.dag ==> h in second.dag && second.dag[h] == first.dag[h]
    ensures rates.Some? ==> RatesBetween(rates.value, first, second) && Comparable(first, second)
    ensures !first.cancelled && !second.cancelled ==> (rates.Some? <==> Comparable(first, second))
  {
    var before := Snapshot(first);
    if before.None? {
      return None;
    }
    var after := Snapshot(second);
    if after.None? || first.epoch != second.epoch || second.at <= first.at {
      return None;
    }
    RatesAreRight(first, second, before.value, after.value);
    return Some(EmissionRates(before.value, after.value, second.at - first.at));
  }

  // ---- The verdict on throttling ----

  const MIN_GAP_RATIO := 2.0

  ghost predicate IsListed(expected: set<Creator>, rates: map<Creator, real>, c: Creator) {
    c in rates && c in expected
  }

  ghost predicate IsUnlisted(expected: set<Creator>, rates: map<Creator, real>, c: Creator) {
    c in rates && c !in expected
  }

  /** Every unlisted validator emits, and at least twice as fast as every listed one. */
  ghost predicate Throttled(expected: set<Creator>, rates: map<Creator, real>) {
    && (exists c :: IsListed(expected, rates, c))
    && (exists c :: IsUnlisted(expected, rates, c))
    && (forall u, l :: IsUnlisted(expected, rates, u) && IsListed(expected, rates, l) ==>
          rates[u] > 0.0 && rates[u] >= 2.0 * rates[l])
  }

  lemma RatioTest(low: real, high: real)
    requires high > 0.0
    ensures low / high >= MIN_GAP_RATIO <==> low >= MIN_GAP_RATIO * high
  {
    assert low / high * high == low;
  }

  /** verifyThrottled, in any order the map is iterated. */
  method VerifyThrottled(expected: set<Creator>, rates: map<Creator, real>) returns (ok: bool)
    ensures (forall c :: c in rates ==> rates[c] >= 0.0) ==> (ok <==> Throttled(expected, rates))
  {
    var maxListed, minUnlisted, haveListed, haveUnlisted := 0.0, 0.0, false, false;
    ghost var slowest, fastest: Creator := 0, 0;
    var ids := rates.Keys;
    while ids != {}
      invariant ids <= rates.Keys
      invariant haveListed ==> fastest in rates.Keys - ids && fastest in expected && maxListed == rates[fastest]
      invariant haveUnlisted ==> slowest in rates.Keys - ids && slowest !in expected && minUnlisted == rates[slowest]
      invariant forall c :: c in rates.Keys - ids && c in expected ==> haveListed && rates[c] <= maxListed
      invariant forall c :: c in rates.Keys - ids && c !in expected ==> haveUnlisted && minUnlisted <= rates[c]
      decreases ids
    {
      var id :| id in ids;
      var r := rates[id];
      ids := ids - {id};
      if id in expected {
        if !haveListed || r > maxListed {
          maxListed, fastest := r, id;
        }
        haveListed := true;
      } else {
        if !haveUnlisted || r < minUnlisted {
          minUnlisted, slowest := r, id;
        }
        haveUnlisted := true;
      }
    }
    assert haveListed ==> IsListed(expected, rates, fastest);
    assert haveUnlisted ==> IsUnlisted(expected, rates, slowest);
    if !haveListed || !haveUnlisted {
      return false;
    }
    if maxListed == 0.0 {
      return minUnlisted != 0.0;
    }
    if maxListed > 0.0 {
      RatioTest(minUnlisted, maxListed);
    }
    ok := minUnlisted / maxListed >= MIN_GAP_RATIO;
  }

  /** One attempt of the check: its verdict is right for the rates at which the validators added events. */
  method CheckThrottled(expected: set<Creator>, first: View, second: View) returns (rates: Option<map<Creator, real>>, ok: bool)
    requires IsView(first) && IsView(second)
    requires first.epoch == second.epoch ==> forall h :: h in first.dag ==> h in second.dag && second.dag[h] == first.dag[h]
    ensures rates.Some? ==> RatesBetween(rates.value, first, second) && Comparable(first, second)
    ensures !first.cancelled && !second.cancelled ==> (rates.Some? <==> Comparable(first, second))
    ensures ok <==> rates.Some? && Throttled(expected, rates.value)
  {
    rates := SampleEmissionRates(first, second);
    ok := false;
    if rates.Some? {
      assert forall c :: c in rates.value ==> RateAt(c, rates.value, first, second);
      ok := VerifyThrottled(expected, rates.value);
    }
  }
}
