/**
  The emission observer (driver/monitoring/transactions/emissions.go): a walk over
  the event DAG whose visited set persists across polls.
 */
module Emissions {
  import opened Common
  import opened EventDag

  /** A transaction marked as emitted at the creation time of the event carrying it. */
  datatype Mark = Mark(transaction: Hash, at: nat)

  /** The mark is of a transaction of this event, at the event's creation time. */
  predicate Carries(event: Event, m: Mark) {
    m.transaction in event.transactions && m.at == event.creationTime
  }

  /** Every transaction of the event is marked at the event's creation time. */
  ghost predicate AllMarked(event: Event, marks: set<Mark>) {
    forall t :: t in event.transactions ==> Mark(t, event.creationTime) in marks
  }

  /** All parents and, from poll to poll, all events stay available. */
  ghost predicate WellFormed(dag: Dag) {
    Closed(dag, dag.Keys)
  }

  ghost predicate GrowsTo(dag: Dag, later: Dag) {
    forall h :: h in dag ==> h in later && later[h] == dag[h]
  }

  lemma {:induction false} PathSurvives(dag: Dag, later: Dag, path: seq<Hash>)
    requires WellFormed(dag) && GrowsTo(dag, later) && |path| > 0 && path[0] in dag
    requires IsPath(later, path)
    ensures IsPath(dag, path) && path[|path| - 1] in dag
    decreases |path|
  {
    if |path| > 1 {
      assert path[1] in dag[path[0]].parents;
      PathSurvives(dag, later, path[1..]);
      forall i | 0 <= i < |path| - 1
        ensures path[i] in dag && path[i + 1] in dag[path[i]].parents
      {
        if i > 0 {
          assert path[1..][i - 1] == path[i] && path[1..][i] == path[i + 1];
        }
      }
    }
  }

  /** Growth adds nothing below events that were already there. */
  lemma GrowthKeepsReachable(dag: Dag, later: Dag, heads: set<Hash>, h: Hash)
    requires WellFormed(dag) && GrowsTo(dag, later) && heads <= dag.Keys
    ensures Reachable(dag, heads, h) <==> Reachable(later, heads, h)
  {
    if Reachable(dag, heads, h) {
      var path :| |path| > 0 && path[0] in heads && path[|path| - 1] == h && IsPath(dag, path);
      assert IsPath(later, path);
    }
    if Reachable(later, heads, h) {
      var path :| |path| > 0 && path[0] in heads && path[|path| - 1] == h && IsPath(later, path);
      PathSurvives(dag, later, path);
    }
  }

  /** Exactly the events below the given heads. */
  ghost predicate IsBelow(dag: Dag, heads: set<Hash>, visited: set<Hash>) {
    heads <= visited <= dag.Keys && Closed(dag, visited) && forall h :: h in visited ==> Reachable(dag, heads, h)
  }

  lemma BelowMeansReachable(dag: Dag, heads: set<Hash>, visited: set<Hash>)
    requires IsBelow(dag, heads, visited)
    ensures forall h :: h in visited <==> Reachable(dag, heads, h)
  {
    ClosedHoldsReachable(dag, heads, visited);
  }

  /** The marks of exactly the visited events. */
  ghost predicate MarksBelow(dag: Dag, visited: set<Hash>, marks: set<Mark>) {
    && (forall h :: h in visited && h in dag ==> AllMarked(dag[h], marks))
    && (forall m :: m in marks ==> exists h :: h in visited && h in dag && Carries(dag[h], m))
  }

  /** What was complete stays complete while the DAG grows. */
  lemma CompleteSurvivesGrowth(dag: Dag, later: Dag, heads: set<Hash>, visited: set<Hash>, marks: set<Mark>)
    requires WellFormed(dag) && GrowsTo(dag, later)
    requires IsBelow(dag, heads, visited) && MarksBelow(dag, visited, marks)
    ensures IsBelow(later, heads, visited) && MarksBelow(later, visited, marks)
  {
    forall h | h in visited
      ensures Reachable(later, heads, h)
    {
      GrowthKeepsReachable(dag, later, heads, h);
    }
  }

  // ---- What one walk visits ----

  /** The DAG without the events visited before a walk: where that walk still looks. */
  function Without(dag: Dag, visited: set<Hash>): Dag {
    map h | h in dag && h !in visited :: dag[h]
  }

  /** Not visited before, and below the heads by a path of events that were not either. */
  ghost predicate Fresh(dag: Dag, heads: set<Hash>, visited: set<Hash>, h: Hash) {
    h !in visited && Reachable(Without(dag, visited), heads, h)
  }

  /** An unvisited event is fresh if and only if it is a head or a parent of a fresh event. */
  lemma FreshIff(dag: Dag, heads: set<Hash>, visited: set<Hash>, h: Hash)
    requires h !in visited
    ensures Fresh(dag, heads, visited, h) <==>
            h in heads || exists child :: Fresh(dag, heads, visited, child) && child in dag && h in dag[child].parents
  {
    var rest := Without(dag, visited);
    if h in heads {
      HeadIsReachable(rest, heads, h);
    } else if child :| Fresh(dag, heads, visited, child) && child in dag && h in dag[child].parents {
      ParentIsReachable(rest, heads, child, h);
    }
    if Fresh(dag, heads, visited, h) && h !in heads {
      var path :| |path| > 0 && path[0] in heads && path[|path| - 1] == h && IsPath(rest, path);
      var shorter, n := path[..|path| - 1], |path| - 2;
      assert IsPath(rest, shorter) && shorter[|shorter| - 1] == path[n];
      assert Fresh(dag, heads, visited, path[n]) && h in rest[path[n]].parents;
    }
  }

  /** A walk from heads that were all visited before finds nothing, whatever was missed below them. */
  lemma NothingFreshBelowVisited(dag: Dag, heads: set<Hash>, visited: set<Hash>, h: Hash)
    requires heads <= visited
    ensures !Fresh(dag, heads, visited, h)
  {
    if Fresh(dag, heads, visited, h) {
      ClosedHoldsReachable(Without(dag, visited), heads, visited);
    }
  }

  lemma {:induction false} PathAvoids(dag: Dag, visited: set<Hash>, path: seq<Hash>)
    requires Closed(dag, visited) && IsPath(dag, path) && |path| > 0 && path[|path| - 1] !in visited
    ensures IsPath(Without(dag, visited), path)
    decreases |path|
  {
    if path[0] in visited {
      PathStaysInside(dag, visited, path);
    }
    if |path| > 1 {
      var rest := path[1..];
      PathAvoids(dag, visited, rest);
      forall i | 0 <= i < |path| - 1
        ensures path[i] in Without(dag, visited) && path[i + 1] in dag[path[i]].parents
      {
        if i > 0 {
          assert rest[i - 1] == path[i] && rest[i] == path[i + 1];
        }
      }
    }
  }

  /** Where nothing was missed before, fresh is what is below the heads and not visited. */
  lemma FreshWhereClosed(dag: Dag, heads: set<Hash>, visited: set<Hash>, h: Hash)
    requires Closed(dag, visited)
    ensures Fresh(dag, heads, visited, h) <==> Reachable(dag, heads, h) && h !in visited
  {
    if Fresh(dag, heads, visited, h) {
      FreshIsReachable(dag, heads, visited, h);
    }
    if Reachable(dag, heads, h) && h !in visited {
      var path :| |path| > 0 && path[0] in heads && path[|path| - 1] == h && IsPath(dag, path);
      PathAvoids(dag, visited, path);
    }
  }

  lemma FreshIsReachable(dag: Dag, heads: set<Hash>, visited: set<Hash>, h: Hash)
    requires Fresh(dag, heads, visited, h)
    ensures Reachable(dag, heads, h)
  {
    var path :| |path| > 0 && path[0] in heads && path[|path| - 1] == h && IsPath(Without(dag, visited), path);
    assert IsPath(dag, path);
  }

  /** The state of a walk between two iterations, `before` being what was visited when it began. */
  ghost predicate Roaming(dag: Dag, heads: set<Hash>, before: set<Hash>, visited: set<Hash>, pending: seq<Hash>) {
    var rest := Without(dag, before);
    && before <= visited && Covers(rest, heads, visited, pending)
    && StaysBelow(rest, heads, Known(rest, heads), visited - before, pending)
  }

  lemma RoamingBegins(dag: Dag, heads: seq<Hash>, before: set<Hash>)
    ensures Roaming(dag, AsSet(heads), before, before, heads)
  {
    forall h | h in heads
      ensures Reachable(Without(dag, before), AsSet(heads), h)
    {
      assert h in AsSet(heads);
      HeadIsReachable(Without(dag, before), AsSet(heads), h);
    }
  }

  /** What one iteration of a walk does with the last pending event. */
  datatype Turn =
    | Skip(rest: seq<Hash>)                                   // visited before
    | Fail(at: Hash, rest: seq<Hash>)                         // its payload cannot be read
    | Absent(at: Hash, rest: seq<Hash>)                       // it does not exist
    | Visit(at: Hash, rest: seq<Hash>, pending: seq<Hash>)    // its parents are pending now

  function NextTurn(dag: Dag, unreadable: set<Hash>, visited: set<Hash>, pending: seq<Hash>): (t: Turn)
    requires pending != []
    ensures t.rest == pending[..|pending| - 1]
    ensures !t.Skip? ==> t.at == pending[|pending| - 1] && t.at !in visited
    ensures t.Visit? <==> pending[|pending| - 1] in dag && pending[|pending| - 1] !in visited + unreadable
  {
    var id, rest := pending[|pending| - 1], pending[..|pending| - 1];
    if id in visited then Skip(rest)
    else if id in unreadable then Fail(id, rest)
    else if id !in dag then Absent(id, rest)
    else Visit(id, rest, rest + dag[id].parents)
  }

  lemma RoamingSkips(dag: Dag, heads: set<Hash>, before: set<Hash>, visited: set<Hash>, rest: seq<Hash>, id: Hash)
    requires Roaming(dag, heads, before, visited, rest + [id]) && id in visited
    ensures Roaming(dag, heads, before, visited, rest)
  {
    assert forall h :: h in rest + [id] <==> h in rest || h == id;
  }

  lemma RoamingVisits(dag: Dag, heads: set<Hash>, before: set<Hash>, visited: set<Hash>, rest: seq<Hash>, id: Hash)
    requires Roaming(dag, heads, before, visited, rest + [id]) && id !in visited
    ensures Fresh(dag, heads, before, id)
    ensures Roaming(dag, heads, before, visited + {id}, if id in dag then rest + dag[id].parents else rest)
  {
    var left, more := Without(dag, before), if id in dag then dag[id].parents else [];
    assert id in rest + [id];
    VisitCovers(left, heads, visited, rest, id, more);
    VisitStaysBelow(left, heads, Known(left, heads), visited - before, rest, id, more);
    assert visited + {id} - before == visited - before + {id};
    assert rest + [] == rest;
  }

  lemma RoamingEnds(dag: Dag, heads: set<Hash>, before: set<Hash>, visited: set<Hash>)
    requires Roaming(dag, heads, before, visited, [])
    ensures forall h :: h in visited <==> h in before || Fresh(dag, heads, before, h)
  {
    ClosedHoldsReachable(Without(dag, before), heads, visited);
  }

  lemma RoamingIsFresh(dag: Dag, heads: set<Hash>, before: set<Hash>, visited: set<Hash>, pending: seq<Hash>)
    requires Roaming(dag, heads, before, visited, pending)
    ensures forall h :: h in visited ==> h in before || Fresh(dag, heads, before, h)
  {
  }

  /** The marks added by a walk are those of the events it visited and could read. */
  predicate ReadNow(dag: Dag, unreadable: set<Hash>, before: set<Hash>, visited: set<Hash>, h: Hash) {
    h in visited && h !in before && h in dag && h !in unreadable
  }

  ghost predicate NewMarks(dag: Dag, unreadable: set<Hash>, before: set<Hash>, visited: set<Hash>,
                           marksBefore: set<Mark>, marks: set<Mark>)
  {
    && marksBefore <= marks
    && (forall h :: ReadNow(dag, unreadable, before, visited, h) ==> AllMarked(dag[h], marks))
    && (forall m :: m in marks ==>
          m in marksBefore || exists h :: ReadNow(dag, unreadable, before, visited, h) && Carries(dag[h], m))
  }

  /** The events found by a walk are those it visited and could read. */
  ghost predicate FoundNow(dag: Dag, unreadable: set<Hash>, before: set<Hash>, visited: set<Hash>,
                           foundBefore: set<Hash>, found: set<Hash>)
  {
    forall h :: h in found <==> h in foundBefore || ReadNow(dag, unreadable, before, visited, h)
  }

  lemma FoundNext(dag: Dag, unreadable: set<Hash>, before: set<Hash>, visited: set<Hash>,
                  foundBefore: set<Hash>, found: set<Hash>, turn: Turn)
    requires FoundNow(dag, unreadable, before, visited, foundBefore, found)
    requires !turn.Skip? ==> turn.at !in before && (turn.Visit? <==> turn.at in dag && turn.at !in unreadable)
    ensures FoundNow(dag, unreadable, before, if turn.Skip? then visited else visited + {turn.at}, foundBefore,
                     if turn.Visit? then found + {turn.at} else found)
  {
  }

  /** The marks after marking the transactions of this event. */
  ghost predicate MarkedWith(event: Event, before: set<Mark>, after: set<Mark>) {
    forall m :: m in after <==> m in before || Carries(event, m)
  }

  lemma MarksOfVisit(dag: Dag, unreadable: set<Hash>, before: set<Hash>, visited: set<Hash>,
                     marksBefore: set<Mark>, marks: set<Mark>, id: Hash, more: set<Mark>)
    requires NewMarks(dag, unreadable, before, visited, marksBefore, marks) && id !in before
    requires if id in dag && id !in unreadable then MarkedWith(dag[id], marks, more) else more == marks
    ensures NewMarks(dag, unreadable, before, visited + {id}, marksBefore, more)
  {
    var wider := visited + {id};
    forall m | m in more
      ensures m in marksBefore || exists h :: ReadNow(dag, unreadable, before, wider, h) && Carries(dag[h], m)
    {
      if m in marks && m !in marksBefore {
        var h :| ReadNow(dag, unreadable, before, visited, h) && Carries(dag[h], m);
        assert ReadNow(dag, unreadable, before, wider, h);
      } else if m !in marks {
        assert ReadNow(dag, unreadable, before, wider, id);
      }
    }
    forall h | ReadNow(dag, unreadable, before, wider, h)
      ensures AllMarked(dag[h], more)
    {
      if h == id {
        assert forall t :: t in dag[id].transactions ==> Carries(dag[id], Mark(t, dag[id].creationTime));
      } else {
        assert ReadNow(dag, unreadable, before, visited, h);
      }
    }
  }

  /** A walk between two iterations: where it is, what it could read, and what it marked. */
  ghost predicate Underway(dag: Dag, heads: set<Hash>, unreadable: set<Hash>, before: set<Hash>, marksBefore: set<Mark>,
                           visited: set<Hash>, marks: set<Mark>, pending: seq<Hash>)
  {
    && Roaming(dag, heads, before, visited, pending) && (visited - before) !! unreadable
    && NewMarks(dag, unreadable, before, visited, marksBefore, marks)
  }

  /** What a walk visited is fresh, and marked if it could be read. */
  ghost predicate FreshlyMarked(dag: Dag, heads: set<Hash>, unreadable: set<Hash>, before: set<Hash>, marksBefore: set<Mark>,
                                visited: set<Hash>, marks: set<Mark>)
  {
    && before <= visited && (forall h :: h in visited ==> h in before || Fresh(dag, heads, before, h))
    && NewMarks(dag, unreadable, before, visited, marksBefore, marks)
  }

  lemma UnderwayIsFresh(dag: Dag, heads: set<Hash>, unreadable: set<Hash>, before: set<Hash>, marksBefore: set<Mark>,
                        visited: set<Hash>, marks: set<Mark>, pending: seq<Hash>)
    requires Underway(dag, heads, unreadable, before, marksBefore, visited, marks, pending)
    ensures FreshlyMarked(dag, heads, unreadable, before, marksBefore, visited, marks)
  {
    RoamingIsFresh(dag, heads, before, visited, pending);
  }

  lemma TurnKeepsUnderway(dag: Dag, heads: set<Hash>, unreadable: set<Hash>, before: set<Hash>, marksBefore: set<Mark>,
                          visited: set<Hash>, marks: set<Mark>, pending: seq<Hash>, more: set<Mark>)
    requires pending != [] && Underway(dag, heads, unreadable, before, marksBefore, visited, marks, pending)
    requires var t := NextTurn(dag, unreadable, visited, pending);
             if t.Visit? then MarkedWith(dag[t.at], marks, more) else more == marks
    ensures match NextTurn(dag, unreadable, visited, pending)
            case Skip(rest) => Underway(dag, heads, unreadable, before, marksBefore, visited, marks, rest)
            case Fail(at, _) =>
              && at in unreadable && Fresh(dag, heads, before, at)
              && FreshlyMarked(dag, heads, unreadable, before, marksBefore, visited + {at}, marks)
            case Absent(at, rest) =>
              && at in Known(Without(dag, before), heads)
              && Underway(dag, heads, unreadable, before, marksBefore, visited + {at}, marks, rest)
            case Visit(at, _, next) =>
              && at in Known(Without(dag, before), heads)
              && Underway(dag, heads, unreadable, before, marksBefore, visited + {at}, more, next)
  {
    var id, rest := pending[|pending| - 1], pending[..|pending| - 1];
    assert pending == rest + [id];
    if id in visited {
      RoamingSkips(dag, heads, before, visited, rest, id);
    } else {
      VisitKeepsUnderway(dag, heads, unreadable, before, marksBefore, visited, marks, rest, id, more);
    }
  }

  lemma VisitKeepsUnderway(dag: Dag, heads: set<Hash>, unreadable: set<Hash>, before: set<Hash>, marksBefore: set<Mark>,
                           visited: set<Hash>, marks: set<Mark>, rest: seq<Hash>, id: Hash, more: set<Mark>)
    requires Underway(dag, heads, unreadable, before, marksBefore, visited, marks, rest + [id]) && id !in visited
    requires if id in dag && id !in unreadable then MarkedWith(dag[id], marks, more) else more == marks
    ensures Fresh(dag, heads, before, id) && id in Known(Without(dag, before), heads)
    ensures FreshlyMarked(dag, heads, unreadable, before, marksBefore, visited + {id}, more)
    ensures id !in unreadable ==>
      Underway(dag, heads, unreadable, before, marksBefore, visited + {id}, more, if id in dag then rest + dag[id].parents else rest)
  {
    assert id in rest + [id];
    RoamingVisits(dag, heads, before, visited, rest, id);
    MarksOfVisit(dag, unreadable, before, visited, marksBefore, marks, id, more);
    RoamingIsFresh(dag, heads, before, visited + {id}, if id in dag then rest + dag[id].parents else rest);
  }

  /** A walk that runs out of pending events has visited exactly what is fresh, all of it readable. */
  lemma UnderwayEnds(dag: Dag, heads: set<Hash>, unreadable: set<Hash>, before: set<Hash>, marksBefore: set<Mark>,
                     visited: set<Hash>, marks: set<Mark>)
    requires Underway(dag, heads, unreadable, before, marksBefore, visited, marks, [])
    ensures FreshlyMarked(dag, heads, unreadable, before, marksBefore, visited, marks)
    ensures forall h :: Fresh(dag, heads, before, h) ==> h in visited && h !in unreadable
  {
    RoamingEnds(dag, heads, before, visited);
  }

  /**
    When the second parent of a new head cannot be read, its unvisited sibling is dropped with
    the rest of the walk.  No walk from visited heads finds it again; one from heads that
    include a new child of it does.
   */
  lemma FailedReadLosesSibling(dag: Dag, unreadable: set<Hash>, visited: set<Hash>, head: Hash, first: Hash, second: Hash,
                               later: Dag, heads: set<Hash>, child: Hash)
    requires head in dag && dag[head].parents == [first, second] && first in dag
    requires head != first && first != second && second != head && visited !! {head, first, second}
    requires second in unreadable && head !in unreadable
    requires child in later && child !in visited + {head} + {second} && first in later[child].parents
    ensures NextTurn(dag, unreadable, visited, [head]) == Visit(head, [], [first, second])
    ensures NextTurn(dag, unreadable, visited + {head}, [first, second]) == Fail(second, [first])
    ensures var after := visited + {head} + {second};
            && (heads <= after ==> !Fresh(later, heads, after, first))
            && (child in heads ==> Fresh(later, heads, after, first))
  {
    assert [first, second][..1] == [first];
    var after := visited + {head} + {second};
    if heads <= after {
      NothingFreshBelowVisited(later, heads, after, first);
    }
    if child in heads {
      FreshIff(later, heads, after, child);
      FreshIff(later, heads, after, first);
    }
  }

  lemma MoreHeads(dag: Dag, heads: set<Hash>, more: set<Hash>, h: Hash)
    requires heads <= more && Reachable(dag, heads, h)
    ensures Reachable(dag, more, h)
  {
    var path :| |path| > 0 && path[0] in heads && path[|path| - 1] == h && IsPath(dag, path);
    assert path[0] in more;
  }

  lemma FreshStaysWellFormed(dag: Dag, heads: set<Hash>, before: set<Hash>, h: Hash)
    requires WellFormed(dag) && heads <= dag.Keys && Fresh(dag, heads, before, h)
    ensures h in dag && Reachable(dag, heads, h)
  {
    FreshIsReachable(dag, heads, before, h);
    ClosedHoldsReachable(dag, heads, dag.Keys);
  }

  lemma BelowAfterWalk(dag: Dag, seen: set<Hash>, heads: set<Hash>, before: set<Hash>, visited: set<Hash>)
    requires WellFormed(dag) && heads <= dag.Keys && IsBelow(dag, seen, before)
    requires forall h :: h in visited <==> h in before || Fresh(dag, heads, before, h)
    ensures IsBelow(dag, seen + heads, visited)
  {
    forall h | h in heads
      ensures h in visited
    {
      FreshWhereClosed(dag, heads, before, h);
      HeadIsReachable(dag, heads, h);
    }
    forall h | h in visited
      ensures h in dag && Reachable(dag, seen + heads, h)
    {
      if h in before {
        MoreHeads(dag, seen, seen + heads, h);
      } else {
        FreshStaysWellFormed(dag, heads, before, h);
        MoreHeads(dag, heads, seen + heads, h);
      }
    }
    forall h, p | h in visited && h in dag && p in dag[h].parents
      ensures p in visited
    {
      if h !in before && p !in before {
        FreshIff(dag, heads, before, p);
      }
    }
  }

  lemma MarksAfterWalk(dag: Dag, unreadable: set<Hash>, before: set<Hash>, marksBefore: set<Mark>, visited: set<Hash>, marks: set<Mark>)
    requires MarksBelow(dag, before, marksBefore) && NewMarks(dag, unreadable, before, visited, marksBefore, marks)
    requires before <= visited && (visited - before) !! unreadable
    ensures MarksBelow(dag, visited, marks)
  {
    forall h | h in visited && h in dag
      ensures AllMarked(dag[h], marks)
    {
      assert h in before || ReadNow(dag, unreadable, before, visited, h);
    }
  }

  // ---- The observer ----

  datatype WalkResult = Walked | Failed(at: Hash) | GaveUp

  class EmissionObserver {
    var visited: set<Hash>
    var events: nat
    var marked: set<Mark>          // calls of Tracker.MarkEmitted
    ghost var fetched: seq<Hash>   // payload reads over the whole run, in order
    ghost var found: set<Hash>     // the events that were read

    /** Holds in every run, whatever fails: no event is read twice, and those read are counted. */
    ghost predicate ReadsOnce()
      reads this
    {
      Distinct(fetched) && AsSet(fetched) == visited && found <= visited && events == |found|
    }

    /** Everything below the heads seen so far has been visited and marked. */
    ghost predicate Complete(dag: Dag, seen: set<Hash>)
      reads this
    {
      IsBelow(dag, seen, visited) && MarksBelow(dag, visited, marked)
    }

    constructor ()
      ensures ReadsOnce() && Complete(map[], {}) && visited == {} && marked == {} && events == 0
    {
      visited, marked, events, fetched, found := {}, {}, 0, [], {};
    }

    /** The visit of one event that was not visited before. */
    method Fetch(id: Hash)
      requires ReadsOnce() && id !in visited
      modifies this`visited, this`fetched
      ensures ReadsOnce() && visited == old(visited) + {id} && fetched == old(fetched) + [id] && id !in found
    {
      FetchIsNew(fetched, id);
      visited := visited + {id};
      fetched := fetched + [id];
    }

    /** The event was read: it is counted, and its transactions are marked. */
    method Take(id: Hash, event: Event)
      requires ReadsOnce() && id in visited && id !in found
      modifies this`events, this`marked, this`found
      ensures ReadsOnce() && found == old(found) + {id} && MarkedWith(event, old(marked), marked)
    {
      events := events + 1;
      found := found + {id};
      MarkAll(event);
    }

    /** The loop of walk over the transactions of an event. */
    method MarkAll(event: Event)
      modifies this`marked
      ensures MarkedWith(event, old(marked), marked)
    {
      for i := 0 to |event.transactions|
        invariant forall m :: m in marked <==>
          m in old(marked) || (m.transaction in event.transactions[..i] && m.at == event.creationTime)
      {
        marked := marked + {Mark(event.transactions[i], event.creationTime)};
      }
    }

    /**
      walk, from any state the observer may be in: it visits only fresh events, and reads each
      once.  Unless it is cancelled it succeeds if and only if every fresh event can be read,
      and then it has visited and marked all of them.
     */
    method Walk(dag: Dag, heads: seq<Hash>, unreadable: set<Hash>) returns (r: WalkResult)
      requires ReadsOnce()
      modifies this
      ensures ReadsOnce() && old(fetched) <= fetched
      ensures FreshlyMarked(dag, AsSet(heads), unreadable, old(visited), old(marked), visited, marked)
      ensures FoundNow(dag, unreadable, old(visited), visited, old(found), found)
      ensures r != GaveUp ==> (r.Walked? <==> forall h :: h in unreadable ==> !Fresh(dag, AsSet(heads), old(visited), h))
      ensures r.Walked? ==> forall h :: Fresh(dag, AsSet(heads), old(visited), h) ==> h in visited
      ensures r.Failed? ==> r.at in unreadable && Fresh(dag, AsSet(heads), old(visited), r.at)
    {
      ghost var before, from := visited, AsSet(heads);
      ghost var all := Known(Without(dag, before), from);
      var pending := heads;
      RoamingBegins(dag, heads, before);
      while |pending| > 0
        invariant ReadsOnce() && old(fetched) <= fetched
        invariant FoundNow(dag, unreadable, before, visited, old(found), found)
        invariant Underway(dag, from, unreadable, before, old(marked), visited, marked, pending)
        decreases all - visited, |pending|
      {
        if * {
          UnderwayIsFresh(dag, from, unreadable, before, old(marked), visited, marked, pending);
          return GaveUp;
        }
        var turn := NextTurn(dag, unreadable, visited, pending);
        ghost var seen, queue, marks := visited, pending, marked;
        FoundNext(dag, unreadable, before, visited, old(found), found, turn);
        pending := turn.rest;
        if !turn.Skip? {
          Fetch(turn.at);
        }
        if turn.Visit? {
          Take(turn.at, dag[turn.at]);
          pending := turn.pending;
        }
        TurnKeepsUnderway(dag, from, unreadable, before, old(marked), seen, marks, queue, marked);
        if turn.Fail? {
          return Failed(turn.at);
        }
      }
      UnderwayEnds(dag, from, unreadable, before, old(marked), visited, marked);
      return Walked;
    }

    /**
      poll: a walk from the current heads of a DAG that has grown since the previous poll.  If
      nothing was missing before and it is not cancelled, nothing is missing now if and
      only if every unreadable event below the heads had been visited before.
     */
    method Poll(heads: seq<Hash>, dag: Dag, unreadable: set<Hash>, ghost before: Dag, ghost seen: set<Hash>)
      returns (r: WalkResult)
      requires ReadsOnce()
      requires WellFormed(before) && GrowsTo(before, dag) && WellFormed(dag) && AsSet(heads) <= dag.Keys
      modifies this
      ensures ReadsOnce() && old(visited) <= visited && old(fetched) <= fetched
      ensures old(Complete(before, seen)) && r.Walked? ==> Complete(dag, seen + AsSet(heads))
      ensures old(Complete(before, seen)) && r != GaveUp ==>
        (r.Walked? <==> forall h :: h in unreadable && Reachable(dag, AsSet(heads), h) ==> h in old(visited))
    {
      ghost var was, marks, complete := visited, marked, Complete(before, seen);
      r := Walk(dag, heads, unreadable);
      if complete {
        CompleteSurvivesGrowth(before, dag, seen, was, marks);
        forall h: Hash
          ensures Fresh(dag, AsSet(heads), was, h) <==> Reachable(dag, AsSet(heads), h) && h !in was
        {
          FreshWhereClosed(dag, AsSet(heads), was, h);
        }
        if r.Walked? {
          BelowAfterWalk(dag, seen, AsSet(heads), was, visited);
          MarksAfterWalk(dag, unreadable, was, marks, visited, marked);
        }
      }
    }
  }

  // ---- Whole runs ----

  datatype Poll = Poll(dag: Dag, heads: seq<Hash>, unreadable: set<Hash>)

  function HeadsSeen(polls: seq<Poll>): set<Hash> {
    if polls == [] then {} else HeadsSeen(polls[..|polls| - 1]) + AsSet(polls[|polls| - 1].heads)
  }

  /** A DAG that only grows, polled for heads that exist. */
  ghost predicate GrowingPolls(polls: seq<Poll>) {
    && (forall i :: 0 <= i < |polls| ==> WellFormed(polls[i].dag) && AsSet(polls[i].heads) <= polls[i].dag.Keys)
    && (forall i :: 0 <= i < |polls| - 1 ==> GrowsTo(polls[i].dag, polls[i + 1].dag))
  }

  /** The DAG as of the k-th poll. */
  function DagAt(polls: seq<Poll>, k: nat): Dag
    requires k <= |polls|
  {
    if k == 0 then map[] else polls[k - 1].dag
  }

  lemma NextPoll(polls: seq<Poll>, k: nat)
    requires GrowingPolls(polls) && k < |polls|
    ensures WellFormed(DagAt(polls, k)) && GrowsTo(DagAt(polls, k), DagAt(polls, k + 1))
    ensures HeadsSeen(polls[..k + 1]) == HeadsSeen(polls[..k]) + AsSet(polls[k].heads)
  {
    if k > 0 {
      assert GrowsTo(polls[k - 1].dag, polls[k - 1 + 1].dag);
    }
    assert polls[..k + 1][..k] == polls[..k];
  }

  /**
    Over any number of polls, whichever reads fail, each event is read at most once; and
    if all walks are completed, after the last poll the events below all heads ever seen
    are visited and marked (exactly those, by BelowMeansReachable).
   */
  method PollAll(o: EmissionObserver, polls: seq<Poll>) returns (completed: bool)
    requires o.ReadsOnce() && o.Complete(map[], {}) && GrowingPolls(polls)
    modifies o
    ensures o.ReadsOnce()
    ensures completed ==> o.Complete(DagAt(polls, |polls|), HeadsSeen(polls))
  {
    completed := true;
    for i := 0 to |polls|
      invariant o.ReadsOnce()
      invariant completed ==> o.Complete(DagAt(polls, i), HeadsSeen(polls[..i]))
    {
      NextPoll(polls, i);
      var r := o.Poll(polls[i].heads, polls[i].dag, polls[i].unreadable, DagAt(polls, i), HeadsSeen(polls[..i]));
      completed := completed && r.Walked?;
    }
    assert polls[..|polls|] == polls;
  }
}
