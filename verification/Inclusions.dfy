/**
  The deduplicating queue of announced blocks
  (driver/monitoring/transactions/inclusions.go).  Any number of nodes announce blocks
  concurrently; one goroutine reads them.  Every method is one atomic step, a critical
  section or one channel operation, so calls may interleave in any order.
 */
module Inclusions {
  import opened Common

  const PENDING_BLOCKS: nat := 1024
  const READ_ATTEMPTS: nat := 3

  datatype Block = Block(height: int, time: int)

  function Heights(blocks: seq<Block>): seq<int> {
    seq(|blocks|, i requires 0 <= i < |blocks| => blocks[i].height)
  }

  lemma HeightsOfMore(blocks: seq<Block>, b: Block)
    ensures Heights(blocks + [b]) == Heights(blocks) + [b.height]
  {
  }

  lemma HeightsOfRest(blocks: seq<Block>)
    requires blocks != []
    ensures Heights(blocks) == [blocks[0].height] + Heights(blocks[1..])
  {
  }

  /** Where the announced heights are. */
  datatype Places = Places(
    announcing: multiset<int>, // seen, and about to be queued
    queued: seq<Block>,
    dropping: multiset<int>,   // found the queue full, and about to be counted
    reading: Option<Block>,
    marked: seq<Block>,
    missed: multiset<int>)

  function Read(reading: Option<Block>): multiset<int> {
    if reading.Some? then multiset{reading.value.height} else multiset{}
  }

  /** How often a height is in one of the places. */
  function CountOf(h: int, p: Places): nat {
    p.announcing[h] + multiset(Heights(p.queued))[h] + p.dropping[h] + Read(p.reading)[h]
      + multiset(Heights(p.marked))[h] + p.missed[h]
  }

  ghost predicate OnceAt(h: int, seen: set<int>, p: Places) {
    CountOf(h, p) == if h in seen then 1 else 0
  }

  /** Every height seen is in exactly one place, once, and no other height is in any. */
  ghost predicate Partition(seen: set<int>, p: Places) {
    forall h :: OnceAt(h, seen, p)
  }

  ghost predicate TimesKept(blocks: seq<Block>, first: map<int, int>) {
    forall i :: 0 <= i < |blocks| ==> blocks[i].height in first && blocks[i].time == first[blocks[i].height]
  }

  lemma OccursTwice(s: seq<int>, i: nat, j: nat)
    requires i < j < |s| && s[i] == s[j]
    ensures multiset(s)[s[i]] >= 2
  {
    assert s == s[..j] + s[j..];
    assert s[..j][i] == s[i] && s[j..][0] == s[i];
  }

  /** No height is marked twice, nor marked and still queued, being read, or missed. */
  lemma MarkedOnce(seen: set<int>, p: Places, i: nat, j: nat)
    requires Partition(seen, p) && i < |p.marked| && j < |p.marked| && p.marked[i].height == p.marked[j].height
    ensures i == j
    ensures p.marked[i].height !in p.missed && p.marked[i].height !in Heights(p.queued)
  {
    var h, hs := p.marked[i].height, Heights(p.marked);
    assert OnceAt(h, seen, p);
    if i < j {
      OccursTwice(hs, i, j);
    } else if j < i {
      OccursTwice(hs, j, i);
    }
    assert hs[i] == h;
  }

  /** distinct heights = queued + in flight + marked + missed */
  lemma HeightsAddUp(seen: set<int>, p: Places)
    requires Partition(seen, p)
    ensures |seen| == |p.announcing| + |p.queued| + |p.dropping| + (if p.reading.Some? then 1 else 0) + |p.marked| + |p.missed|
  {
    var all := p.announcing + multiset(Heights(p.queued)) + p.dropping + Read(p.reading)
             + multiset(Heights(p.marked)) + p.missed;
    forall h: int
      ensures all[h] == multiset(seen)[h]
    {
      assert OnceAt(h, seen, p);
    }
    assert all == multiset(seen);
    assert |multiset(seen)| == |seen|;
    assert |multiset(Heights(p.queued))| == |p.queued|;
    assert |multiset(Heights(p.marked))| == |p.marked|;
  }

  // ---------------------------------------------------------------- moves between the places

  function Announced(p: Places, height: int): Places {
    p.(announcing := p.announcing + multiset{height})
  }

  function Queued(p: Places, b: Block): Places {
    p.(announcing := p.announcing - multiset{b.height}, queued := p.queued + [b])
  }

  function FoundFull(p: Places, height: int): Places {
    p.(announcing := p.announcing - multiset{height}, dropping := p.dropping + multiset{height})
  }

  function Dropped(p: Places, height: int): Places {
    p.(dropping := p.dropping - multiset{height}, missed := p.missed + multiset{height})
  }

  function Taken(p: Places): Places
    requires p.queued != []
  {
    p.(queued := p.queued[1..], reading := Some(p.queued[0]))
  }

  function GivenUp(p: Places): Places
    requires p.reading.Some?
  {
    p.(reading := None, missed := p.missed + multiset{p.reading.value.height})
  }

  function Marked(p: Places): Places
    requires p.reading.Some?
  {
    p.(reading := None, marked := p.marked + [p.reading.value])
  }

  lemma AnnouncedKeeps(seen: set<int>, p: Places, height: int)
    requires Partition(seen, p) && height !in seen
    ensures Partition(seen + {height}, Announced(p, height))
  {
    var more, q := seen + {height}, Announced(p, height);
    forall h: int
      ensures OnceAt(h, more, q)
    {
      assert OnceAt(h, seen, p);
    }
  }

  /** Nothing is lost or duplicated on the way. */
  lemma Moved(seen: set<int>, p: Places, q: Places)
    requires Partition(seen, p) && forall h :: CountOf(h, q) == CountOf(h, p)
    ensures Partition(seen, q)
  {
    forall h: int
      ensures OnceAt(h, seen, q)
    {
      assert OnceAt(h, seen, p);
    }
  }

  lemma OfferKeeps(seen: set<int>, p: Places, b: Block)
    requires Partition(seen, p) && b.height in p.announcing
    ensures Partition(seen, Queued(p, b)) && Partition(seen, FoundFull(p, b.height))
  {
    HeightsOfMore(p.queued, b);
    Moved(seen, p, Queued(p, b));
    Moved(seen, p, FoundFull(p, b.height));
  }

  lemma DroppedKeeps(seen: set<int>, p: Places, height: int)
    requires Partition(seen, p) && height in p.dropping
    ensures Partition(seen, Dropped(p, height))
  {
    Moved(seen, p, Dropped(p, height));
  }

  lemma TakenKeeps(seen: set<int>, p: Places)
    requires Partition(seen, p) && p.queued != [] && p.reading.None?
    ensures Partition(seen, Taken(p))
  {
    HeightsOfRest(p.queued);
    Moved(seen, p, Taken(p));
  }

  lemma ReadKeeps(seen: set<int>, p: Places)
    requires Partition(seen, p) && p.reading.Some?
    ensures Partition(seen, GivenUp(p)) && Partition(seen, Marked(p))
  {
    HeightsOfMore(p.marked, p.reading.value);
    Moved(seen, p, GivenUp(p));
    Moved(seen, p, Marked(p));
  }

  /** Every block carries the time of the first announcement of its height. */
  ghost predicate AllTimesKept(p: Places, first: map<int, int>) {
    && TimesKept(p.queued, first) && TimesKept(p.marked, first)
    && (p.reading.Some? ==> p.reading.value.height in first && p.reading.value.time == first[p.reading.value.height])
  }

  class InclusionObserver {
    var seen: set<int>
    var blocks: seq<Block>        // the channel
    var missed: nat
    var connected: bool           // the reading goroutine holds a client
    var reading: Option<Block>    // the block the goroutine holds
    var marked: seq<Block>        // history: what MarkBlock was called with
    var places: Places            // history: where every height is
    var first: map<int, int>      // history: when a height was first announced

    ghost predicate Valid()
      reads this
    {
      && Partition(seen, places) && AllTimesKept(places, first) && first.Keys == seen
      && places.queued == blocks && places.reading == reading && places.marked == marked
      && |blocks| <= PENDING_BLOCKS && missed == |places.missed|
    }

    constructor ()
      ensures Valid() && seen == {} && marked == [] && missed == 0
    {
      seen, blocks, missed, connected, reading, marked := {}, [], 0, false, None, [];
      places, first := Places(multiset{}, [], multiset{}, None, [], multiset{}), map[];
    }

    /** The first part of OnBlock: only the first announcement of a height goes on. */
    method Announce(b: Block) returns (goesOn: bool)
      requires Valid()
      modifies this`seen, this`places, this`first
      ensures Valid() && goesOn == (b.height !in old(seen)) && seen == old(seen) + {b.height}
      ensures places == if goesOn then Announced(old(places), b.height) else old(places)
      ensures first == if goesOn then old(first)[b.height := b.time] else old(first)
    {
      if b.height in seen {
        return false;
      }
      AnnouncedKeeps(seen, places, b.height);
      seen := seen + {b.height};
      places := Announced(places, b.height);
      first := first[b.height := b.time];
      return true;
    }

    /** The select of OnBlock: the block is queued, or dropped if and only if the queue is full. */
    method Offer(b: Block) returns (queued: bool)
      requires Valid() && b.height in places.announcing && b.height in first && first[b.height] == b.time
      modifies this`blocks, this`places
      ensures Valid() && queued == (|old(blocks)| < 1024)
      ensures blocks == if queued then old(blocks) + [b] else old(blocks)
      ensures places == if queued then Queued(old(places), b) else FoundFull(old(places), b.height)
    {
      OfferKeeps(seen, places, b);
      queued := |blocks| < PENDING_BLOCKS;
      if queued {
        blocks := blocks + [b];
        places := Queued(places, b);
      } else {
        places := FoundFull(places, b.height);
      }
    }

    /** The last part of OnBlock, for a dropped block. */
    method CountDropped(height: int)
      requires Valid() && height in places.dropping
      modifies this`missed, this`places
      ensures Valid() && missed == old(missed) + 1 && places == Dropped(old(places), height)
    {
      DroppedKeeps(seen, places, height);
      missed := missed + 1;
      places := Dropped(places, height);
    }

    /** run: the next block is received. */
    method Take()
      requires Valid() && reading.None? && blocks != []
      modifies this`blocks, this`reading, this`places
      ensures Valid() && reading == Some(old(blocks)[0]) && blocks == old(blocks)[1..]
      ensures places == Taken(old(places))
    {
      TakenKeeps(seen, places);
      reading := Some(blocks[0]);
      blocks := blocks[1..];
      places := Taken(places);
    }

    /** run: the block could not be dialled for or read, and is given up; a failed client is dropped. */
    method GiveUp()
      requires Valid() && reading.Some?
      modifies this`reading, this`missed, this`connected, this`places
      ensures Valid() && reading == None && !connected && missed == old(missed) + 1
      ensures places == GivenUp(old(places))
    {
      ReadKeeps(seen, places);
      places := GivenUp(places);
      reading, connected, missed := None, false, missed + 1;
    }

    method Mark()
      requires Valid() && reading.Some?
      modifies this`reading, this`marked, this`places
      ensures Valid() && reading == None && marked == old(marked) + [old(reading).value]
      ensures places == Marked(old(places))
    {
      ReadKeeps(seen, places);
      places := Marked(places);
      marked, reading := marked + [reading.value], None;
    }

    /** run: the received block is marked if a client could be had and one of the attempts succeeded. */
    method Handle(dials: bool, replies: seq<bool>, cancelled: nat)
      requires Valid() && reading.Some? && |replies| == 3
      modifies this`reading, this`marked, this`missed, this`connected, this`places
      ensures Valid() && connected == ((old(connected) || dials) && Succeeds(replies, cancelled))
      ensures places == if connected then Marked(old(places)) else GivenUp(old(places))
      ensures marked == if connected then old(marked) + [old(reading).value] else old(marked)
    {
      if !connected && !dials {
        GiveUp();
        return;
      }
      connected := true;
      var ok := ReadBlock(replies, cancelled);
      if ok {
        Mark();
      } else {
        GiveUp();
      }
    }
  }

  /** One of the attempts made before the cancellation succeeds; the first one is always made. */
  ghost predicate Succeeds(replies: seq<bool>, cancelled: nat)
    requires |replies| == 3
  {
    exists i :: 0 <= i < 3 && replies[i] && (i == 0 || i < cancelled)
  }

  /** readBlock: a failed read is retried, unless the context is cancelled between attempts. */
  method ReadBlock(replies: seq<bool>, cancelled: nat) returns (ok: bool)
    requires |replies| == 3
    ensures ok == Succeeds(replies, cancelled)
  {
    for attempt := 0 to READ_ATTEMPTS
      invariant forall i :: 0 <= i < attempt ==> !replies[i]
    {
      if attempt > 0 && attempt >= cancelled {
        return false;
      }
      if replies[attempt] {
        return true;
      }
    }
    return false;
  }

  // ---------------------------------------------------------------- every interleaving

  datatype Op =
    | DoAnnounce(b: Block)
    | DoOffer(b: Block)
    | DoCountDropped(height: int)
    | DoTake
    | DoHandle(dials: bool, replies: seq<bool>, cancelled: nat)

  /** The operation is the next one of its goroutine. */
  predicate Enabled(op: Op, p: Places, first: map<int, int>) {
    match op
    case DoAnnounce(_) => true
    case DoOffer(b) => b.height in p.announcing && b.height in first && first[b.height] == b.time
    case DoCountDropped(height) => height in p.dropping
    case DoTake => p.reading.None? && p.queued != []
    case DoHandle(_, replies, _) => p.reading.Some? && |replies| == 3
  }

  method Do(o: InclusionObserver, op: Op)
    requires o.Valid() && Enabled(op, o.places, o.first)
    modifies o
    ensures o.Valid() && old(o.seen) <= o.seen && old(o.marked) <= o.marked
  {
    match op
    case DoAnnounce(b) => var goesOn := o.Announce(b);
    case DoOffer(b) => var queued := o.Offer(b);
    case DoCountDropped(height) => o.CountDropped(height);
    case DoTake => o.Take();
    case DoHandle(dials, replies, cancelled) => o.Handle(dials, replies, cancelled);
  }

  /**
    In every interleaving no height is marked twice, and the distinct heights announced are
    those under way, queued, being read, marked and counted as missed.
   */
  method Interleave(schedule: seq<Op>) returns (o: InclusionObserver)
    ensures fresh(o) && o.Valid()
    ensures forall i, j :: 0 <= i < j < |o.marked| ==> o.marked[i].height != o.marked[j].height
    ensures |o.seen| == |o.places.announcing| + |o.blocks| + |o.places.dropping|
                      + (if o.reading.Some? then 1 else 0) + |o.marked| + o.missed
  {
    o := new InclusionObserver();
    for k := 0 to |schedule|
      invariant fresh(o) && o.Valid()
    {
      if Enabled(schedule[k], o.places, o.first) {
        Do(o, schedule[k]);
      }
    }
    HeightsAddUp(o.seen, o.places);
    forall i, j | 0 <= i < j < |o.marked|
      ensures o.marked[i].height != o.marked[j].height
    {
      if o.marked[i].height == o.marked[j].height {
        MarkedOnce(o.seen, o.places, i, j);
      }
    }
  }
}
