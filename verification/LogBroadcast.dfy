/**
  The fan-out of the client's log lines to independent readers
  (driver/docker/logs.go): a replay buffer of recent lines, one bounded queue per
  reader from which lines may be dropped, and the closing protocol.

  Every method is one atomic step: a critical section of the broadcaster's mutex,
  or one channel operation of a reader.  A subscription is an entry of `subs`; the
  channel operations that panic in Go (sending on or closing a closed channel) are
  preconditions here, so that verifying the callers shows that none ever panics.
 */
module LogBroadcast {
  import opened Common
  import opened LineSplitter

  const REPLAY_LINES: nat := 150
  const SUBSCRIBER_BUFFER: nat := 8192

  datatype Closing = Following | Unsubscribed | Closed

  datatype Sub = Sub(
    queue: seq<Bytes>,      // the channel `lines`
    linesClosed: bool,
    pending: Bytes,
    dropped: nat,
    closing: Closing,       // Closed: the channel `done` is closed
    bounded: bool,          // the reader has a bounding context
    waiting: bool,          // the reader is in the second select of Read
    // history
    offered: seq<Bytes>,    // every line offered
    kept: seq<bool>,        // which of them were accepted
    delivered: Bytes,       // every byte handed to the reader
    polled: nat,            // offers made when the first select last found nothing
    from: nat,              // lines published before the subscription
    until: nat)             // lines published while or before subscribed

  // ---------------------------------------------------------------- offers

  /** The chosen elements, in order. */
  function Select(lines: seq<Bytes>, kept: seq<bool>): seq<Bytes>
    requires |lines| == |kept|
  {
    if lines == [] then []
    else
      var n := |lines| - 1;
      Select(lines[..n], kept[..n]) + if kept[n] then [lines[n]] else []
  }

  function Drops(kept: seq<bool>): nat {
    if kept == [] then 0
    else
      var n := |kept| - 1;
      Drops(kept[..n]) + if kept[n] then 0 else 1
  }

  lemma SelectOneMore(lines: seq<Bytes>, kept: seq<bool>, line: Bytes, keep: bool)
    requires |lines| == |kept|
    ensures Select(lines + [line], kept + [keep]) == if keep then Select(lines, kept) + [line] else Select(lines, kept)
    ensures Drops(kept + [keep]) == Drops(kept) + if keep then 0 else 1
  {
    assert (lines + [line])[..|lines|] == lines && (kept + [keep])[..|kept|] == kept;
  }

  /** accepted + dropped == offered */
  lemma {:induction false} AcceptedPlusDropped(lines: seq<Bytes>, kept: seq<bool>)
    requires |lines| == |kept|
    ensures |Select(lines, kept)| + Drops(kept) == |lines|
    decreases |lines|
  {
    if lines != [] {
      var n := |lines| - 1;
      AcceptedPlusDropped(lines[..n], kept[..n]);
    }
  }

  ghost predicate InOrder(at: seq<nat>) {
    forall i, j :: 0 <= i < j < |at| ==> at[i] < at[j]
  }

  ghost predicate PickedFrom(picked: seq<Bytes>, lines: seq<Bytes>, at: seq<nat>) {
    |at| == |picked| && forall i :: 0 <= i < |at| ==> at[i] < |lines| && picked[i] == lines[at[i]]
  }

  /** What is accepted is an in-order subsequence of what was offered. */
  lemma {:induction false} AcceptedIsSubsequence(lines: seq<Bytes>, kept: seq<bool>) returns (at: seq<nat>)
    requires |lines| == |kept|
    ensures InOrder(at) && PickedFrom(Select(lines, kept), lines, at)
    decreases |lines|
  {
    at := [];
    if lines != [] {
      var n := |lines| - 1;
      at := AcceptedIsSubsequence(lines[..n], kept[..n]);
      if kept[n] {
        at := at + [n];
      }
    }
  }

  function Accepted(s: Sub): seq<Bytes>
    requires |s.offered| == |s.kept|
  {
    Select(s.offered, s.kept)
  }

  /** The books of one subscription. */
  ghost predicate Accounted(s: Sub) {
    && |s.kept| == |s.offered| && s.dropped == Drops(s.kept) && |s.queue| <= SUBSCRIBER_BUFFER
    && s.delivered + s.pending + Concat(s.queue) == Concat(Accepted(s))
  }

  /**
    A waiting reader had received everything when it last looked, and the first line offered
    since then is queued.
   */
  ghost predicate Waits(s: Sub) {
    s.waiting ==>
      && s.pending == [] && s.polled <= |s.offered| == |s.kept|
      && (s.queue == [] <==> s.polled == |s.offered|)
      && s.delivered == Concat(Select(s.offered[..s.polled], s.kept[..s.polled]))
  }

  ghost predicate NoEmptyLine(lines: seq<Bytes>) {
    forall i :: 0 <= i < |lines| ==> lines[i] != []
  }

  /** Nothing is queued that was not offered, as far as empty lines go. */
  ghost predicate FilledQueue(s: Sub) {
    NoEmptyLine(s.offered) ==> NoEmptyLine(s.queue)
  }

  lemma OfferKeepsFilled(s: Sub, line: Bytes)
    requires FilledQueue(s)
    ensures FilledQueue(Offer(s, line))
  {
    var t := Offer(s, line);
    if NoEmptyLine(t.offered) {
      assert t.offered[|s.offered|] == line;
      forall i | 0 <= i < |s.offered|
        ensures s.offered[i] != []
      {
        assert t.offered[i] == s.offered[i];
      }
    }
  }

  lemma FilledQueueIsEmptyIff(s: Sub)
    requires FilledQueue(s) && NoEmptyLine(s.offered)
    ensures Concat(s.queue) == [] <==> s.queue == []
  {
    if s.queue != [] {
      assert |Concat(s.queue)| == |s.queue[0]| + |Concat(s.queue[1..])|;
    }
  }

  /** offer: a full queue drops the line. */
  function Offer(s: Sub, line: Bytes): Sub {
    var keep := |s.queue| < SUBSCRIBER_BUFFER;
    s.(queue := if keep then s.queue + [line] else s.queue,
       dropped := if keep then s.dropped else s.dropped + 1,
       offered := s.offered + [line],
       kept := s.kept + [keep])
  }

  lemma ConcatOneMore(lines: seq<Bytes>, line: Bytes)
    ensures Concat(lines + [line]) == Concat(lines) + line
  {
    ConcatAppends(lines, [line]);
    ConcatOne(line);
  }

  lemma BytesOneMore(read: Bytes, queue: seq<Bytes>, accepted: seq<Bytes>, line: Bytes)
    requires read + Concat(queue) == Concat(accepted)
    ensures read + Concat(queue + [line]) == Concat(accepted + [line])
  {
    ConcatOneMore(queue, line);
    ConcatOneMore(accepted, line);
    Associates(read, Concat(queue), line);
  }

  lemma OfferIsAccounted(s: Sub, line: Bytes)
    requires Accounted(s)
    ensures Accounted(Offer(s, line))
  {
    var keep, t, read := |s.queue| < SUBSCRIBER_BUFFER, Offer(s, line), s.delivered + s.pending;
    SelectOneMore(s.offered, s.kept, line, keep);
    assert t.dropped == Drops(t.kept) && Accepted(t) == if keep then Accepted(s) + [line] else Accepted(s);
    assert read + Concat(t.queue) == Concat(Accepted(t)) by {
      BytesOneMore(read, s.queue, Accepted(s), line);
    }
  }

  lemma OfferKeepsWaits(s: Sub, line: Bytes)
    requires Waits(s) && Accounted(s)
    ensures Waits(Offer(s, line))
  {
    if s.waiting {
      var t := Offer(s, line);
      assert t.offered[..s.polled] == s.offered[..s.polled];
      assert t.kept[..s.polled] == s.kept[..s.polled];
    }
  }

  // ---------------------------------------------------------------- the broadcaster

  /** The last REPLAY_LINES elements. */
  function Recent(lines: seq<Bytes>): (r: seq<Bytes>) {
    if |lines| <= REPLAY_LINES then lines else lines[|lines| - REPLAY_LINES..]
  }

  /** What a subscription is offered: the replay, then what is published while it lasts. */
  ghost predicate OfferedInOrder(s: Sub, published: seq<Bytes>) {
    && s.from <= s.until <= |published|
    && s.offered == Recent(published[..s.from]) + published[s.from..s.until]
  }

  /** Nothing of the replay was dropped. */
  ghost predicate ReplayKept(s: Sub) {
    forall i :: 0 <= i < |s.kept| && i < s.from && i < REPLAY_LINES ==> s.kept[i]
  }

  ghost predicate Placed(s: Sub, published: seq<Bytes>, subscribed: bool, closed: bool) {
    && (subscribed <==> !s.linesClosed && s.closing == Following)
    && (subscribed ==> s.until == |published|)
    && (s.linesClosed ==> closed)
  }

  ghost predicate Consistent(s: Sub, published: seq<Bytes>, subscribed: bool, closed: bool) {
    && Accounted(s) && Waits(s) && FilledQueue(s)
    && OfferedInOrder(s, published) && ReplayKept(s)
    && Placed(s, published, subscribed, closed)
  }

  lemma RecentGrows(published: seq<Bytes>, line: Bytes)
    ensures var replay := Recent(published);
            Recent(published + [line]) == (if |replay| == REPLAY_LINES then replay[1..] else replay) + [line]
  {
  }

  lemma SlicesGrow(published: seq<Bytes>, line: Bytes, from: nat, until: nat)
    requires from <= until <= |published|
    ensures (published + [line])[..from] == published[..from]
    ensures (published + [line])[from..until] == published[from..until]
    ensures (published + [line])[from..|published| + 1] == published[from..] + [line]
  {
  }

  lemma OfferKeepsOrder(s: Sub, published: seq<Bytes>, line: Bytes)
    requires OfferedInOrder(s, published) && s.until == |published|
    ensures OfferedInOrder(Offer(s, line).(until := |published| + 1), published + [line])
  {
    SlicesGrow(published, line, s.from, s.until);
    Associates(Recent(published[..s.from]), published[s.from..s.until], [line]);
    assert published[s.from..|published|] == published[s.from..];
  }

  lemma PublishIsConsistent(s: Sub, published: seq<Bytes>, line: Bytes)
    requires Consistent(s, published, true, false)
    ensures Consistent(Offer(s, line).(until := |published| + 1), published + [line], true, false)
  {
    var t := Offer(s, line).(until := |published| + 1);
    assert Accounted(t) by {
      OfferIsAccounted(s, line);
    }
    assert Waits(t) by {
      OfferKeepsWaits(s, line);
    }
    assert FilledQueue(t) by {
      OfferKeepsFilled(s, line);
    }
    assert OfferedInOrder(t, published + [line]) by {
      OfferKeepsOrder(s, published, line);
    }
    assert ReplayKept(t);
  }

  /** A publication does not concern those who are no longer subscribed. */
  lemma UnsubscribedIsConsistent(s: Sub, published: seq<Bytes>, line: Bytes, closed: bool)
    requires Consistent(s, published, false, closed)
    ensures Consistent(s, published + [line], false, closed)
  {
    SlicesGrow(published, line, s.from, s.until);
  }

  lemma CloseIsConsistent(s: Sub, published: seq<Bytes>)
    requires Consistent(s, published, true, false)
    ensures Consistent(s.(linesClosed := true), published, false, true)
  {
  }

  function Sent(s: Sub, line: Bytes): Sub {
    Offer(s, line).(until := s.until + 1)
  }

  /**
    The line was offered: it is queued behind the others if fewer than 8192 lines are queued,
    and is dropped and counted otherwise; nothing else changes.
   */
  predicate LineSent(s: Sub, t: Sub, line: Bytes) {
    && (|s.queue| < 8192 ==>
          t.queue == s.queue + [line] && t.dropped == s.dropped && t.kept == s.kept + [true])
    && (|s.queue| >= 8192 ==>
          t.queue == s.queue && t.dropped == s.dropped + 1 && t.kept == s.kept + [false])
    && t == s.(queue := t.queue, dropped := t.dropped, kept := t.kept, offered := s.offered + [line], until := s.until + 1)
  }

  lemma SentMeansLineSent(s: Sub, t: Sub, line: Bytes)
    ensures t == Sent(s, line) <==> LineSent(s, t, line)
  {
  }

  /** The line was sent to exactly those subscribers that are not left over. */
  ghost predicate SentTo(before: map<nat, Sub>, after: map<nat, Sub>, who: set<nat>, left: set<nat>, line: Bytes) {
    && after.Keys == before.Keys
    && forall id :: id in before ==>
         if id in who && id !in left then LineSent(before[id], after[id], line) else after[id] == before[id]
  }

  /** The channel `lines` of exactly those subscribers that are not left over was closed. */
  ghost predicate ClosedFor(before: map<nat, Sub>, after: map<nat, Sub>, who: set<nat>, left: set<nat>) {
    && after.Keys == before.Keys
    && forall id :: id in before ==>
         after[id] == if id in who && id !in left then before[id].(linesClosed := true) else before[id]
  }

  ghost predicate ConsistentAt(id: nat, subs: map<nat, Sub>, published: seq<Bytes>, subscribers: set<nat>, closed: bool, next: nat) {
    id in subs ==> id < next && Consistent(subs[id], published, id in subscribers, closed)
  }

  ghost predicate AllConsistent(subs: map<nat, Sub>, published: seq<Bytes>, subscribers: set<nat>, closed: bool, next: nat) {
    forall id :: ConsistentAt(id, subs, published, subscribers, closed, next)
  }

  lemma SubscribersAreOpen(subs: map<nat, Sub>, published: seq<Bytes>, subscribers: set<nat>, next: nat)
    requires AllConsistent(subs, published, subscribers, false, next) && subscribers <= subs.Keys
    ensures forall id :: id in subscribers ==> !subs[id].linesClosed
  {
    forall id | id in subscribers
      ensures !subs[id].linesClosed
    {
      assert ConsistentAt(id, subs, published, subscribers, false, next);
    }
  }

  lemma PublishToAll(before: map<nat, Sub>, after: map<nat, Sub>, published: seq<Bytes>, subscribers: set<nat>, line: Bytes, next: nat)
    requires AllConsistent(before, published, subscribers, false, next)
    requires SentTo(before, after, subscribers, {}, line)
    ensures AllConsistent(after, published + [line], subscribers, false, next)
  {
    forall id: nat
      ensures ConsistentAt(id, after, published + [line], subscribers, false, next)
    {
      assert ConsistentAt(id, before, published, subscribers, false, next);
      if id in before && id in subscribers {
        SentMeansLineSent(before[id], after[id], line);
        PublishIsConsistent(before[id], published, line);
      } else if id in before {
        UnsubscribedIsConsistent(before[id], published, line, false);
      }
    }
  }

  lemma CloseForAll(before: map<nat, Sub>, after: map<nat, Sub>, published: seq<Bytes>, subscribers: set<nat>, next: nat)
    requires AllConsistent(before, published, subscribers, false, next)
    requires ClosedFor(before, after, subscribers, {})
    ensures AllConsistent(after, published, {}, true, next)
  {
    forall id: nat
      ensures ConsistentAt(id, after, published, {}, true, next)
    {
      assert ConsistentAt(id, before, published, subscribers, false, next);
      if id in before && id in subscribers {
        CloseIsConsistent(before[id], published);
      }
    }
  }

  /** One subscription, new or old, changes and may join or leave. */
  lemma OneChanges(subs: map<nat, Sub>, published: seq<Bytes>, who: set<nat>, now: set<nat>, closed: bool, next: nat, later: nat, id: nat, t: Sub)
    requires AllConsistent(subs, published, who, closed, next) && next <= later && id < later
    requires forall other :: other != id ==> (other in who <==> other in now)
    requires Consistent(t, published, id in now, closed)
    ensures AllConsistent(subs[id := t], published, now, closed, later)
  {
    var after := subs[id := t];
    forall other: nat
      ensures ConsistentAt(other, after, published, now, closed, later)
    {
      assert ConsistentAt(other, subs, published, who, closed, next);
    }
  }

  /**
    What a subscription sees: the replay and then the lines published while it lasted are
    offered; those accepted are an in-order subsequence, the others are counted as dropped,
    none of the replay is; and what the reader got is a prefix of their concatenation.
   */
  lemma WhatASubscriberSees(s: Sub, published: seq<Bytes>, subscribed: bool, closed: bool) returns (at: seq<nat>)
    requires Consistent(s, published, subscribed, closed)
    ensures s.offered == Recent(published[..s.from]) + published[s.from..s.until]
    ensures subscribed ==> s.until == |published|
    ensures InOrder(at) && PickedFrom(Accepted(s), s.offered, at)
    ensures |Accepted(s)| + s.dropped == |s.offered|
    ensures forall i :: 0 <= i < s.from && i < REPLAY_LINES ==> i < |s.kept| && s.kept[i]
    ensures s.delivered <= Concat(Accepted(s))
  {
    AcceptedPlusDropped(s.offered, s.kept);
    at := AcceptedIsSubsequence(s.offered, s.kept);
    PrefixOfThree(s.delivered, s.pending, Concat(s.queue));
  }

  lemma PrefixOfThree(a: Bytes, b: Bytes, c: Bytes)
    ensures a <= a + b + c
  {
    Associates(a, b, c);
  }

  // ---------------------------------------------------------------- the reader

  datatype Outcome = Data(bytes: Bytes) | Received | Blocked | EofClosed | EofGaveUp

  datatype Ready = LineReady | DoneReady | ContextDone

  /** What the second select does when a given case is looked at. */
  function Choice(s: Sub, ready: Ready): Outcome {
    match ready
    case LineReady => if s.queue != [] then Received else if s.linesClosed then EofClosed else Blocked
    case DoneReady => if s.closing == Closed then EofGaveUp else Blocked
    case ContextDone => if s.bounded then EofGaveUp else Blocked
  }

  /** The subscription as it is after the replay was offered to it. */
  ghost predicate Replayed(s: Sub, replay: seq<Bytes>) {
    && s.queue == s.offered == replay && |s.kept| == |replay| && s.dropped == 0
    && forall i :: 0 <= i < |s.kept| ==> s.kept[i]
  }

  function Fresh(bounded: bool, from: nat): Sub {
    Sub([], false, [], 0, Following, bounded, false, [], [], [], 0, from, from)
  }

  lemma ReplayOneMore(s: Sub, replay: seq<Bytes>, i: nat)
    requires i < |replay| <= REPLAY_LINES && Replayed(s, replay[..i])
    ensures Replayed(Offer(s, replay[i]), replay[..i + 1])
  {
    assert replay[..i + 1] == replay[..i] + [replay[i]];
  }

  method ReplayTo(replay: seq<Bytes>, bounded: bool, from: nat) returns (s: Sub)
    requires |replay| <= REPLAY_LINES
    ensures Replayed(s, replay) && Accounted(s)
    ensures s == Fresh(bounded, from).(queue := s.queue, offered := s.offered, kept := s.kept)
  {
    s := Fresh(bounded, from);
    for i := 0 to |replay|
      invariant Replayed(s, replay[..i]) && Accounted(s)
      invariant s == Fresh(bounded, from).(queue := s.queue, offered := s.offered, kept := s.kept)
    {
      OfferIsAccounted(s, replay[i]);
      ReplayOneMore(s, replay, i);
      s := Offer(s, replay[i]);
    }
    assert replay[..|replay|] == replay;
  }

  /** A line leaves the channel. */
  function Taken(s: Sub): Sub
    requires s.queue != []
  {
    s.(pending := s.queue[0], queue := s.queue[1..], waiting := false)
  }

  lemma TakenIsConsistent(s: Sub, published: seq<Bytes>, subscribed: bool, closed: bool)
    requires Consistent(s, published, subscribed, closed) && s.queue != [] && s.pending == []
    ensures Consistent(Taken(s), published, subscribed, closed)
  {
    assert s.delivered + s.pending + Concat(s.queue) == s.delivered + s.queue[0] + Concat(s.queue[1..]);
  }

  /** Nothing is buffered: the reader enters the second select. */
  function Waiting(s: Sub): Sub {
    s.(waiting := true, polled := |s.offered|)
  }

  /** Everything accepted so far was delivered. */
  ghost predicate DeliveredAll(s: Sub) {
    |s.kept| == |s.offered| && s.delivered == Concat(Accepted(s))
  }

  /** Everything accepted before the last poll was delivered; what arrived since is still queued. */
  ghost predicate DeliveredAtPoll(s: Sub) {
    && |s.kept| == |s.offered| && s.polled <= |s.offered|
    && s.delivered == Concat(Select(s.offered[..s.polled], s.kept[..s.polled]))
    && s.delivered + Concat(s.queue) == Concat(Accepted(s))
  }

  lemma WaitIsConsistent(s: Sub, published: seq<Bytes>, subscribed: bool, closed: bool)
    requires Consistent(s, published, subscribed, closed) && s.queue == [] && s.pending == []
    ensures DeliveredAll(s)
    ensures Consistent(Waiting(s), published, subscribed, closed)
  {
    assert s.delivered + s.pending + Concat(s.queue) == s.delivered;
    assert s.offered[..|s.offered|] == s.offered && s.kept[..|s.offered|] == s.kept;
  }

  lemma GivesUp(s: Sub, published: seq<Bytes>, subscribed: bool, closed: bool)
    requires Consistent(s, published, subscribed, closed) && s.waiting
    ensures Consistent(s.(waiting := false), published, subscribed, closed)
    ensures DeliveredAtPoll(s)
    ensures NoEmptyLine(s.offered) ==> (DeliveredAll(s) <==> s.polled == |s.offered|)
  {
    assert s.delivered + s.pending == s.delivered;
    if NoEmptyLine(s.offered) {
      DeliveredAllIff(s);
    }
  }

  /** What was not read is what is queued, which for lines that are not empty is nothing only if nothing was offered. */
  lemma DeliveredAllIff(s: Sub)
    requires Accounted(s) && Waits(s) && FilledQueue(s) && s.waiting && NoEmptyLine(s.offered)
    ensures DeliveredAll(s) <==> s.polled == |s.offered|
  {
    FilledQueueIsEmptyIff(s);
    assert s.delivered + s.pending == s.delivered;
    assert |s.delivered + Concat(s.queue)| == |s.delivered| + |Concat(s.queue)|;
    assert s.delivered + [] == s.delivered;
  }

  lemma FreshIsConsistent(s: Sub, published: seq<Bytes>, closed: bool)
    requires Replayed(s, Recent(published)) && Accounted(s)
    requires s == Fresh(s.bounded, |published|).(queue := s.queue, offered := s.offered, kept := s.kept)
    ensures Consistent(s.(linesClosed := closed), published, !closed, closed)
  {
    assert published[..|published|] == published;
  }

  function Copied(s: Sub, n: nat): Sub
    requires n <= |s.pending|
  {
    s.(pending := s.pending[n..], delivered := s.delivered + s.pending[..n])
  }

  lemma CopiedIsConsistent(s: Sub, n: nat, published: seq<Bytes>, subscribed: bool, closed: bool)
    requires Consistent(s, published, subscribed, closed) && s.pending != [] && n <= |s.pending|
    ensures Consistent(Copied(s, n), published, subscribed, closed)
  {
    assert s.pending[..n] + s.pending[n..] == s.pending;
    assert Copied(s, n).delivered + Copied(s, n).pending == s.delivered + s.pending;
  }

  class LogBroadcaster {
    var subscribers: set<nat>
    var replay: seq<Bytes>
    var closed: bool
    var subs: map<nat, Sub>            // every subscription ever made
    var published: seq<Bytes>          // history: every line published before close
    var next: nat                      // the next subscription

    ghost predicate Valid()
      reads this
    {
      && replay == Recent(published)
      && subscribers <= subs.Keys
      && (closed ==> subscribers == {})
      && AllConsistent(subs, published, subscribers, closed, next)
    }

    constructor ()
      ensures Valid() && subs == map[] && published == [] && !closed
    {
      subscribers, replay, closed, subs, published, next := {}, [], false, map[], [], 0;
    }

    /** offer, for one current subscriber. */
    method SendLine(id: nat, line: Bytes)
      requires id in subs && !subs[id].linesClosed
      modifies this`subs
      ensures id in subs && LineSent(old(subs)[id], subs[id], line) && subs == old(subs)[id := subs[id]]
    {
      SentMeansLineSent(subs[id], Sent(subs[id], line), line);
      subs := subs[id := Sent(subs[id], line)];
    }

    method CloseLines(id: nat)
      requires id in subs && !subs[id].linesClosed
      modifies this`subs
      ensures subs == old(subs)[id := old(subs[id]).(linesClosed := true)]
    {
      subs := subs[id := subs[id].(linesClosed := true)];
    }

    method CloseDone(id: nat)
      requires id in subs && subs[id].closing != Closed
      modifies this`subs
      ensures subs == old(subs)[id := old(subs[id]).(closing := Closed)]
    {
      subs := subs[id := subs[id].(closing := Closed)];
    }

    method Publish(line: Bytes)
      requires Valid()
      modifies this`replay, this`subs, this`published
      ensures Valid()
      ensures published == if closed then old(published) else old(published) + [line]
      ensures !closed ==> SentTo(old(subs), subs, subscribers, {}, line)
      ensures closed ==> subs == old(subs) && replay == old(replay)
      ensures |replay| == (if |published| < 150 then |published| else 150) && replay == published[|published| - |replay|..]
    {
      if closed {
        return;
      }
      Remember(line);
      SubscribersAreOpen(subs, published, subscribers, next);
      SendToAll(line);
      PublishToAll(old(subs), subs, published, subscribers, line, next);
      published := published + [line];
    }

    method Remember(line: Bytes)
      requires replay == Recent(published)
      modifies this`replay
      ensures replay == Recent(published + [line])
    {
      RecentGrows(published, line);
      if |replay| == REPLAY_LINES {
        replay := replay[1..];
      }
      replay := replay + [line];
    }

    /** The loop of publish over the subscribers, in any order. */
    method SendToAll(line: Bytes)
      requires subscribers <= subs.Keys
      requires forall id :: id in subscribers ==> !subs[id].linesClosed
      modifies this`subs
      ensures SentTo(old(subs), subs, subscribers, {}, line)
    {
      var todo := subscribers;
      while todo != {}
        invariant todo <= subscribers
        invariant SentTo(old(subs), subs, subscribers, todo, line)
        decreases todo
      {
        var id :| id in todo;
        SendLine(id, line);
        todo := todo - {id};
      }
    }

    /** close: every subscriber's channel is closed once; later calls do nothing. */
    method Close()
      requires Valid()
      modifies this`closed, this`subscribers, this`subs
      ensures Valid() && closed && subscribers == {}
      ensures ClosedFor(old(subs), subs, old(subscribers), {})
    {
      if closed {
        return;
      }
      closed := true;
      SubscribersAreOpen(subs, published, subscribers, next);
      CloseAll();
      CloseForAll(old(subs), subs, published, old(subscribers), next);
    }

    method CloseAll()
      requires subscribers <= subs.Keys
      requires forall id :: id in subscribers ==> !subs[id].linesClosed
      modifies this`subscribers, this`subs
      ensures subscribers == {} && ClosedFor(old(subs), subs, old(subscribers), {})
    {
      while subscribers != {}
        invariant subscribers <= old(subscribers)
        invariant ClosedFor(old(subs), subs, old(subscribers), subscribers)
        decreases subscribers
      {
        var id :| id in subscribers;
        CloseLines(id);
        subscribers := subscribers - {id};
      }
    }

    /** One subscription is replaced by another state of it. */
    method Update(id: nat, t: Sub)
      requires Valid() && id in subs && Consistent(t, published, id in subscribers, closed)
      modifies this`subs
      ensures Valid() && subs == old(subs)[id := t]
    {
      assert ConsistentAt(id, subs, published, subscribers, closed, next);
      OneChanges(subs, published, subscribers, subscribers, closed, next, next, id, t);
      subs := subs[id := t];
    }

    /** subscribe: the reader gets all of the replay, and follows the stream unless it has ended. */
    method Subscribe(bounded: bool) returns (id: nat)
      requires Valid()
      modifies this`subs, this`subscribers, this`next
      ensures Valid() && id !in old(subs) && id in subs && subs == old(subs)[id := subs[id]]
      ensures subs[id] == Sub(replay, closed, [], 0, Following, bounded, false,
                              replay, subs[id].kept, [], 0, |published|, |published|)
      ensures subscribers == if closed then {} else old(subscribers) + {id}
    {
      id := next;
      var s := ReplayTo(replay, bounded, |published|);
      FreshIsConsistent(s, published, closed);
      Join(id, s.(linesClosed := closed));
    }

    method Join(id: nat, s: Sub)
      requires Valid() && id == next && Consistent(s, published, !closed, closed)
      modifies this`subs, this`subscribers, this`next
      ensures Valid() && id !in old(subs) && subs == old(subs)[id := s]
      ensures subscribers == if closed then {} else old(subscribers) + {id}
    {
      assert ConsistentAt(id, subs, published, subscribers, closed, next);
      var now := if closed then subscribers else subscribers + {id};
      OneChanges(subs, published, subscribers, now, closed, next, next + 1, id, s);
      subscribers := now;
      next := next + 1;
      subs := subs[id := s];
    }

    /** The first part of Close, under the lock; closeOnce lets only one call through. */
    method Unsubscribe(id: nat)
      requires Valid() && id in subs
      modifies this`subs, this`subscribers
      ensures Valid() && id !in subscribers && subscribers == old(subscribers) - {id}
      ensures id in subs && subs[id].closing != Following
      ensures subs == if old(subs)[id].closing == Following
                      then old(subs)[id := old(subs)[id].(closing := Unsubscribed)] else old(subs)
    {
      assert ConsistentAt(id, subs, published, subscribers, closed, next);
      var s := subs[id];
      if s.closing == Following {
        var t, now := s.(closing := Unsubscribed), subscribers - {id};
        OneChanges(subs, published, subscribers, now, closed, next, next, id, t);
        subscribers := now;
        subs := subs[id := t];
      }
    }

    /** The end of the one effective Close. */
    method FinishClose(id: nat)
      requires Valid() && id in subs && subs[id].closing == Unsubscribed
      modifies this`subs
      ensures Valid() && subs == old(subs)[id := old(subs[id]).(closing := Closed)]
    {
      ghost var t := subs[id].(closing := Closed);
      assert ConsistentAt(id, subs, published, subscribers, closed, next);
      OneChanges(subs, published, subscribers, subscribers, closed, next, next, id, t);
      CloseDone(id);
    }

    method Receive(id: nat)
      requires Valid() && id in subs && subs[id].pending == [] && subs[id].queue != []
      modifies this`subs
      ensures Valid() && subs == old(subs)[id := Taken(old(subs)[id])]
    {
      assert ConsistentAt(id, subs, published, subscribers, closed, next);
      TakenIsConsistent(subs[id], published, id in subscribers, closed);
      Update(id, Taken(subs[id]));
    }

    /** The first select of Read: take what is buffered, or go on to wait. */
    method Poll(id: nat) returns (o: Outcome)
      requires Valid() && id in subs && subs[id].pending == [] && !subs[id].waiting
      modifies this`subs
      ensures Valid() && id in subs
      ensures var s := old(subs)[id];
              if s.queue != [] then
                o == Received && subs == old(subs)[id := s.(pending := s.queue[0], queue := s.queue[1..])]
              else if s.linesClosed then o == EofClosed && subs == old(subs)
              else o == Blocked && subs == old(subs)[id := s.(waiting := true, polled := |s.offered|)]
      ensures o != Received ==> DeliveredAll(subs[id])
    {
      var s := subs[id];
      if s.queue != [] {
        Receive(id);
        return Received;
      }
      assert ConsistentAt(id, subs, published, subscribers, closed, next);
      WaitIsConsistent(s, published, id in subscribers, closed);
      if s.linesClosed {
        return EofClosed;
      }
      Update(id, Waiting(s));
      return Blocked;
    }

    /**
      The second select of Read, which takes any case that is ready.  An end because the
      stream was closed comes only after everything accepted was delivered; an end because
      the reader gave up needs a deadline or a Close, comes after everything that was accepted
      at the last poll, and misses nothing if and only if no line was offered since then.
     */
    method Await(id: nat, ready: Ready) returns (o: Outcome)
      requires Valid() && id in subs && subs[id].waiting
      modifies this`subs
      ensures Valid() && id in subs
      ensures ready == LineReady ==> var s := old(subs)[id];
              if s.queue != [] then
                o == Received && subs == old(subs)[id := s.(pending := s.queue[0], queue := s.queue[1..], waiting := false)]
              else o == if s.linesClosed then EofClosed else Blocked
      ensures ready == DoneReady ==> o == if old(subs)[id].closing == Closed then EofGaveUp else Blocked
      ensures ready == ContextDone ==> o == if old(subs)[id].bounded then EofGaveUp else Blocked
      ensures o == Blocked ==> subs == old(subs)
      ensures o == EofClosed || o == EofGaveUp ==> subs == old(subs)[id := old(subs)[id].(waiting := false)]
      ensures o == EofClosed ==> DeliveredAll(subs[id])
      ensures o == EofGaveUp ==> DeliveredAtPoll(subs[id]) && (subs[id].bounded || subs[id].closing == Closed)
      ensures o == EofGaveUp && NoEmptyLine(subs[id].offered) ==>
        (DeliveredAll(subs[id]) <==> subs[id].polled == |subs[id].offered|)
    {
      var s := subs[id];
      o := Choice(s, ready);
      assert ConsistentAt(id, subs, published, subscribers, closed, next);
      if o == Received {
        Receive(id);
      } else if o != Blocked {
        GivesUp(s, published, id in subscribers, closed);
        Update(id, s.(waiting := false));
      }
    }

    /** The end of Read: as much of the pending line as there is room for. */
    method Copy(id: nat, room: nat) returns (o: Outcome)
      requires Valid() && id in subs && subs[id].pending != []
      modifies this`subs
      ensures Valid() && id in subs
      ensures o.Data? && |o.bytes| == if room < |old(subs)[id].pending| then room else |old(subs)[id].pending|
      ensures subs[id].delivered == old(subs)[id].delivered + o.bytes
      ensures o.bytes + subs[id].pending == old(subs)[id].pending
      ensures subs == old(subs)[id := old(subs)[id].(pending := subs[id].pending, delivered := subs[id].delivered)]
    {
      var s := subs[id];
      var n := if room < |s.pending| then room else |s.pending|;
      assert ConsistentAt(id, subs, published, subscribers, closed, next);
      CopiedIsConsistent(s, n, published, id in subscribers, closed);
      Update(id, Copied(s, n));
      return Data(s.pending[..n]);
    }
  }

  // ---------------------------------------------------------------- every interleaving

  datatype Op =
    | DoPublish(line: Bytes)
    | DoClose
    | DoSubscribe(bounded: bool)
    | DoUnsubscribe(id: nat)
    | DoFinishClose(id: nat)
    | DoPoll(id: nat)
    | DoAwait(id: nat, ready: Ready)
    | DoCopy(id: nat, room: nat)

  /** The operation is the next one of its goroutine. */
  predicate Enabled(op: Op, subs: map<nat, Sub>) {
    match op
    case DoUnsubscribe(id) => id in subs
    case DoFinishClose(id) => id in subs && subs[id].closing == Unsubscribed
    case DoPoll(id) => id in subs && subs[id].pending == [] && !subs[id].waiting
    case DoAwait(id, _) => id in subs && subs[id].waiting
    case DoCopy(id, _) => id in subs && subs[id].pending != []
    case _ => true
  }

  method Do(b: LogBroadcaster, op: Op)
    requires b.Valid() && Enabled(op, b.subs)
    modifies b
    ensures b.Valid()
  {
    match op
    case DoPublish(line) => b.Publish(line);
    case DoClose => b.Close();
    case DoSubscribe(bounded) => var id := b.Subscribe(bounded);
    case DoUnsubscribe(id) => b.Unsubscribe(id);
    case DoFinishClose(id) => b.FinishClose(id);
    case DoPoll(id) => var o := b.Poll(id);
    case DoAwait(id, ready) => var o := b.Await(id, ready);
    case DoCopy(id, room) => var o := b.Copy(id, room);
  }

  /** Every interleaving of enabled steps keeps the books of every subscription, and none panics. */
  method Interleave(schedule: seq<Op>) returns (b: LogBroadcaster)
    ensures fresh(b) && b.Valid()
  {
    b := new LogBroadcaster();
    for i := 0 to |schedule|
      invariant fresh(b) && b.Valid()
    {
      if Enabled(schedule[i], b.subs) {
        Do(b, schedule[i]);
      }
    }
  }

  /**
    A bounded reader may report the end of the stream with a line still buffered: the line
    arrives between its two selects and its deadline has passed when it enters the second.
   */
  method DeadlineCanPreemptALine(line: Bytes) returns (o: Outcome, left: seq<Bytes>)
    ensures o == EofGaveUp && left == [line]
  {
    var b := new LogBroadcaster();
    var id := b.Subscribe(true);
    assert b.replay == [];
    o, left := Race(b, id, line);
  }

  /** The line arrives between the two selects of a bounded reader that has nothing buffered. */
  method Race(b: LogBroadcaster, id: nat, line: Bytes) returns (o: Outcome, left: seq<Bytes>)
    requires b.Valid() && !b.closed && id in b.subscribers && id in b.subs
    requires b.subs[id].bounded && b.subs[id].pending == [] && b.subs[id].queue == [] && !b.subs[id].waiting && !b.subs[id].linesClosed
    modifies b
    ensures o == EofGaveUp && left == [line]
  {
    o := b.Poll(id);
    PublishTo(b, id, line);
    o, left := Expire(b, id);
  }

  method PublishTo(b: LogBroadcaster, id: nat, line: Bytes)
    requires b.Valid() && !b.closed && id in b.subscribers && id in b.subs
    modifies b
    ensures b.Valid() && id in b.subs && LineSent(old(b.subs)[id], b.subs[id], line)
  {
    b.Publish(line);
  }

  method Expire(b: LogBroadcaster, id: nat) returns (o: Outcome, left: seq<Bytes>)
    requires b.Valid() && id in b.subs && b.subs[id].bounded && b.subs[id].waiting
    modifies b
    ensures o == EofGaveUp && left == old(b.subs)[id].queue
  {
    o := b.Await(id, ContextDone);
    left := b.subs[id].queue;
  }
}
