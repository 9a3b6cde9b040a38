/**
 One subscriber of a topic as a value: its bounded queue and the wakers parked on it.
 Wakers are task numbers. Messages never expire (the permanent lifespan).
 */
module Subscriber {
  import opened Common

  datatype Inner<T> = Inner(
    queue: seq<T>,
    wakerPublishers: seq<nat>,
    wakerSubscriber: Option<nat>,
    closed: bool)

  function NewInner<T>(): (r: Inner<T>) {
    Inner([], [], None, false)
  }

  datatype Received<T> = Received(inner: Inner<T>, data: Option<T>, woken: seq<nat>)

  /**
   One poll of a receive by task `w`: takes the oldest message and wakes as many parked
   publishers as there are free slots, or parks `w` when there is no message.
   */
  function RecvOrRegisterWaker<T>(q: nat, s: Inner<T>, w: nat): (r: Received<T>)
    requires |s.queue| <= q
  {
    if s.queue == [] then Received(s.(wakerSubscriber := Some(w)), None, [])
    else
      var free := q - (|s.queue| - 1);
      var k := Min(free, |s.wakerPublishers|);
      Received(
        s.(queue := s.queue[1..], wakerPublishers := s.wakerPublishers[k..]),
        Some(s.queue[0]),
        s.wakerPublishers[..k])
  }

  datatype Outcome = Skipped | Parked | Pushed

  datatype Sent<T> = Sent(inner: Inner<T>, outcome: Outcome, woken: seq<nat>)

  /**
   What one poll of a send by task `w` does to one subscriber. With flow control a full queue
   parks the publisher, and so does the presence of other parked publishers. Without flow
   control the oldest message makes room.
   */
  function SendOrRegisterWaker<T>(q: nat, flowControl: bool, s: Inner<T>, data: T, w: nat): (r: Sent<T>)
    requires |s.queue| <= q
  {
    if s.closed then Sent(s, Skipped, [])
    else if s.wakerPublishers != [] then Sent(s.(wakerPublishers := s.wakerPublishers + [w]), Parked, [])
    else if |s.queue| < q then
      Sent(s.(queue := s.queue + [data], wakerSubscriber := None), Pushed,
           if s.wakerSubscriber.Some? then [s.wakerSubscriber.value] else [])
    else if flowControl then Sent(s.(wakerPublishers := s.wakerPublishers + [w]), Parked, [])
    else Sent(s.(queue := if q == 0 then [] else s.queue[1..] + [data]), Pushed, [])
  }

  /** Closing wakes every parked publisher. */
  function Close<T>(s: Inner<T>): (r: (Inner<T>, seq<nat>)) {
    (s.(closed := true, wakerPublishers := []), s.wakerPublishers)
  }

  /** How far a poll of a send got: the subscribers after it and how many of them it is done with. */
  datatype Polled<T> = Polled(inners: seq<Inner<T>>, done: nat, woken: seq<nat>)

  /** The rest of a poll of a send by task `w` that has served the first `done` of the subscribers. */
  function PollFrom<T>(
      q: nat, flowControl: bool, inners: seq<Inner<T>>, data: T, w: nat, done: nat, woken: seq<nat>): (r: Polled<T>)
    requires done <= |inners| && forall i :: 0 <= i < |inners| ==> |inners[i].queue| <= q
    ensures |r.inners| == |inners| && done <= r.done <= |inners|
    decreases |inners| - done
  {
    if done == |inners| then Polled(inners, done, woken)
    else
      var sent := SendOrRegisterWaker(q, flowControl, inners[done], data, w);
      var next := inners[done := sent.inner];
      if sent.outcome.Parked? then Polled(next, done, woken)
      else PollFrom(q, flowControl, next, data, w, done + 1, woken + sent.woken)
  }

  /** One poll of a send: serves the pending subscribers in turn until one parks it. */
  function PollSend<T>(q: nat, flowControl: bool, inners: seq<Inner<T>>, data: T, w: nat): (r: Polled<T>)
    requires forall i :: 0 <= i < |inners| ==> |inners[i].queue| <= q
  {
    PollFrom(q, flowControl, inners, data, w, 0, [])
  }

  /**
   A subscriber a send is done with: untouched when closed; otherwise with nobody in line and holding the
   message as its newest, exactly once. With room nothing is lost and its receiver is taken off the record;
   without room, which only a send without flow control is done with, the oldest message makes way and the
   receiver stays on record.
   */
  ghost predicate Served<T(!new)>(q: nat, flowControl: bool, before: Inner<T>, after: Inner<T>, data: T) {
    if before.closed then after == before
    else
      && before.wakerPublishers == after.wakerPublishers == [] && !after.closed
      && (flowControl ==> |before.queue| < q)
      && if |before.queue| < q then after.queue == before.queue + [data] && after.wakerSubscriber == None
         else
           && after.queue == (if q == 0 then [] else before.queue[1..] + [data])
           && after.wakerSubscriber == before.wakerSubscriber
  }

  /** A subscriber that parks a send: open, crowded or full, with the sender last in line. */
  ghost predicate Stopped<T(!new)>(q: nat, flowControl: bool, before: Inner<T>, after: Inner<T>, w: nat) {
    && !before.closed && (before.wakerPublishers != [] || (flowControl && |before.queue| == q))
    && after == before.(wakerPublishers := before.wakerPublishers + [w])
  }

  /** The receiver waiting at a subscriber that is open and has room, if there is one. */
  function Awakened<T>(q: nat, s: Inner<T>): (r: seq<nat>) {
    if !s.closed && |s.queue| < q && s.wakerSubscriber.Some? then [s.wakerSubscriber.value] else []
  }

  /** The receivers waiting at the first `n` subscribers that are open and have room, in order. */
  function Receivers<T>(q: nat, inners: seq<Inner<T>>, n: nat): (r: seq<nat>)
    requires n <= |inners|
  {
    if n == 0 then [] else Receivers(q, inners, n - 1) + Awakened(q, inners[n - 1])
  }

  lemma {:induction false} PollFromExact<T(!new)>(
      q: nat, flowControl: bool, inners: seq<Inner<T>>, data: T, w: nat, done: nat, woken: seq<nat>, i: nat)
    requires done <= |inners| && (forall j :: 0 <= j < |inners| ==> |inners[j].queue| <= q) && i < |inners|
    ensures var r := PollFrom(q, flowControl, inners, data, w, done, woken);
      && (i < done ==> r.inners[i] == inners[i])
      && (done <= i < r.done ==> Served(q, flowControl, inners[i], r.inners[i], data))
      && (i == r.done ==> Stopped(q, flowControl, inners[i], r.inners[i], w))
      && (i > r.done ==> r.inners[i] == inners[i])
    decreases |inners| - done
  {
    if done < |inners| {
      var sent := SendOrRegisterWaker(q, flowControl, inners[done], data, w);
      if !sent.outcome.Parked? {
        PollFromExact(q, flowControl, inners[done := sent.inner], data, w, done + 1, woken + sent.woken, i);
      }
    }
  }

  /** `all` are the subscribers before the poll; those from `done` on have not been touched. */
  lemma {:induction false} PollFromWakes<T(!new)>(
      q: nat, flowControl: bool, all: seq<Inner<T>>, inners: seq<Inner<T>>, data: T, w: nat, done: nat, woken: seq<nat>)
    requires done <= |inners| == |all| && forall j :: 0 <= j < |inners| ==> |inners[j].queue| <= q
    requires (forall j :: done <= j < |inners| ==> inners[j] == all[j]) && woken == Receivers(q, all, done)
    ensures var r := PollFrom(q, flowControl, inners, data, w, done, woken);
      r.woken == Receivers(q, all, r.done)
    decreases |inners| - done
  {
    if done < |inners| {
      var sent := SendOrRegisterWaker(q, flowControl, inners[done], data, w);
      if !sent.outcome.Parked? {
        assert sent.woken == Awakened(q, all[done]);
        PollFromWakes(q, flowControl, all, inners[done := sent.inner], data, w, done + 1, woken + sent.woken);
      }
    }
  }

  /**
   A poll wakes the receivers waiting at the subscribers it serves that are open and have room, in the
   order of the subscribers, each once and nobody else.
   */
  lemma {:induction false} PollSendWakes<T(!new)>(
      q: nat, flowControl: bool, inners: seq<Inner<T>>, data: T, w: nat)
    requires forall j :: 0 <= j < |inners| ==> |inners[j].queue| <= q
    ensures var r := PollSend(q, flowControl, inners, data, w); r.woken == Receivers(q, inners, r.done)
  {
    PollFromWakes(q, flowControl, inners, inners, data, w, 0, []);
  }

  /** A poll serves every subscriber before its stop, parks at the stop and leaves the rest alone. */
  lemma {:induction false} PollSendExact<T(!new)>(
      q: nat, flowControl: bool, inners: seq<Inner<T>>, data: T, w: nat, i: nat)
    requires forall j :: 0 <= j < |inners| ==> |inners[j].queue| <= q
    requires i < |inners|
    ensures var r := PollSend(q, flowControl, inners, data, w);
      && (i < r.done ==> Served(q, flowControl, inners[i], r.inners[i], data))
      && (i == r.done ==> Stopped(q, flowControl, inners[i], r.inners[i], w))
      && (i > r.done ==> r.inners[i] == inners[i])
  {
    PollFromExact(q, flowControl, inners, data, w, 0, [], i);
  }
}
