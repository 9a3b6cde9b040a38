/**
 A subscriber as the shared object behind its lock, and the future that sends one message to
 every subscriber of a topic. Each method refines the value-level step of `Subscriber`.
 */
module PubSub {
  import opened Common
  import opened RingQueue
  import opened Subscriber

  class InnerSubscriber<T(!new)> {
    const queue: RingQ<T>
    var wakerPublishers: seq<nat>
    var wakerSubscriber: Option<nat>
    var closed: bool

    ghost predicate Valid()
      reads this, queue, queue.queue
    {
      queue.Valid()
    }

    /** The subscriber as a value. */
    ghost function View(): (s: Inner<T>)
      reads this, queue
    {
      Inner(queue.contents, wakerPublishers, wakerSubscriber, closed)
    }

    function Capacity(): (q: nat) {
      queue.queue.Length
    }

    constructor (queueSize: nat)
      ensures Valid() && View() == NewInner() && Capacity() == queueSize
      ensures fresh(queue) && fresh(queue.queue)
    {
      queue := new RingQ(queueSize);
      wakerPublishers, wakerSubscriber, closed := [], None, false;
    }

    /** Pops parked publishers, at most one for every free slot of the queue. */
    method WakePublishers() returns (woken: seq<nat>)
      requires Valid()
      modifies this`wakerPublishers
      ensures woken + wakerPublishers == old(wakerPublishers)
      ensures |woken| == Min(Capacity() - |queue.contents|, |old(wakerPublishers)|)
    {
      woken := [];
      ghost var parked := wakerPublishers;
      var i, free := 0, queue.queue.Length - queue.len;
      while i < free && wakerPublishers != []
        invariant 0 <= i <= free && i <= |parked|
        invariant woken == parked[..i] && wakerPublishers == parked[i..]
      {
        woken := woken + [wakerPublishers[0]];
        wakerPublishers := wakerPublishers[1..];
        i := i + 1;
      }
    }

    method RecvOrRegisterWaker(w: nat) returns (data: Option<T>, woken: seq<nat>)
      requires Valid()
      modifies this, queue, queue.queue
      ensures Valid()
      ensures Received(View(), data, woken) == Subscriber.RecvOrRegisterWaker(Capacity(), old(View()), w)
    {
      data := queue.Pop();
      woken := [];
      if data.Some? {
        woken := WakePublishers();
      } else {
        wakerSubscriber := Some(w);
      }
    }

    /** A receive that never parks. It wakes publishers even when it finds nothing. */
    method TryRecv() returns (data: Option<T>, woken: seq<nat>)
      requires Valid()
      modifies this, queue, queue.queue
      ensures Valid()
      ensures old(View().queue) != [] ==>
        Received(View(), data, woken) == Subscriber.RecvOrRegisterWaker(Capacity(), old(View()), 0)
      ensures old(View().queue) == [] ==>
        && data == None && |woken| == Min(Capacity(), |old(wakerPublishers)|)
        && View() == old(View()).(wakerPublishers := old(wakerPublishers)[|woken|..])
        && woken <= old(wakerPublishers)
    {
      data := queue.Pop();
      woken := WakePublishers();
    }

    /** What a send does to this subscriber while it holds the lock. */
    method Deliver(flowControl: bool, data: T, w: nat) returns (outcome: Outcome, woken: seq<nat>)
      requires Valid()
      modifies this, queue, queue.queue
      ensures Valid()
      ensures Sent(View(), outcome, woken) == SendOrRegisterWaker(Capacity(), flowControl, old(View()), data, w)
    {
      woken := [];
      if closed {
        return Skipped, [];
      }
      if wakerPublishers != [] {
        wakerPublishers := wakerPublishers + [w];
        return Parked, [];
      }
      var refused := queue.Push(data);
      if refused == None {
        if wakerSubscriber.Some? {
          woken := [wakerSubscriber.value];
          wakerSubscriber := None;
        }
      } else if flowControl {
        wakerPublishers := wakerPublishers + [w];
        return Parked, [];
      } else {
        var _ := queue.Pop();
        var _ := queue.Push(refused.value);
      }
      return Pushed, woken;
    }

    /** Destroying the subscriber closes it and wakes every parked publisher. */
    method Close() returns (woken: seq<nat>)
      requires Valid()
      modifies this
      ensures Valid() && (View(), woken) == Subscriber.Close(old(View()))
      ensures closed && wakerPublishers == [] && woken == old(wakerPublishers)
      ensures queue.contents == old(queue.contents) && wakerSubscriber == old(wakerSubscriber)
    {
      closed := true;
      woken := [];
      ghost var parked := wakerPublishers;
      while wakerPublishers != []
        invariant closed && wakerSubscriber == old(wakerSubscriber)
        invariant |woken| <= |parked| && woken == parked[..|woken|] && wakerPublishers == parked[|woken|..]
        decreases |wakerPublishers|
      {
        woken := woken + [wakerPublishers[0]];
        wakerPublishers := wakerPublishers[1..];
      }
      assert woken == parked;
    }
  }

  ghost function Queues<T(!new)>(subs: seq<InnerSubscriber<T>>): (r: set<RingQ<T>>) {
    set i | 0 <= i < |subs| :: subs[i].queue
  }

  ghost function Buffers<T(!new)>(subs: seq<InnerSubscriber<T>>): (r: set<array<Option<T>>>) {
    set i | 0 <= i < |subs| :: subs[i].queue.queue
  }

  /** The subscribers are valid, equally large and share no object. */
  ghost predicate AllValid<T(!new)>(q: nat, subs: seq<InnerSubscriber<T>>)
    reads subs, Queues(subs), Buffers(subs)
  {
    && (forall i :: 0 <= i < |subs| ==> subs[i].Valid() && subs[i].Capacity() == q)
    && (forall i, j :: 0 <= i < j < |subs| ==>
          subs[i] != subs[j] && subs[i].queue != subs[j].queue && subs[i].queue.queue != subs[j].queue.queue)
  }

  ghost function Views<T(!new)>(subs: seq<InnerSubscriber<T>>): (r: seq<Inner<T>>)
    reads subs, Queues(subs)
    ensures |r| == |subs| && forall i :: 0 <= i < |r| ==> r[i] == subs[i].View()
  {
    seq(|subs|, i requires 0 <= i < |subs| reads subs, Queues(subs) => subs[i].View())
  }

  /** Serves one subscriber of a list; the others keep their values. */
  method DeliverAt<T(!new)>(
      q: nat, flowControl: bool, ghost subs: seq<InnerSubscriber<T>>, ghost k: nat, sub: InnerSubscriber<T>,
      data: T, w: nat)
    returns (outcome: Outcome, woken: seq<nat>)
    requires AllValid(q, subs) && k < |subs| && sub == subs[k]
    modifies sub, sub.queue, sub.queue.queue
    ensures AllValid(q, subs)
    ensures
      var sent := SendOrRegisterWaker(q, flowControl, old(Views(subs))[k], data, w);
      Views(subs) == old(Views(subs))[k := sent.inner] && outcome == sent.outcome && woken == sent.woken
  {
    outcome, woken := sub.Deliver(flowControl, data, w);
  }

  /** Takes subscribers off the front of the list until one parks the sender, which goes back on. */
  method ServeAll<T(!new)>(q: nat, flowControl: bool, subs: seq<InnerSubscriber<T>>, data: T, w: nat)
    returns (left: seq<InnerSubscriber<T>>, woken: seq<nat>)
    requires AllValid(q, subs)
    modifies subs, Queues(subs), Buffers(subs)
    ensures AllValid(q, subs)
    ensures
      var polled := PollSend(q, flowControl, old(Views(subs)), data, w);
      Views(subs) == polled.inners && left == subs[polled.done..] && woken == polled.woken
  {
    left, woken := subs, [];
    ghost var before, done := Views(subs), 0;
    ghost var now := before;
    while left != []
      invariant 0 <= done <= |subs| && left == subs[done..] && AllValid(q, subs)
      invariant now == Views(subs) && |now| == |subs| && forall i :: 0 <= i < |now| ==> |now[i].queue| <= q
      invariant PollFrom(q, flowControl, now, data, w, done, woken) == PollSend(q, flowControl, before, data, w)
      decreases |left|
    {
      var subscriber := left[0];
      assert subscriber == subs[done] && subscriber.queue in Queues(subs) && subscriber.queue.queue in Buffers(subs);
      var outcome, awoken := DeliverAt(q, flowControl, subs, done, subscriber, data, w);
      now := now[done := SendOrRegisterWaker(q, flowControl, now[done], data, w).inner];
      if outcome == Parked {
        return;
      }
      left := left[1..];
      woken := woken + awoken;
      done := done + 1;
    }
  }

  datatype SenderState = Start | Wait | Finished

  class Sender<T(!new)> {
    const data: T
    var subscribers: seq<InnerSubscriber<T>>
    var state: SenderState

    constructor (data: T)
      ensures this.data == data && state == Start && subscribers == []
    {
      this.data, subscribers, state := data, [], Start;
    }

    /** The subscribers still to be served; a send that has not begun takes those in `table`. */
    ghost function Pending(table: seq<InnerSubscriber<T>>): (r: seq<InnerSubscriber<T>>)
      reads this
    {
      match state
      case Start => table
      case Wait => subscribers
      case Finished => []
    }

    /**
     Polls the send once for task `w`. The subscribers taken up after a park are those that were
     left, so a send that is polled to its end serves each of them exactly once.
     */
    method Poll(
        q: nat, flowControl: bool, table: seq<InnerSubscriber<T>>, w: nat, ghost pending: seq<InnerSubscriber<T>>)
      returns (ready: bool, woken: seq<nat>)
      requires pending == Pending(table) && AllValid(q, pending)
      modifies this, pending, Queues(pending), Buffers(pending)
      ensures AllValid(q, pending)
      ensures
        var polled := PollSend(q, flowControl, old(Views(pending)), data, w);
        && Views(pending) == polled.inners && woken == polled.woken
        && ready == (polled.done == |pending|)
        && state == (if ready then Finished else Wait)
        && Pending(table) == pending[polled.done..]
    {
      if state == Finished {
        return true, [];
      }
      var subs := if state == Start then table else subscribers;
      var left;
      left, woken := ServeAll(q, flowControl, subs, data, w);
      ready := left == [];
      subscribers, state := left, if ready then Finished else Wait;
    }
  }
}
