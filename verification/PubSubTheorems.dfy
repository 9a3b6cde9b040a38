/** What every run of a topic guarantees, and exactly when no publisher can be left behind. */
module PubSubTheorems {
  import opened Common
  import opened Subscriber
  import opened PubSubRun

  lemma {:induction false} RunInv(c: Config, run: seq<State>, i: nat)
    requires Run(c, run) && i < |run|
    ensures Inv(c, run[i])
  {
    if i == 0 {
      InitInv(c);
    } else {
      RunInv(c, run, i - 1);
      assert Steps(c, run[i - 1], run[i - 1 + 1]);
      var e :| RunStep(c, run[i - 1], e, run[i]);
      NextInv(c, run[i - 1], e);
    }
  }

  /**
   Every open subscriber has received, or still queues, each publisher's messages exactly once
   and in the order they were sent, up to the one the publisher is sending; what it received
   is a prefix of what was queued to it. A closed subscriber has a prefix of those.
   */
  lemma {:induction false} ExactlyOnceInOrder(c: Config, run: seq<State>, i: nat, k: nat, p: nat)
    requires Run(c, run) && i < |run| && k < c.subs && p < c.pubs
    ensures
      && |run[i].subs| == c.subs && |run[i].pubs| == c.pubs
      && var sub, pub := run[i].subs[k], run[i].pubs[p];
      && |sub.inner.queue| <= c.q
      && (!sub.inner.closed ==> Nums(sub.received + sub.inner.queue, p) == Tags(0, Due(pub, k)))
      && (sub.inner.closed ==> Nums(sub.received + sub.inner.queue, p) <= Tags(0, Due(pub, k)))
  {
    RunInv(c, run, i);
    assert LinkInv(k, run[i].subs[k], p, run[i].pubs[p]);
  }

  /**
   A receiver's waker is registered only while the queue is empty. A receiver sleeps only with its
   waker registered, and a publisher sleeps only in the line of the open subscriber it is serving,
   where it stands exactly once.
   */
  lemma {:induction false} NoLostWakeup(c: Config, run: seq<State>, i: nat)
    requires Run(c, run) && i < |run|
    ensures Inv(c, run[i])
    ensures forall k :: 0 <= k < c.subs && run[i].subs[k].inner.wakerSubscriber.Some? ==>
      run[i].subs[k].inner.queue == []
    ensures forall k :: 0 <= k < c.subs && !run[i].subs[k].awake && !run[i].subs[k].inner.closed ==>
      run[i].subs[k].inner.queue == [] && run[i].subs[k].inner.wakerSubscriber == Some(k)
    ensures forall p :: 0 <= p < c.pubs && !run[i].pubs[p].awake ==>
      var at := run[i].pubs[p].at;
      && at < c.subs && !run[i].subs[at].inner.closed
      && p in run[i].subs[at].inner.wakerPublishers && NoDup(run[i].subs[at].inner.wakerPublishers)
  {
    RunInv(c, run, i);
    var s := run[i];
    forall k | 0 <= k < c.subs
      ensures s.subs[k].inner.wakerSubscriber.Some? ==> s.subs[k].inner.queue == []
      ensures !s.subs[k].awake && !s.subs[k].inner.closed ==>
        s.subs[k].inner.queue == [] && s.subs[k].inner.wakerSubscriber == Some(k)
    {
      assert SubInv(c, k, s.subs[k]);
    }
    forall p | 0 <= p < c.pubs && !s.pubs[p].awake
      ensures var at := s.pubs[p].at;
        && at < c.subs && !s.subs[at].inner.closed
        && p in s.subs[at].inner.wakerPublishers && NoDup(s.subs[at].inner.wakerPublishers)
    {
      assert LinkInv(s.pubs[p].at, s.subs[s.pubs[p].at], p, s.pubs[p]);
      assert SubInv(c, s.pubs[p].at, s.subs[s.pubs[p].at]);
    }
  }

  /** Only a shut closes a subscriber, and no event changes one that is closed. */
  lemma {:induction false} NextClosed(c: Config, s: State, e: Event, k: nat)
    requires Inv(c, s) && Enabled(c, s, e) && k < c.subs
    ensures var t := Next(c, s, e);
      && |t.subs| == c.subs && (t.subs[k].inner.closed <==> s.subs[k].inner.closed || e == Shut(k))
      && (s.subs[k].inner.closed ==> t.subs[k] == s.subs[k])
  {
  }

  lemma {:induction false} StepClosed(c: Config, s: State, t: State, k: nat)
    requires Inv(c, s) && Steps(c, s, t) && k < c.subs && s.subs[k].inner.closed
    ensures |t.subs| == c.subs && t.subs[k] == s.subs[k]
  {
    var e :| RunStep(c, s, e, t);
    NextClosed(c, s, e, k);
  }

  /** Shutting a subscriber closes it, with its queue as it is and every publisher of its line awake. */
  lemma {:induction false} ShutExact(c: Config, s: State, k: nat)
    requires Inv(c, s) && Enabled(c, s, Shut(k))
    ensures var t := ShutStep(c, s, k);
      && |t.subs| == c.subs && |t.pubs| == c.pubs
      && t.subs[k].inner == s.subs[k].inner.(closed := true, wakerPublishers := [])
      && t.subs[k].received == s.subs[k].received
      && (forall j :: 0 <= j < c.subs && j != k ==> t.subs[j] == s.subs[j])
      && (forall p :: 0 <= p < c.pubs ==> t.pubs[p] == s.pubs[p].(awake := s.pubs[p].awake || s.pubs[p].at == k))
  {
    forall p | 0 <= p < c.pubs
      ensures ShutStep(c, s, k).pubs[p] == s.pubs[p].(awake := s.pubs[p].awake || s.pubs[p].at == k)
    {
      assert LinkInv(k, s.subs[k], p, s.pubs[p]);
    }
  }

  /** A closed subscriber never changes again, whatever happens in the rest of the run. */
  lemma {:induction false} ClosedForGood(c: Config, run: seq<State>, i: nat, j: nat, k: nat)
    requires Run(c, run) && i <= j < |run| && k < c.subs
    requires k < |run[i].subs| && run[i].subs[k].inner.closed
    ensures k < |run[j].subs| && run[j].subs[k] == run[i].subs[k]
    decreases j - i
  {
    if i < j {
      ClosedForGood(c, run, i, j - 1, k);
      RunInv(c, run, j - 1);
      assert Steps(c, run[j - 1], run[j - 1 + 1]);
      StepClosed(c, run[j - 1], run[j], k);
    }
  }

  /** Publishers wait in line only for a queue that holds something. */
  ghost predicate LinesBehindData(c: Config, s: State)
    requires Shape(c, s)
  {
    forall k :: 0 <= k < c.subs && s.subs[k].inner.wakerPublishers != [] ==> s.subs[k].inner.queue != []
  }

  /** No line is longer than there are publishers. */
  lemma {:induction false} LineLength(c: Config, s: State, k: nat)
    requires Inv(c, s) && k < c.subs
    ensures |s.subs[k].inner.wakerPublishers| <= c.pubs
  {
    var line := s.subs[k].inner.wakerPublishers;
    assert SubInv(c, k, s.subs[k]);
    DupCardinality(line);
    BoundedSetCardinality(set x | x in line, 0, c.pubs);
  }

  lemma {:induction false} NextLines(c: Config, s: State, e: Event)
    requires Inv(c, s) && Enabled(c, s, e) && LinesBehindData(c, s) && c.pubs <= c.q
    ensures Shape(c, Next(c, s, e)) && LinesBehindData(c, Next(c, s, e))
  {
    NextInv(c, s, e);
    if e.Receive? {
      LineLength(c, s, e.sub);
    }
  }

  /** With room for a message of every publisher, a line only ever forms behind data. */
  lemma {:induction false} RunLines(c: Config, run: seq<State>, i: nat)
    requires Run(c, run) && i < |run| && c.pubs <= c.q
    ensures Inv(c, run[i]) && LinesBehindData(c, run[i])
  {
    RunInv(c, run, i);
    if i > 0 {
      RunLines(c, run, i - 1);
      assert Steps(c, run[i - 1], run[i - 1 + 1]);
      var e :| RunStep(c, run[i - 1], e, run[i]);
      NextLines(c, run[i - 1], e);
    }
  }

  /** Every publisher sleeps, and no receiver that could serve one is open and awake. */
  ghost predicate Stuck(c: Config, s: State)
    requires Shape(c, s)
  {
    && c.pubs > 0
    && (forall p :: 0 <= p < c.pubs ==> !s.pubs[p].awake)
    && (forall k :: 0 <= k < c.subs ==> !s.subs[k].awake || s.subs[k].inner.closed)
  }

  /**
   When the queues have room for a message of every publisher, a sleeping publisher always
   waits for an open receiver that is awake and has a message to take.
   */
  lemma {:induction false} SleeperIsServed(c: Config, run: seq<State>, i: nat, p: nat)
    requires Run(c, run) && i < |run| && c.pubs <= c.q && p < c.pubs
    ensures
      && Shape(c, run[i])
      && (!run[i].pubs[p].awake ==>
            && run[i].pubs[p].at < c.subs
            && Enabled(c, run[i], Receive(run[i].pubs[p].at))
            && run[i].subs[run[i].pubs[p].at].inner.queue != [])
  {
    RunLines(c, run, i);
    NoLostWakeup(c, run, i);
  }

  /** Some run of `c` ends in `s`. */
  ghost predicate Reachable(c: Config, s: State) {
    exists run :: Run(c, run) && run[|run| - 1] == s
  }

  lemma {:induction false} ReachNext(c: Config, s: State, e: Event)
    requires Reachable(c, s) && Shape(c, s) && Enabled(c, s, e)
    ensures Reachable(c, Next(c, s, e)) && Inv(c, s) && Inv(c, Next(c, s, e))
  {
    var run :| Run(c, run) && run[|run| - 1] == s;
    RunInv(c, run, |run| - 1);
    NextInv(c, s, e);
    var longer := run + [Next(c, s, e)];
    forall i | 0 <= i < |longer| - 1 ensures Steps(c, longer[i], longer[i + 1]) {
      if i < |run| - 1 {
        assert Steps(c, run[i], run[i + 1]);
      } else {
        assert RunStep(c, s, e, longer[i + 1]);
      }
    }
    assert Run(c, longer);
  }

  /** One open subscriber with an awake receiver and `n` queued messages; every publisher is at it. */
  ghost predicate Facing(c: Config, s: State, n: nat) {
    && c.subs == 1 && Reachable(c, s) && Inv(c, s)
    && s.subs[0].awake && !s.subs[0].inner.closed && |s.subs[0].inner.queue| == n
    && (forall p :: 0 <= p < c.pubs ==> s.pubs[p].at == 0)
  }

  /** One publisher fills the queue on its own. */
  lemma {:induction false} FillUp(c: Config, n: nat) returns (s: State)
    requires c.subs == 1 && c.pubs > 0 && n <= c.q
    ensures Facing(c, s, n) && s.subs[0].inner.wakerPublishers == []
  {
    if n == 0 {
      s := Init(c);
      InitInv(c);
      assert Run(c, [s]) && [s][|[s]| - 1] == s;
    } else {
      var before := FillUp(c, n - 1);
      assert LinkInv(0, before.subs[0], 0, before.pubs[0]);
      ReachNext(c, before, Publish(0));
      var pushed := Next(c, before, Publish(0));
      ReachNext(c, pushed, Publish(0));
      s := Next(c, pushed, Publish(0));
    }
  }

  /** Some publisher is awake when the line does not hold them all. */
  lemma {:induction false} SomeoneAwake(c: Config, s: State) returns (p: nat)
    requires Inv(c, s) && c.subs == 1 && |s.subs[0].inner.wakerPublishers| < c.pubs
    requires forall p :: 0 <= p < c.pubs ==> s.pubs[p].at == 0
    ensures p < c.pubs && s.pubs[p].awake
  {
    p := MissingNumber(s.subs[0].inner.wakerPublishers, c.pubs);
    assert LinkInv(0, s.subs[0], p, s.pubs[p]);
  }

  /** Behind a full queue, or behind each other, the publishers park one after the other. */
  lemma {:induction false} ParkAll(c: Config, s: State, n: nat) returns (t: State)
    requires Facing(c, s, n) && (n == c.q || s.subs[0].inner.wakerPublishers != [])
    ensures Facing(c, t, n) && |t.subs[0].inner.wakerPublishers| == c.pubs
    decreases c.pubs - |s.subs[0].inner.wakerPublishers|
  {
    LineLength(c, s, 0);
    if |s.subs[0].inner.wakerPublishers| == c.pubs {
      t := s;
    } else {
      var p := SomeoneAwake(c, s);
      ReachNext(c, s, Publish(p));
      LineLength(c, Next(c, s, Publish(p)), 0);
      t := ParkAll(c, Next(c, s, Publish(p)), n);
    }
  }

  /** With more publishers than slots, each receive leaves someone in line, and the line grows back. */
  lemma {:induction false} DrainAll(c: Config, s: State, n: nat) returns (t: State)
    requires Facing(c, s, n) && n <= c.q < c.pubs && |s.subs[0].inner.wakerPublishers| == c.pubs
    ensures Facing(c, t, 0) && |t.subs[0].inner.wakerPublishers| == c.pubs
    decreases n
  {
    if n == 0 {
      t := s;
    } else {
      ReachNext(c, s, Receive(0));
      var parked := ParkAll(c, Next(c, s, Receive(0)), n - 1);
      t := DrainAll(c, parked, n - 1);
    }
  }

  /** With more publishers than slots there is a run after which everyone sleeps for ever. */
  lemma {:induction false} StuckReachable(c: Config) returns (t: State)
    requires c.subs == 1 && c.q < c.pubs
    ensures Reachable(c, t) && Inv(c, t) && Stuck(c, t) && t.subs[0].inner.queue == []
  {
    var full := FillUp(c, c.q);
    var parked := ParkAll(c, full, c.q);
    var drained := DrainAll(c, parked, c.q);
    ReachNext(c, drained, Receive(0));
    t := Next(c, drained, Receive(0));
    forall p | 0 <= p < c.pubs ensures !t.pubs[p].awake {
      if t.pubs[p].awake {
        LineIsShort(c, t, p);
      }
    }
  }

  /** A publisher that is awake is missing from the line. */
  lemma {:induction false} LineIsShort(c: Config, s: State, p: nat)
    requires Inv(c, s) && c.subs == 1 && p < c.pubs && s.pubs[p].awake
    ensures |s.subs[0].inner.wakerPublishers| < c.pubs
  {
    var line := s.subs[0].inner.wakerPublishers;
    assert LinkInv(0, s.subs[0], p, s.pubs[p]) && SubInv(c, 0, s.subs[0]);
    DupCardinality(line);
    var members := set x | x in line;
    assert p !in members;
    BoundedSetCardinality(members + {p}, 0, c.pubs);
  }

  /** No topic with `pubs` publishers and queues of `q` slots can run into a state where all sleep. */
  ghost predicate NeverStuck(q: nat, pubs: nat) {
    forall subs: nat, s: State :: Reachable(Config(q, pubs, subs), s) && Inv(Config(q, pubs, subs), s) ==>
      !Stuck(Config(q, pubs, subs), s)
  }

  /** Flow control never brings a topic to a halt exactly when every publisher has a slot. */
  lemma {:induction false} NeverStuckExact(q: nat, pubs: nat)
    ensures NeverStuck(q, pubs) <==> pubs <= q
  {
    if pubs <= q {
      forall subs: nat, s: State | Reachable(Config(q, pubs, subs), s) && Inv(Config(q, pubs, subs), s)
        ensures !Stuck(Config(q, pubs, subs), s)
      {
        var c := Config(q, pubs, subs);
        var run :| Run(c, run) && run[|run| - 1] == s;
        if pubs > 0 {
          SleeperIsServed(c, run, |run| - 1, 0);
        }
      }
    } else {
      var t := StuckReachable(Config(q, pubs, 1));
    }
  }

  /**
   That a task is polled only while awake is needed: if a parked publisher is polled once more,
   it stands in line twice, and with one publisher and one slot the next receive leaves the
   queue empty, the publisher parked and the receiver asleep.
   */
  lemma {:induction false} SpuriousPollStalls<T>(first: T, second: T, pub: nat, sub: nat)
    ensures
      var parked := SendOrRegisterWaker(1, true, Inner([first], [], None, false), second, pub).inner;
      var twice := SendOrRegisterWaker(1, true, parked, second, pub).inner;
      var got := RecvOrRegisterWaker(1, twice, sub);
      var again := SendOrRegisterWaker(1, true, got.inner, second, pub);
      && parked.wakerPublishers == [pub] && twice.wakerPublishers == [pub, pub]
      && got.data == Some(first) && got.woken == [pub]
      && again.outcome.Parked? && again.inner.queue == []
      && RecvOrRegisterWaker(1, again.inner, sub).data == None
  {
    var parked := SendOrRegisterWaker(1, true, Inner([first], [], None, false), second, pub).inner;
    assert parked.wakerPublishers == [pub];
    var twice := SendOrRegisterWaker(1, true, parked, second, pub).inner;
    assert twice.wakerPublishers == [pub, pub];
    assert RecvOrRegisterWaker(1, twice, sub).woken == [pub];
  }
}
