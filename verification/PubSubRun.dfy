/**
 A topic with flow control as a state machine: any number of publishers, each sending message
 after message to every subscriber, and receivers that take them. Each step holds one
 subscriber's lock. A task is polled only while it is awake, and sleeps from the poll that
 parked it until its waker is called.
 */
module PubSubRun {
  import opened Common
  import opened Subscriber

  datatype Config = Config(q: nat, pubs: nat, subs: nat)

  /** The `num`-th message of a publisher. */
  datatype Msg = Msg(pub: nat, num: nat)

  /** A publisher sends message `num` and has still to serve the subscribers from `at` on. */
  datatype Pub = Pub(awake: bool, at: nat, num: nat)

  /** A subscriber, whether its receiver is awake, what it has received and what was queued to it. */
  datatype Sub = Sub(inner: Inner<Msg>, awake: bool, received: seq<Msg>, log: seq<Msg>)

  datatype State = State(pubs: seq<Pub>, subs: seq<Sub>)

  function Init(c: Config): (s: State) {
    State(seq(c.pubs, _ => Pub(true, 0, 0)), seq(c.subs, _ => Sub(NewInner(), true, [], [])))
  }

  ghost predicate Shape(c: Config, s: State) {
    && |s.pubs| == c.pubs && |s.subs| == c.subs
    && forall k :: 0 <= k < |s.subs| ==> |s.subs[k].inner.queue| <= c.q
  }

  function WakePubs(pubs: seq<Pub>, woken: seq<nat>): (r: seq<Pub>)
    ensures |r| == |pubs|
  {
    seq(|pubs|, p requires 0 <= p < |pubs| => if p in woken then pubs[p].(awake := true) else pubs[p])
  }

  datatype Event = Publish(pub: nat) | Receive(sub: nat) | Shut(sub: nat)

  function PublishStep(c: Config, s: State, p: nat): (r: State)
    requires Shape(c, s) && p < c.pubs && s.pubs[p].at <= c.subs
  {
    var pub := s.pubs[p];
    if pub.at == c.subs then s.(pubs := s.pubs[p := Pub(true, 0, pub.num + 1)])
    else
      var sub := s.subs[pub.at];
      var msg := Msg(p, pub.num);
      var sent := SendOrRegisterWaker(c.q, true, sub.inner, msg, p);
      match sent.outcome
      case Parked => State(s.pubs[p := pub.(awake := false)], s.subs[pub.at := sub.(inner := sent.inner)])
      case Skipped => s.(pubs := s.pubs[p := pub.(at := pub.at + 1)])
      case Pushed =>
        State(s.pubs[p := pub.(at := pub.at + 1)],
              s.subs[pub.at := Sub(sent.inner, sub.awake || pub.at in sent.woken, sub.received, sub.log + [msg])])
  }

  function ReceiveStep(c: Config, s: State, k: nat): (r: State)
    requires Shape(c, s) && k < c.subs
  {
    var sub := s.subs[k];
    var got := RecvOrRegisterWaker(c.q, sub.inner, k);
    if got.data == None then s.(subs := s.subs[k := sub.(inner := got.inner, awake := false)])
    else
      State(WakePubs(s.pubs, got.woken),
            s.subs[k := sub.(inner := got.inner, received := sub.received + [got.data.value])])
  }

  function ShutStep(c: Config, s: State, k: nat): (r: State)
    requires Shape(c, s) && k < c.subs
  {
    var shut := Close(s.subs[k].inner);
    State(WakePubs(s.pubs, shut.1), s.subs[k := s.subs[k].(inner := shut.0)])
  }

  /** The event can happen: its task exists and is awake, and a receiver is not yet destroyed. */
  ghost predicate Enabled(c: Config, s: State, e: Event)
    requires Shape(c, s)
  {
    match e
    case Publish(p) => p < c.pubs && s.pubs[p].awake && s.pubs[p].at <= c.subs
    case Receive(k) => k < c.subs && s.subs[k].awake && !s.subs[k].inner.closed
    case Shut(k) => k < c.subs && !s.subs[k].inner.closed
  }

  ghost function Next(c: Config, s: State, e: Event): (r: State)
    requires Shape(c, s) && Enabled(c, s, e)
  {
    match e
    case Publish(p) => PublishStep(c, s, p)
    case Receive(k) => ReceiveStep(c, s, k)
    case Shut(k) => ShutStep(c, s, k)
  }

  ghost predicate RunStep(c: Config, s: State, e: Event, t: State) {
    Shape(c, s) && Enabled(c, s, e) && t == Next(c, s, e)
  }

  ghost predicate Run(c: Config, run: seq<State>) {
    && run != [] && run[0] == Init(c)
    && forall i :: 0 <= i < |run| - 1 ==> Steps(c, run[i], run[i + 1])
  }

  ghost predicate Steps(c: Config, s: State, t: State) {
    exists e: Event :: RunStep(c, s, e, t)
  }

  /** The numbers of the messages of publisher `p` in `log`, in order. */
  function Nums(log: seq<Msg>, p: nat): (r: seq<nat>) {
    if log == [] then []
    else
      var r := Nums(log[..|log| - 1], p);
      var last := log[|log| - 1];
      if last.pub == p then r + [last.num] else r
  }

  /** How many messages of publisher `pub` subscriber `k` must have been given. */
  function Due(pub: Pub, k: nat): (n: nat) {
    pub.num + if pub.at > k then 1 else 0
  }

  /** One subscriber alone. */
  ghost predicate SubInv(c: Config, k: nat, sub: Sub) {
    && |sub.inner.queue| <= c.q
    && sub.received + sub.inner.queue == sub.log
    && NoDup(sub.inner.wakerPublishers)
    && (sub.inner.closed ==> sub.inner.wakerPublishers == [])
    && (!sub.awake && !sub.inner.closed ==> sub.inner.queue == [] && sub.inner.wakerSubscriber == Some(k))
    && (sub.inner.wakerSubscriber.Some? ==> sub.inner.wakerSubscriber.value == k && sub.inner.queue == [])
  }

  /** A publisher and a subscriber: who is parked where, and what has been handed over. */
  ghost predicate LinkInv(k: nat, sub: Sub, p: nat, pub: Pub) {
    && (p in sub.inner.wakerPublishers <==> !pub.awake && pub.at == k)
    && (if sub.inner.closed then Nums(sub.log, p) <= Tags(0, Due(pub, k)) else Nums(sub.log, p) == Tags(0, Due(pub, k)))
  }

  ghost predicate Inv(c: Config, s: State) {
    && Shape(c, s)
    && (forall k :: 0 <= k < c.subs ==> SubInv(c, k, s.subs[k]))
    && (forall p :: 0 <= p < c.pubs ==> s.pubs[p].at <= c.subs && (!s.pubs[p].awake ==> s.pubs[p].at < c.subs))
    && (forall k, p: nat :: 0 <= k < c.subs && p in s.subs[k].inner.wakerPublishers ==> p < c.pubs)
    && (forall k, p :: 0 <= k < c.subs && 0 <= p < c.pubs ==> LinkInv(k, s.subs[k], p, s.pubs[p]))
  }

  lemma {:induction false} InitInv(c: Config)
    ensures Inv(c, Init(c))
  {
  }

  lemma {:induction false} NumsPush(log: seq<Msg>, m: Msg, p: nat)
    ensures Nums(log + [m], p) == if m.pub == p then Nums(log, p) + [m.num] else Nums(log, p)
  {
    assert (log + [m])[..|log|] == log;
  }

  /** What one visit does to the subscriber it visits. */
  lemma {:induction false} VisitSub(c: Config, s: State, p: nat)
    requires Inv(c, s) && p < c.pubs && s.pubs[p].awake && s.pubs[p].at < c.subs
    ensures var k := s.pubs[p].at; SubInv(c, k, PublishStep(c, s, p).subs[k])
  {
    var k := s.pubs[p].at;
    var sub := s.subs[k];
    assert SubInv(c, k, sub) && LinkInv(k, sub, p, s.pubs[p]);
    assert sub.received + (sub.inner.queue + [Msg(p, s.pubs[p].num)]) == sub.log + [Msg(p, s.pubs[p].num)];
  }

  lemma {:induction false} TagsStep(n: nat)
    ensures Tags(0, n + 1) == Tags(0, n) + [n]
  {
  }

  /** A visit of publisher `p` that pushes its message, seen from publisher `x`. */
  lemma {:induction false} PushLink(k: nat, sub: Sub, p: nat, pub: Pub, x: nat, other: Pub, sub': Sub)
    requires LinkInv(k, sub, x, other) && pub.awake && pub.at == k && (x == p ==> other == pub)
    requires !sub.inner.closed && !sub'.inner.closed && sub'.inner.wakerPublishers == sub.inner.wakerPublishers
    requires sub'.log == sub.log + [Msg(p, pub.num)]
    ensures LinkInv(k, sub', x, if x == p then pub.(at := k + 1) else other)
  {
    NumsPush(sub.log, Msg(p, pub.num), x);
    TagsStep(pub.num);
  }

  /** A visit of publisher `p` to a closed subscriber. */
  lemma {:induction false} SkipLink(k: nat, sub: Sub, p: nat, pub: Pub, x: nat, other: Pub)
    requires LinkInv(k, sub, x, other) && pub.awake && pub.at == k && (x == p ==> other == pub)
    requires sub.inner.closed
    ensures LinkInv(k, sub, x, if x == p then pub.(at := k + 1) else other)
  {
    TagsStep(pub.num);
  }

  /** What one visit does to the visited subscriber and each publisher. */
  lemma {:induction false} VisitLink(c: Config, s: State, p: nat, x: nat)
    requires Inv(c, s) && p < c.pubs && s.pubs[p].awake && s.pubs[p].at < c.subs && x < c.pubs
    ensures var k, t := s.pubs[p].at, PublishStep(c, s, p); LinkInv(k, t.subs[k], x, t.pubs[x])
  {
    var k, t := s.pubs[p].at, PublishStep(c, s, p);
    var sub, pub := s.subs[k], s.pubs[p];
    assert LinkInv(k, sub, x, s.pubs[x]);
    match SendOrRegisterWaker(c.q, true, sub.inner, Msg(p, pub.num), p).outcome
    case Parked =>
    case Skipped => SkipLink(k, sub, p, pub, x, s.pubs[x]);
    case Pushed => PushLink(k, sub, p, pub, x, s.pubs[x], t.subs[k]);
  }

  /** A step of publisher `p` leaves alone what it does not visit. */
  lemma {:induction false} PublishFrame(c: Config, s: State, p: nat, k: nat, x: nat)
    requires Inv(c, s) && Enabled(c, s, Publish(p)) && k < c.subs && x < c.pubs && k != s.pubs[p].at
    ensures var t := PublishStep(c, s, p); t.subs[k] == s.subs[k] && LinkInv(k, t.subs[k], x, t.pubs[x])
  {
    assert LinkInv(k, s.subs[k], x, s.pubs[x]);
  }

  lemma {:induction false} PublishBounds(c: Config, s: State, p: nat)
    requires Inv(c, s) && Enabled(c, s, Publish(p))
    ensures var t := PublishStep(c, s, p);
      && |t.pubs| == c.pubs && |t.subs| == c.subs
      && (forall x :: 0 <= x < c.pubs ==> t.pubs[x].at <= c.subs && (!t.pubs[x].awake ==> t.pubs[x].at < c.subs))
      && (forall k, x: nat :: 0 <= k < c.subs && x in t.subs[k].inner.wakerPublishers ==> x < c.pubs)
  {
    var t := PublishStep(c, s, p);
    forall k, x: nat | 0 <= k < c.subs && x in t.subs[k].inner.wakerPublishers ensures x < c.pubs {
      assert x == p || x in s.subs[k].inner.wakerPublishers;
    }
  }

  lemma {:induction false} PublishInv(c: Config, s: State, p: nat)
    requires Inv(c, s) && Enabled(c, s, Publish(p))
    ensures Inv(c, PublishStep(c, s, p))
  {
    var t := PublishStep(c, s, p);
    var at := s.pubs[p].at;
    PublishBounds(c, s, p);
    forall k | 0 <= k < c.subs ensures SubInv(c, k, t.subs[k]) {
      if k == at { VisitSub(c, s, p); } else { PublishFrame(c, s, p, k, p); }
    }
    forall k, x | 0 <= k < c.subs && 0 <= x < c.pubs ensures LinkInv(k, t.subs[k], x, t.pubs[x]) {
      if k == at { VisitLink(c, s, p, x); } else { PublishFrame(c, s, p, k, x); }
    }
  }

  lemma {:induction false} ReceiveSub(c: Config, s: State, k: nat)
    requires Inv(c, s) && Enabled(c, s, Receive(k))
    ensures SubInv(c, k, ReceiveStep(c, s, k).subs[k])
    ensures ReceiveStep(c, s, k).subs[k].log == s.subs[k].log
  {
    var sub := s.subs[k];
    assert SubInv(c, k, sub);
    if sub.inner.queue != [] {
      assert sub.received + [sub.inner.queue[0]] + sub.inner.queue[1..] == sub.received + sub.inner.queue;
    }
  }

  /** Wakers that leave the line are exactly the publishers that wake up. */
  lemma {:induction false} WakeSplit(c: Config, s: State, k: nat, n: nat, x: nat)
    requires Inv(c, s) && k < c.subs && x < c.pubs && n <= |s.subs[k].inner.wakerPublishers|
    ensures
      var line := s.subs[k].inner.wakerPublishers;
      var pub := WakePubs(s.pubs, line[..n])[x];
      && (x in line[n..] <==> !pub.awake && pub.at == k)
      && (x in line[..n] ==> s.pubs[x].at == k && !s.pubs[x].awake)
  {
    var line := s.subs[k].inner.wakerPublishers;
    assert LinkInv(k, s.subs[k], x, s.pubs[x]) && SubInv(c, k, s.subs[k]);
    assert line == line[..n] + line[n..];
  }

  /** Subscriber `k` with the first `n` publishers of its line taken off. */
  ghost predicate Shortened(c: Config, s: State, k: nat, n: nat, sub: Sub) {
    && Inv(c, s) && k < c.subs && n <= |s.subs[k].inner.wakerPublishers|
    && sub.inner.wakerPublishers == s.subs[k].inner.wakerPublishers[n..]
    && sub.log == s.subs[k].log && (s.subs[k].inner.closed ==> sub.inner.closed) && SubInv(c, k, sub)
  }

  lemma {:induction false} WakeLink(c: Config, s: State, k: nat, n: nat, sub: Sub, j: nat, x: nat)
    requires Shortened(c, s, k, n, sub) && j < c.subs && x < c.pubs
    ensures LinkInv(j, s.subs[k := sub][j], x, WakePubs(s.pubs, s.subs[k].inner.wakerPublishers[..n])[x])
  {
    assert LinkInv(j, s.subs[j], x, s.pubs[x]);
    WakeSplit(c, s, k, n, x);
  }

  /** Waking the publishers that were taken off a line keeps the invariant. */
  lemma {:induction false} WakeInv(c: Config, s: State, k: nat, n: nat, sub: Sub)
    requires Shortened(c, s, k, n, sub)
    ensures Inv(c, State(WakePubs(s.pubs, s.subs[k].inner.wakerPublishers[..n]), s.subs[k := sub]))
  {
    var t := State(WakePubs(s.pubs, s.subs[k].inner.wakerPublishers[..n]), s.subs[k := sub]);
    forall j, x | 0 <= j < c.subs && 0 <= x < c.pubs ensures LinkInv(j, t.subs[j], x, t.pubs[x]) {
      WakeLink(c, s, k, n, sub, j, x);
    }
    forall j, x: nat | 0 <= j < c.subs && x in t.subs[j].inner.wakerPublishers ensures x < c.pubs {
      assert x in s.subs[j].inner.wakerPublishers;
    }
  }

  lemma {:induction false} ReceiveInv(c: Config, s: State, k: nat)
    requires Inv(c, s) && Enabled(c, s, Receive(k))
    ensures Inv(c, ReceiveStep(c, s, k))
  {
    ReceiveSub(c, s, k);
    var sub := s.subs[k];
    if sub.inner.queue != [] {
      WakeInv(c, s, k, |RecvOrRegisterWaker(c.q, sub.inner, k).woken|, ReceiveStep(c, s, k).subs[k]);
    } else {
      assert WakePubs(s.pubs, sub.inner.wakerPublishers[..0]) == s.pubs;
      WakeInv(c, s, k, 0, ReceiveStep(c, s, k).subs[k]);
    }
  }

  lemma {:induction false} ShutInv(c: Config, s: State, k: nat)
    requires Inv(c, s) && Enabled(c, s, Shut(k))
    ensures Inv(c, ShutStep(c, s, k))
  {
    var line := s.subs[k].inner.wakerPublishers;
    assert SubInv(c, k, s.subs[k]);
    assert line[..|line|] == line && line[|line|..] == [];
    WakeInv(c, s, k, |line|, ShutStep(c, s, k).subs[k]);
  }

  lemma {:induction false} NextInv(c: Config, s: State, e: Event)
    requires Inv(c, s) && Enabled(c, s, e)
    ensures Inv(c, Next(c, s, e))
  {
    match e
    case Publish(p) => PublishInv(c, s, p);
    case Receive(k) => ReceiveInv(c, s, k);
    case Shut(k) => ShutInv(c, s, k);
  }
}
