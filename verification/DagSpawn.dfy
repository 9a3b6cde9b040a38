/**
 A DAG from the moment its reactors are spawned. They are spawned one after the other, each subscribes to
 its topics when it is spawned, and those that are already spawned run meanwhile. A message to a topic
 that nobody has subscribed to yet is lost.
 */
module DagSpawn {
  import opened DagRun
  import opened DagInvariant
  import opened DagLag
  import opened DagProgress
  import opened DagTheorems

  /** The first `count` reactors are spawned, and `lost` messages have been lost. */
  datatype Boot = Boot(inner: State, count: nat, lost: nat)

  /** The wake of a new task is a step of its own. */
  datatype BootEvent = Spawn | Move(ev: Event)

  /** An order of spawning: each reactor once, and a periodic source last. */
  ghost predicate Order(c: Config, order: seq<nat>)
    requires c.Valid()
  {
    && |order| == c.topo.Nodes()
    && (forall i :: 0 <= i < |order| ==> order[i] < c.topo.Nodes())
    && (forall i, j :: 0 <= i < j < |order| ==> order[i] != order[j])
    && (forall v :: 0 <= v < c.topo.Nodes() ==> v in order)
    && (!c.free ==> SourceLast(c, order))
  }

  ghost predicate SourceLast(c: Config, order: seq<nat>) {
    order != [] && order[|order| - 1] == c.topo.source
  }

  predicate Spawned(order: seq<nat>, b: Boot, v: nat)
    requires b.count <= |order|
  {
    v in order[..b.count]
  }

  /** The reactor that the event is about. */
  function Actor(c: Config, ev: Event): (v: nat) {
    match ev
    case WakeEvent(v, _, _) => v
    case TickEvent(_) => c.topo.source
    case BeginEvent => c.topo.source
    case AdvanceEvent(v) => v
  }

  /** Node `v` is about to send to a reactor that is not spawned. */
  ghost predicate Loses(c: Config, order: seq<nat>, b: Boot, v: nat)
    requires c.Valid() && Shape(c, b.inner) && b.count <= |order| && v < c.topo.Nodes()
  {
    var pc := b.inner.reactors[v].pc;
    && pc.Send? && pc.i < |c.topo.outs[v]| && c.topo.OutputAt(v, pc.i)
    && !Spawned(order, b, c.topo.links[c.topo.outs[v][pc.i]].dst)
  }

  ghost predicate BootNext(c: Config, order: seq<nat>, b: Boot, e: BootEvent, b': Boot)
    requires c.Valid()
  {
    && b.count <= |order| && Shape(c, b.inner)
    && match e
       case Spawn => b.count < |order| && b' == b.(count := b.count + 1)
       case Move(ev) =>
         && Actor(c, ev) < c.topo.Nodes() && Spawned(order, b, Actor(c, ev))
         && if ev.AdvanceEvent? && Loses(c, order, b, ev.v) then
              && Ready(b.inner, ev.v)
              && b' == b.(inner := SetPc(b.inner, ev.v, Send(b.inner.reactors[ev.v].pc.i + 1)), lost := b.lost + 1)
            else Next(c, b.inner, ev, b'.inner) && b' == b.(inner := b'.inner)
  }

  ghost predicate BootRun(c: Config, order: seq<nat>, bs: seq<Boot>, es: seq<BootEvent>)
    requires c.Valid()
  {
    && |bs| == |es| + 1 && bs[0] == Boot(Init(c), 0, 0)
    && forall k :: 0 <= k < |es| ==> BootStep(c, order, bs, es, k)
  }

  ghost predicate BootStep(c: Config, order: seq<nat>, bs: seq<Boot>, es: seq<BootEvent>, k: nat)
    requires c.Valid() && k < |es| && |bs| == |es| + 1
  {
    BootNext(c, order, bs[k], es[k], bs[k + 1])
  }

  lemma {:induction false} BootExtend(
      c: Config, order: seq<nat>, bs: seq<Boot>, es: seq<BootEvent>, e: BootEvent, b': Boot)
    requires c.Valid() && BootRun(c, order, bs, es) && BootNext(c, order, bs[|es|], e, b')
    ensures BootRun(c, order, bs + [b'], es + [e])
  {
    var bs', es' := bs + [b'], es + [e];
    forall k | 0 <= k < |es'| ensures BootStep(c, order, bs', es', k) {
      if k < |es| {
        assert BootStep(c, order, bs, es, k);
      }
    }
  }

  /** As long as nothing is lost, the reactors are as in a run in which all had subscribed beforehand. */
  lemma {:induction false} Lossless(c: Config, order: seq<nat>, bs: seq<Boot>, es: seq<BootEvent>, k: nat)
    returns (states: seq<State>, events: seq<Event>)
    requires c.Valid() && BootRun(c, order, bs, es) && k < |bs| && bs[k].lost == 0
    ensures Run(c, states, events) && states[|events|] == bs[k].inner
  {
    if k == 0 {
      states, events := [Init(c)], [];
    } else {
      assert BootStep(c, order, bs, es, k - 1);
      states, events := Lossless(c, order, bs, es, k - 1);
      match es[k - 1]
      case Spawn =>
      case Move(ev) =>
        Extend(c, states, events, ev, bs[k].inner);
        states, events := states + [bs[k].inner], events + [ev];
    }
  }

  lemma {:induction false} LosslessInv(c: Config, order: seq<nat>, bs: seq<Boot>, es: seq<BootEvent>, k: nat)
    requires c.Valid() && Rooted(c.topo) && BootRun(c, order, bs, es) && k < |bs| && bs[k].lost == 0
    ensures Inv(c, bs[k].inner)
  {
    var states, events := Lossless(c, order, bs, es, k);
    RunInv(c, states, events, |events|);
  }

  /** Nothing is lost so far, and no job is fired before the source is spawned. */
  ghost predicate Orderly(c: Config, order: seq<nat>, b: Boot)
    requires c.Valid()
  {
    && b.lost == 0 && b.count <= |order| && Shape(c, b.inner)
    && (!Spawned(order, b, c.topo.source) ==> Fired(c, b.inner) == 0)
  }

  lemma {:induction false} OrderlyNext(
      c: Config, rank: seq<nat>, order: seq<nat>, b: Boot, e: BootEvent, b': Boot)
    requires c.Valid() && Ranked(c.topo, rank) && Order(c, order) && SourceLast(c, order)
    requires Orderly(c, order, b) && FlowInv(c, b.inner) && BootNext(c, order, b, e, b')
    ensures Orderly(c, order, b') && FlowInv(c, b'.inner)
  {
    match e
    case Spawn =>
      assert order[..b.count] <= order[..b'.count];
    case Move(ev) =>
      if ev.AdvanceEvent? && Loses(c, order, b, ev.v) {
        NoLoss(c, rank, order, b, ev.v);
      } else {
        NextFlow(c, b.inner, ev, b'.inner);
        if !Fires(ev) { FiredKept(c, b.inner, ev, b'.inner); }
      }
  }

  /** While the last reactor is not spawned there is nothing to send. */
  lemma {:induction false} NoLoss(c: Config, rank: seq<nat>, order: seq<nat>, b: Boot, v: nat)
    requires c.Valid() && Ranked(c.topo, rank) && Order(c, order) && SourceLast(c, order)
    requires Orderly(c, order, b) && FlowInv(c, b.inner) && v < c.topo.Nodes()
    ensures !Loses(c, order, b, v)
  {
    if Loses(c, order, b, v) {
      var i := b.inner.reactors[v].pc.i;
      assert c.topo.LinkAt(c.topo.outs[v][i]);
      var w := c.topo.links[c.topo.outs[v][i]].dst;
      UnspawnedIsLater(c, order, b, w);
      WithinFired(c, b.inner, rank, v);
    }
  }

  lemma {:induction false} UnspawnedIsLater(c: Config, order: seq<nat>, b: Boot, w: nat)
    requires c.Valid() && Order(c, order) && SourceLast(c, order) && b.count <= |order|
    requires w < c.topo.Nodes() && !Spawned(order, b, w)
    ensures !Spawned(order, b, c.topo.source)
  {
    assert order[..|order|] == order;
    assert forall i :: 0 <= i < b.count ==> order[..b.count][i] == order[i];
  }

  lemma {:induction false} SourceLastOrderly(
      c: Config, order: seq<nat>, bs: seq<Boot>, es: seq<BootEvent>, k: nat)
    requires Sound(c) && Order(c, order) && SourceLast(c, order) && BootRun(c, order, bs, es) && k < |bs|
    ensures Orderly(c, order, bs[k]) && Inv(c, bs[k].inner)
    decreases k
  {
    if k == 0 {
      InitInv(c);
    } else {
      SourceLastOrderly(c, order, bs, es, k - 1);
      assert BootStep(c, order, bs, es, k - 1);
      var rank :| Ranked(c.topo, rank);
      OrderlyNext(c, rank, order, bs[k - 1], es[k - 1], bs[k]);
      LosslessInv(c, order, bs, es, k);
    }
  }

  /** Spawning the first `n` reactors before any of them takes a step. */
  lemma {:induction false} SpawnFirst(c: Config, order: seq<nat>, n: nat)
    returns (bs: seq<Boot>, es: seq<BootEvent>)
    requires c.Valid() && n <= |order|
    ensures BootRun(c, order, bs, es) && bs[|es|] == Boot(Init(c), n, 0) && |es| == n
  {
    if n == 0 {
      bs, es := [Boot(Init(c), 0, 0)], [];
    } else {
      bs, es := SpawnFirst(c, order, n - 1);
      InitFlow(c);
      BootExtend(c, order, bs, es, Spawn, Boot(Init(c), n, 0));
      bs, es := bs + [Boot(Init(c), n, 0)], es + [Spawn];
    }
  }

  /** Once all reactors are spawned, any run is possible. */
  lemma {:induction false} Lift(c: Config, order: seq<nat>, states: seq<State>, events: seq<Event>, k: nat)
    returns (bs: seq<Boot>, es: seq<BootEvent>)
    requires c.Valid() && Order(c, order) && Run(c, states, events) && k < |states|
    ensures BootRun(c, order, bs, es) && bs[|es|] == Boot(states[k], |order|, 0) && |es| == |order| + k
    ensures forall i :: 0 <= i <= k ==> bs[|order| + i] == Boot(states[i], |order|, 0)
    ensures forall i :: 0 <= i < k ==> es[|order| + i] == Move(events[i])
    decreases k
  {
    if k == 0 {
      bs, es := SpawnFirst(c, order, |order|);
    } else {
      bs, es := Lift(c, order, states, events, k - 1);
      assert RunStep(c, states, events, k - 1);
      LiftStep(c, order, states[k - 1], events[k - 1], states[k]);
      BootExtend(c, order, bs, es, Move(events[k - 1]), Boot(states[k], |order|, 0));
      bs, es := bs + [Boot(states[k], |order|, 0)], es + [Move(events[k - 1])];
    }
  }

  lemma {:induction false} LiftStep(c: Config, order: seq<nat>, s: State, ev: Event, s': State)
    requires c.Valid() && Order(c, order) && Shape(c, s) && Next(c, s, ev, s')
    ensures BootNext(c, order, Boot(s, |order|, 0), Move(ev), Boot(s', |order|, 0))
  {
    assert order[..|order|] == order;
    if ev.AdvanceEvent? && s.reactors[ev.v].pc.Send? && s.reactors[ev.v].pc.i < |c.topo.outs[ev.v]| {
      assert c.topo.OutputAt(ev.v, s.reactors[ev.v].pc.i);
      assert c.topo.LinkAt(c.topo.outs[ev.v][s.reactors[ev.v].pc.i]);
    }
  }
}
