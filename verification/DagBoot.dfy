/** What holds in every run of a DAG from its spawning on, and for which sources and orders. */
module DagBoot {
  import opened DagRun
  import opened DagInvariant
  import opened DagLag
  import opened DagProgress
  import opened DagTheorems
  import opened DagFree
  import opened DagSpawn
  import opened DagRunaway

  /** In every run the lag is bounded and the deadlines are retained exactly. */
  ghost predicate KeepsUp(c: Config, order: seq<nat>)
    requires c.Valid()
  {
    forall bs: seq<Boot>, es: seq<BootEvent>, k: nat ::
      BootRun(c, order, bs, es) && k < |bs| ==> Kept(c, bs[k].inner)
  }

  lemma {:induction false} KeptUnlessLost(c: Config, order: seq<nat>, bs: seq<Boot>, es: seq<BootEvent>, k: nat)
    requires Sound(c) && BootRun(c, order, bs, es) && k < |bs| && bs[k].lost == 0
    ensures Kept(c, bs[k].inner)
  {
    LosslessInv(c, order, bs, es, k);
    RetainedExactly(c, bs[k].inner);
    InvBoundsLag(c, bs[k].inner);
  }

  /** The source first and the node that has its number in its place. */
  function SourceFirst(n: nat, source: nat): (order: seq<nat>)
    requires source < n
    ensures |order| == n && order[0] == source
    ensures forall i :: 0 <= i < n ==> order[i] == if i == 0 then source else if i == source then 0 else i
  {
    seq(n, i requires 0 <= i < n => if i == 0 then source else if i == source then 0 else i)
  }

  lemma {:induction false} SourceFirstUnheld(c: Config)
    requires c.Valid() && c.free && c.topo.Nodes() >= 2
    ensures Unheld(c, SourceFirst(c.topo.Nodes(), c.topo.source), 0)
  {
    var n, source := c.topo.Nodes(), c.topo.source;
    var order := SourceFirst(n, source);
    forall v | 0 <= v < n ensures v in order {
      assert order[if v == source then 0 else if v == 0 then source else v] == v;
    }
    forall i | 0 <= i < |c.topo.outs[source]| ensures OutputLate(c, order, 0, i) {
      assert c.topo.OutputAt(source, i) && c.topo.LinkAt(c.topo.outs[source][i]);
      assert order[..1] == [source];
    }
  }

  /**
   Bounded lag and exact retention hold whatever the order of spawning exactly if the source is periodic or
   alone.
   */
  lemma {:induction false} KeepsUpExact(c: Config)
    requires Sound(c)
    ensures (forall order: seq<nat> :: Order(c, order) ==> KeepsUp(c, order)) <==> !c.free || c.topo.Nodes() == 1
  {
    if c.free && c.topo.Nodes() >= 2 {
      SourceFirstUnheld(c);
      var order := SourceFirst(c.topo.Nodes(), c.topo.source);
      var bs, es, job := LagBroken(c, order, 0);
      assert !Kept(c, bs[|es|].inner);
      assert !KeepsUp(c, order);
    } else {
      forall order: seq<nat> | Order(c, order) ensures KeepsUp(c, order) {
        forall bs: seq<Boot>, es: seq<BootEvent>, k: nat | BootRun(c, order, bs, es) && k < |bs|
          ensures Kept(c, bs[k].inner)
        {
          SourceLastOrderly(c, order, bs, es, k);
          KeptUnlessLost(c, order, bs, es, k);
        }
      }
    }
  }

  /** In no run does a node execute a released job without holding its deadline. */
  ghost predicate StaleFree(c: Config, order: seq<nat>)
    requires c.Valid()
  {
    forall bs: seq<Boot>, es: seq<BootEvent>, k: nat, v: nat ::
      BootRun(c, order, bs, es) && k < |bs| && v < c.topo.Nodes() ==> Fresh(c, bs[k].inner, v)
  }

  /** A step of any kind keeps the shape, and without a release there is no deadline. */
  lemma {:induction false} NoRelease(c: Config, order: seq<nat>, bs: seq<Boot>, es: seq<BootEvent>, k: nat)
    requires c.Valid() && !c.Releases() && BootRun(c, order, bs, es) && k < |bs|
    ensures Shape(c, bs[k].inner) && bs[k].inner.dag.deadlines == map[]
    decreases k
  {
    if k == 0 {
      InitShape(c);
    } else {
      NoRelease(c, order, bs, es, k - 1);
      assert BootStep(c, order, bs, es, k - 1);
      match es[k - 1]
      case Spawn =>
      case Move(ev) =>
        if !(ev.AdvanceEvent? && Loses(c, order, bs[k - 1], ev.v)) {
          NextWithoutRelease(c, bs[k - 1].inner, ev, bs[k].inner);
        }
    }
  }

  lemma {:induction false} NextWithoutRelease(c: Config, s: State, ev: Event, t: State)
    requires c.Valid() && Shape(c, s) && !c.Releases() && s.dag.deadlines == map[] && Next(c, s, ev, t)
    ensures Shape(c, t) && t.dag.deadlines == map[]
  {
    if ev.AdvanceEvent? {
      var pc := s.reactors[ev.v].pc;
      assert pc.Recv? && pc.i < |c.topo.ins[ev.v]| ==> c.topo.InputAt(ev.v, pc.i);
      assert pc.Send? && pc.i < |c.topo.outs[ev.v]| ==> c.topo.OutputAt(ev.v, pc.i);
    }
  }

  lemma {:induction false} FreshIfCondition(
      c: Config, order: seq<nat>, bs: seq<Boot>, es: seq<BootEvent>, k: nat, v: nat)
    requires Sound(c) && Order(c, order) && NeverStaleCondition(c)
    requires BootRun(c, order, bs, es) && k < |bs| && v < c.topo.Nodes()
    ensures Fresh(c, bs[k].inner, v)
  {
    if c.Releases() {
      SourceLastOrderly(c, order, bs, es, k);
      var states, events := Lossless(c, order, bs, es, k);
      ExecutionDeadline(c, states, events, |events|, v);
    } else {
      NoRelease(c, order, bs, es, k);
    }
  }

  /**
   No stale deadline at execution: this holds in all runs exactly if the source releases no jobs, or every
   node is under a deadline scheduler and the source is periodic or alone.
   */
  lemma {:induction false} StaleFreeExact(c: Config, order: seq<nat>)
    requires Sound(c) && Order(c, order)
    ensures StaleFree(c, order) <==> NeverStaleCondition(c)
  {
    if NeverStaleCondition(c) {
      forall bs: seq<Boot>, es: seq<BootEvent>, k: nat, v: nat
        | BootRun(c, order, bs, es) && k < |bs| && v < c.topo.Nodes() ensures Fresh(c, bs[k].inner, v)
      {
        FreshIfCondition(c, order, bs, es, k, v);
      }
    } else {
      var states, events, k, v := SomeStaleRun(c);
      var bs, es := Lift(c, order, states, events, k);
      assert !Fresh(c, bs[|es|].inner, v);
    }
  }

  /** The number of steps of the pipeline itself among `es[i..k]`. */
  ghost function BootSteps(bs: seq<Boot>, es: seq<BootEvent>, i: nat, k: nat): (r: nat)
    requires i <= k <= |es| && |bs| == |es| + 1
    decreases k - i
  {
    if i == k then 0
    else (if es[i].Move? && Internal(bs[i].inner, es[i].ev) then 1 else 0) + BootSteps(bs, es, i + 1, k)
  }

  ghost predicate NoTicks(es: seq<BootEvent>, i: nat, k: nat)
    requires k <= |es|
  {
    forall j :: i <= j < k ==> !(es[j].Move? && es[j].ev.TickEvent?)
  }

  /** From `b` on, without a tick, the pipeline takes at most `bound` steps. */
  ghost predicate StepsBounded(c: Config, order: seq<nat>, b: Boot, bound: nat)
    requires c.Valid()
  {
    forall bs: seq<Boot>, es: seq<BootEvent>, i: nat, k: nat ::
      BootRun(c, order, bs, es) && i <= k < |bs| && bs[i] == b && NoTicks(es, i, k) ==>
        BootSteps(bs, es, i, k) <= bound
  }

  /** The pipeline can take a step of its own. */
  ghost predicate BootCanMove(c: Config, order: seq<nat>, b: Boot)
    requires c.Valid()
  {
    exists ev: Event, b': Boot :: Internal(b.inner, ev) && BootNext(c, order, b, Move(ev), b')
  }

  /**
   Between two ticks the pipeline takes boundedly many steps, and it can take one until every fired job is
   finished everywhere and all queues are empty.
   */
  ghost predicate Rests(c: Config, order: seq<nat>)
    requires c.Valid()
  {
    forall bs: seq<Boot>, es: seq<BootEvent>, i: nat :: BootRun(c, order, bs, es) && i < |bs| ==>
      RestsAt(c, order, bs[i])
  }

  ghost predicate RestsAt(c: Config, order: seq<nat>, b: Boot)
    requires c.Valid()
  {
    && (exists bound: nat :: StepsBounded(c, order, b, bound))
    && Shape(c, b.inner) && (Drained(c, b.inner) || BootCanMove(c, order, b))
  }

  lemma {:induction false} BootStepWork(
      c: Config, order: seq<nat>, bs: seq<Boot>, es: seq<BootEvent>, i: nat)
    requires Sound(c) && !c.free && Order(c, order) && BootRun(c, order, bs, es) && i < |es| && NoTicks(es, i, i + 1)
    ensures FlowInv(c, bs[i].inner) && FlowInv(c, bs[i + 1].inner)
    ensures TotalWork(c, bs[i + 1].inner) + BootSteps(bs, es, i, i + 1) <= TotalWork(c, bs[i].inner)
  {
    SourceLastOrderly(c, order, bs, es, i);
    SourceLastOrderly(c, order, bs, es, i + 1);
    assert BootStep(c, order, bs, es, i);
    match es[i]
    case Spawn =>
    case Move(ev) =>
      var rank :| Ranked(c.topo, rank);
      if ev.AdvanceEvent? { NoLoss(c, rank, order, bs[i], ev.v); }
      StepWork(c, rank, bs[i].inner, ev, bs[i + 1].inner);
  }

  lemma {:induction false} BootWorkBounds(
      c: Config, order: seq<nat>, bs: seq<Boot>, es: seq<BootEvent>, i: nat, k: nat)
    requires Sound(c) && !c.free && Order(c, order) && BootRun(c, order, bs, es) && i <= k < |bs| && NoTicks(es, i, k)
    ensures FlowInv(c, bs[i].inner) && FlowInv(c, bs[k].inner)
    ensures BootSteps(bs, es, i, k) + TotalWork(c, bs[k].inner) <= TotalWork(c, bs[i].inner)
    decreases k - i
  {
    if i == k {
      SourceLastOrderly(c, order, bs, es, i);
    } else {
      BootStepWork(c, order, bs, es, i);
      BootWorkBounds(c, order, bs, es, i + 1, k);
    }
  }

  /** Before the first job there is nothing left to do. */
  lemma {:induction false} UnfiredIsDrained(c: Config, rank: seq<nat>, s: State)
    requires c.Valid() && FlowInv(c, s) && Ranked(c.topo, rank) && Fired(c, s) == 0
    ensures Drained(c, s)
  {
    forall v | 0 <= v < c.topo.Nodes() ensures Fin(s, v) == Fin(s, c.topo.source) {
      WithinFired(c, s, rank, v);
    }
    forall e | 0 <= e < |s.inners| ensures s.inners[e].queue == [] {
      assert LinkInv(c, s, e) && c.topo.LinkAt(e);
      WithinFired(c, s, rank, c.topo.links[e].src);
    }
  }

  lemma {:induction false} DrainedOrMoves(
      c: Config, order: seq<nat>, bs: seq<Boot>, es: seq<BootEvent>, i: nat)
    requires Sound(c) && Order(c, order) && SourceLast(c, order) && BootRun(c, order, bs, es) && i < |bs|
    ensures Shape(c, bs[i].inner) && (Drained(c, bs[i].inner) || BootCanMove(c, order, bs[i]))
  {
    SourceLastOrderly(c, order, bs, es, i);
    var b := bs[i];
    var rank :| Ranked(c.topo, rank);
    if !Spawned(order, b, c.topo.source) {
      UnfiredIsDrained(c, rank, b.inner);
    } else if Quiescent(c, b.inner) {
      QuiescentIsDrained(c, b.inner, rank);
    } else {
      var ev, s' := InternalStep(c, b.inner);
      AllSpawned(c, order, b);
      LiftStep(c, order, b.inner, ev, s');
      assert b == Boot(b.inner, |order|, 0);
    }
  }

  lemma {:induction false} AllSpawned(c: Config, order: seq<nat>, b: Boot)
    requires c.Valid() && Order(c, order) && SourceLast(c, order) && b.count <= |order|
    requires Spawned(order, b, c.topo.source)
    ensures b.count == |order|
  {
    var i :| 0 <= i < |order[..b.count]| && order[..b.count][i] == c.topo.source;
    assert order[i] == order[|order| - 1];
  }

  lemma {:induction false} RestsIfPeriodic(
      c: Config, order: seq<nat>, bs: seq<Boot>, es: seq<BootEvent>, i: nat)
    requires Sound(c) && !c.free && Order(c, order) && BootRun(c, order, bs, es) && i < |bs|
    ensures RestsAt(c, order, bs[i])
  {
    DrainedOrMoves(c, order, bs, es, i);
    SourceLastOrderly(c, order, bs, es, i);
    TotalWorkNonNegative(c, bs[i].inner);
    var bound: nat := TotalWork(c, bs[i].inner);
    forall bs': seq<Boot>, es': seq<BootEvent>, j: nat, k: nat
      | BootRun(c, order, bs', es') && j <= k < |bs'| && bs'[j] == bs[i] && NoTicks(es', j, k)
      ensures BootSteps(bs', es', j, k) <= bound
    {
      BootWorkBounds(c, order, bs', es', j, k);
      TotalWorkNonNegative(c, bs'[k].inner);
    }
    assert StepsBounded(c, order, bs[i], bound);
  }

  lemma {:induction false} LiftedSteps(
      states: seq<State>, events: seq<Event>, bs: seq<Boot>, es: seq<BootEvent>, n: nat, i: nat)
    requires |states| == |events| + 1 && |bs| == |es| + 1 && |es| == n + |events| && i <= |events|
    requires forall j :: 0 <= j <= |events| ==> bs[n + j] == Boot(states[j], n, 0)
    requires forall j :: 0 <= j < |events| ==> es[n + j] == Move(events[j])
    ensures BootSteps(bs, es, n + i, |es|) == InternalSteps(states, events, i, |events|)
    decreases |events| - i
  {
    if i < |events| {
      LiftedSteps(states, events, bs, es, n, i + 1);
      assert bs[n + i].inner == states[i] && es[n + i] == Move(events[i]);
    }
  }

  /** Without a periodic source no number of steps is enough, although there is never a tick. */
  lemma {:induction false} NeverRests(c: Config, order: seq<nat>, bound: nat)
    requires Sound(c) && c.free && Order(c, order)
    ensures !StepsBounded(c, order, Boot(Init(c), |order|, 0), bound)
  {
    var states, events := Restless(c, bound + 1);
    var bs, es := Lift(c, order, states, events, |events|);
    LiftedSteps(states, events, bs, es, |order|, 0);
    assert bs[|order| + 0] == Boot(Init(c), |order|, 0);
    forall j | |order| <= j < |es| ensures !(es[j].Move? && es[j].ev.TickEvent?) {
      assert BootStep(c, order, bs, es, j);
    }
    assert NoTicks(es, |order|, |es|);
  }

  /** The pipeline comes to rest between ticks exactly if the source is periodic. */
  lemma {:induction false} RestsExact(c: Config, order: seq<nat>)
    requires Sound(c) && Order(c, order)
    ensures Rests(c, order) <==> !c.free
  {
    if c.free {
      var bs, es := SpawnFirst(c, order, |order|);
      forall bound: nat ensures !StepsBounded(c, order, bs[|es|], bound) {
        NeverRests(c, order, bound);
      }
      assert !RestsAt(c, order, bs[|es|]);
    } else {
      forall bs: seq<Boot>, es: seq<BootEvent>, i: nat | BootRun(c, order, bs, es) && i < |bs|
        ensures RestsAt(c, order, bs[i])
      {
        RestsIfPeriodic(c, order, bs, es, i);
      }
    }
  }

  /** Deadlock freedom: not all reactors sleep, and when nobody but the source can move all is drained. */
  lemma {:induction false} NeverStuck(c: Config, order: seq<nat>, bs: seq<Boot>, es: seq<BootEvent>, k: nat)
    requires Sound(c) && BootRun(c, order, bs, es) && k < |bs| && bs[k].lost == 0
    ensures Shape(c, bs[k].inner) && !AllAsleep(c, bs[k].inner)
    ensures Quiescent(c, bs[k].inner) ==> Drained(c, bs[k].inner)
  {
    LosslessInv(c, order, bs, es, k);
    var rank :| Ranked(c.topo, rank);
    SomeoneAwake(c, bs[k].inner, rank);
    if Quiescent(c, bs[k].inner) {
      QuiescentIsDrained(c, bs[k].inner, rank);
    }
  }

  ghost predicate AllAsleep(c: Config, s: State)
    requires Shape(c, s)
  {
    forall v :: 0 <= v < c.topo.Nodes() ==> s.reactors[v].asleep
  }
}
