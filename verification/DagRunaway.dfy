/**
 A source that is not periodic and is spawned before every reactor it sends to: until one of them is
 spawned nothing holds it back, so no bound on the lag and no cap on the deadlines is safe.
 */
module DagRunaway {
  import opened Common
  import opened DagDeadlines
  import opened DagRun
  import opened DagInvariant
  import opened DagLag
  import opened DagTheorems
  import opened DagSpawn

  /** `p` reactors are spawned before the source, and the source sends to none of them. */
  ghost predicate Unheld(c: Config, order: seq<nat>, p: nat)
    requires c.Valid()
  {
    && c.free && Order(c, order) && |order| >= 2 && p < |order| && order[p] == c.topo.source
    && forall i :: 0 <= i < |c.topo.outs[c.topo.source]| ==> OutputLate(c, order, p, i)
  }

  ghost predicate OutputLate(c: Config, order: seq<nat>, p: nat, i: nat)
    requires c.Valid() && p < |order| && i < |c.topo.outs[c.topo.source]|
  {
    var e := c.topo.outs[c.topo.source][i];
    e < |c.topo.links| && c.topo.links[e].dst !in order[..p + 1]
  }

  /** Only the source has moved: it has finished `job` jobs, and every one of them was released. */
  ghost predicate Away(c: Config, order: seq<nat>, p: nat, bs: seq<Boot>, es: seq<BootEvent>, job: nat, pc: Pc)
    requires c.Valid()
  {
    && Unheld(c, order, p) && BootRun(c, order, bs, es) && bs[|es|].count == p + 1
    && Shape(c, bs[|es|].inner) && Alone(c, bs[|es|].inner, job, pc)
  }

  ghost predicate Alone(c: Config, s: State, job: nat, pc: Pc)
    requires c.Valid() && Shape(c, s)
  {
    var v := c.topo.source;
    && s.reactors[v].pc == pc && !s.reactors[v].asleep && Fin(s, v) == job
    && (forall w :: 0 <= w < c.topo.Nodes() && w != v ==> s.dag.infos[w].numFinished == 0)
    && (c.Releases() ==> forall j :: 0 <= j < job ==> j in s.history)
    && (c.Releases() && pc != AwaitTick(false) ==> job in s.history && s.dag.infos[v].deadlineJob == Some(job))
    && (!c.Releases() ==> s.dag.deadlines == map[])
    && (forall j :: j in s.dag.deadlines ==> j < job || (j == job && pc != AwaitTick(false)))
  }

  /** One step of the source. */
  lemma {:induction false} Step(
      c: Config, order: seq<nat>, p: nat, bs: seq<Boot>, es: seq<BootEvent>, job: nat, pc: Pc,
      ev: Event, b': Boot, job': nat, pc': Pc)
    returns (bs': seq<Boot>, es': seq<BootEvent>)
    requires c.Valid() && Away(c, order, p, bs, es, job, pc) && BootNext(c, order, bs[|es|], Move(ev), b')
    requires Shape(c, b'.inner) && b'.count == p + 1 && Alone(c, b'.inner, job', pc')
    ensures Away(c, order, p, bs', es', job', pc') && bs'[|es'|] == b'
  {
    BootExtend(c, order, bs, es, Move(ev), b');
    bs', es' := bs + [b'], es + [Move(ev)];
  }

  lemma {:induction false} SourceSpawned(c: Config, order: seq<nat>, p: nat, b: Boot)
    requires c.Valid() && Unheld(c, order, p) && b.count == p + 1
    ensures Spawned(order, b, c.topo.source)
  {
    assert order[..p + 1][p] == c.topo.source;
  }

  /** The source is woken, which releases its job if it looks deadlines up, and begins it. */
  lemma {:induction false} WakeAndBegin(c: Config, s: State, job: nat)
    requires c.Valid() && Shape(c, s) && Alone(c, s, job, AwaitTick(false))
    ensures var t := Wake(c, s, c.topo.source, true, 0);
      && Shape(c, t) && t.reactors == s.reactors
      && Shape(c, Begin(c, t)) && Alone(c, Begin(c, t), job, Exec)
  {
    var t := Wake(c, s, c.topo.source, true, 0);
    assert !HasStaleDeadline(t.dag, c.topo.source);
  }

  lemma {:induction false} BeginAway(
      c: Config, order: seq<nat>, p: nat, bs: seq<Boot>, es: seq<BootEvent>, job: nat)
    returns (bs': seq<Boot>, es': seq<BootEvent>)
    requires c.Valid() && Away(c, order, p, bs, es, job, AwaitTick(false))
    ensures Away(c, order, p, bs', es', job, Exec)
  {
    var b := bs[|es|];
    SourceSpawned(c, order, p, b);
    WakeAndBegin(c, b.inner, job);
    var t := b.(inner := Wake(c, b.inner, c.topo.source, true, 0));
    BootExtend(c, order, bs, es, Move(WakeEvent(c.topo.source, true, 0)), t);
    bs', es' := bs + [t], es + [Move(WakeEvent(c.topo.source, true, 0))];
    var u := t.(inner := Begin(c, t.inner));
    BootExtend(c, order, bs', es', Move(BeginEvent), u);
    bs', es' := bs' + [u], es' + [Move(BeginEvent)];
  }

  lemma {:induction false} SendsAway(
      c: Config, order: seq<nat>, p: nat, bs: seq<Boot>, es: seq<BootEvent>, job: nat, i: nat)
    returns (bs': seq<Boot>, es': seq<BootEvent>)
    requires c.Valid() && Away(c, order, p, bs, es, job, Send(i)) && i <= |c.topo.outs[c.topo.source]|
    ensures Away(c, order, p, bs', es', job, Send(|c.topo.outs[c.topo.source]|))
    decreases |c.topo.outs[c.topo.source]| - i
  {
    if i == |c.topo.outs[c.topo.source]| {
      bs', es' := bs, es;
    } else {
      var v, b := c.topo.source, bs[|es|];
      SourceSpawned(c, order, p, b);
      assert OutputLate(c, order, p, i) && c.topo.OutputAt(v, i);
      var b' := b.(inner := SetPc(b.inner, v, Send(i + 1)), lost := b.lost + 1);
      bs', es' := Step(c, order, p, bs, es, job, Send(i), AdvanceEvent(v), b', job, Send(i + 1));
      bs', es' := SendsAway(c, order, p, bs', es', job, i + 1);
    }
  }

  lemma {:induction false} FinishAway(c: Config, s: State, job: nat)
    requires c.Valid() && Shape(c, s) && Alone(c, s, job, Send(|c.topo.outs[c.topo.source]|))
    ensures var t := StepFinish(c, s, c.topo.source);
      && Shape(c, t) && Alone(c, t, job + 1, AwaitTick(false)) && |t.dag.deadlines| <= Cap(c.topo.Nodes(), c.q)
  {
  }

  lemma {:induction false} ExecAway(
      c: Config, order: seq<nat>, p: nat, bs: seq<Boot>, es: seq<BootEvent>, job: nat)
    returns (bs': seq<Boot>, es': seq<BootEvent>)
    requires c.Valid() && Away(c, order, p, bs, es, job, Exec)
    ensures Away(c, order, p, bs', es', job, Send(0))
  {
    var v := c.topo.source;
    SourceSpawned(c, order, p, bs[|es|]);
    var b := bs[|es|].(inner := SetPc(bs[|es|].inner, v, Send(0)));
    bs', es' := Step(c, order, p, bs, es, job, Exec, AdvanceEvent(v), b, job, Send(0));
  }

  /** One more job of the source. */
  lemma {:induction false} OneMore(
      c: Config, order: seq<nat>, p: nat, bs: seq<Boot>, es: seq<BootEvent>, job: nat)
    returns (bs': seq<Boot>, es': seq<BootEvent>)
    requires c.Valid() && Away(c, order, p, bs, es, job, AwaitTick(false))
    ensures Away(c, order, p, bs', es', job + 1, AwaitTick(false))
    ensures |bs'[|es'|].inner.dag.deadlines| <= Cap(c.topo.Nodes(), c.q)
  {
    var v := c.topo.source;
    bs', es' := BeginAway(c, order, p, bs, es, job);
    bs', es' := ExecAway(c, order, p, bs', es', job);
    bs', es' := SendsAway(c, order, p, bs', es', job, 0);
    SourceSpawned(c, order, p, bs'[|es'|]);
    FinishAway(c, bs'[|es'|].inner, job);
    var f := bs'[|es'|].(inner := StepFinish(c, bs'[|es'|].inner, v));
    bs', es' := Step(c, order, p, bs', es', job, Send(|c.topo.outs[v]|), AdvanceEvent(v), f, job + 1, AwaitTick(false));
  }

  lemma {:induction false} RunsAway(c: Config, order: seq<nat>, p: nat, n: nat)
    returns (bs: seq<Boot>, es: seq<BootEvent>)
    requires c.Valid() && Unheld(c, order, p)
    ensures Away(c, order, p, bs, es, n, AwaitTick(false))
    ensures |bs[|es|].inner.dag.deadlines| <= Cap(c.topo.Nodes(), c.q)
  {
    if n == 0 {
      bs, es := SpawnFirst(c, order, p + 1);
      InitShape(c);
    } else {
      bs, es := RunsAway(c, order, p, n - 1);
      bs, es := OneMore(c, order, p, bs, es, n - 1);
    }
  }

  lemma {:induction false} InitShape(c: Config)
    requires c.Valid()
    ensures Shape(c, Init(c)) && Alone(c, Init(c), 0, AwaitTick(false))
  {
  }

  lemma {:induction false} SomeJobDropped(m: map<nat, nat>, n: nat) returns (job: nat)
    requires |m| < n
    ensures job < n && job !in m
    decreases n
  {
    if n - 1 !in m {
      job := n - 1;
    } else {
      var rest := m - {n - 1};
      assert m == rest[n - 1 := m[n - 1]];
      job := SomeJobDropped(rest, n - 1);
    }
  }

  /**
   In some run the source is further ahead than the bound, and if it looks deadlines up, a released job
   that some node has not finished has lost its deadline.
   */
  lemma {:induction false} LagBroken(c: Config, order: seq<nat>, p: nat)
    returns (bs: seq<Boot>, es: seq<BootEvent>, job: nat)
    requires c.Valid() && Unheld(c, order, p)
    ensures BootRun(c, order, bs, es) && !BoundedLag(bs[|es|].inner, c.topo.source, c.topo.Nodes(), c.q)
    ensures c.Releases() ==>
      var s := bs[|es|].inner; job in s.history && Unfinished(s, job) && job !in s.dag.deadlines
  {
    var n := MaxLag(c.topo.Nodes(), c.q) + Cap(c.topo.Nodes(), c.q) + 1;
    bs, es := RunsAway(c, order, p, n);
    var s := bs[|es|].inner;
    var w := if c.topo.source == 0 then 1 else 0;
    assert Fin(s, w) == 0;
    job := SomeJobDropped(s.dag.deadlines, n);
  }
}
