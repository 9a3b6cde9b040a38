/**
 Runs whose source is not a periodic reactor. They never rest, and a node can execute a job before the
 source has released it.
 */
module DagFree {
  import opened DagRun
  import opened DagInvariant
  import opened DagLag
  import opened DagProgress
  import opened DagTheorems

  /** From `s` to `t` only node `v` has moved its program counter. */
  ghost predicate OnlyMoves(s: State, t: State, v: nat, pc: Pc) {
    && |t.reactors| == |s.reactors| && v < |t.reactors| && t.reactors[v].pc == pc
    && (forall w :: 0 <= w < |s.reactors| && w != v ==> t.reactors[w].pc == s.reactors[w].pc)
    && t.dag == s.dag && t.history == s.history
  }

  /** A node takes a message that its publisher has sent and it has not received. */
  lemma {:induction false} CanTake(c: Config, s: State, v: nat, i: nat)
    requires c.Valid() && FlowInv(c, s) && v < c.topo.Nodes() && s.reactors[v].pc == Recv(i) && i < |c.topo.ins[v]|
    requires c.topo.InputAt(v, i) && c.topo.LinkAt(c.topo.ins[v][i])
    requires var l := c.topo.links[c.topo.ins[v][i]]; SentOn(s.reactors[l.src].pc, Fin(s, l.src), l.outPos) > Fin(s, v)
    ensures Ready(s, v) && OnlyMoves(s, Advance(c, s, v), v, Recv(i + 1))
  {
    var e := c.topo.ins[v][i];
    assert LinkInv(c, s, e) && NodeInv(c, s, v);
    RecvFlow(c, s, v, i);
  }

  /** A node sends to a subscriber that has received all it sent before. */
  lemma {:induction false} CanPush(c: Config, s: State, v: nat, i: nat)
    requires c.Valid() && FlowInv(c, s) && v < c.topo.Nodes() && s.reactors[v].pc == Send(i) && i < |c.topo.outs[v]|
    requires c.topo.OutputAt(v, i) && c.topo.LinkAt(c.topo.outs[v][i])
    requires var l := c.topo.links[c.topo.outs[v][i]];
      TakenFrom(s.reactors[l.dst].pc, Fin(s, l.dst), l.inPos) == Fin(s, v)
    ensures Ready(s, v) && OnlyMoves(s, Advance(c, s, v), v, Send(i + 1))
  {
    var e := c.topo.outs[v][i];
    assert LinkInv(c, s, e) && NodeInv(c, s, v);
    SendFlow(c, s, v, i);
  }

  /** All nodes but the source are about to receive job `job`. */
  ghost predicate Awaiting(c: Config, s: State, job: nat)
    requires c.Valid() && Shape(c, s)
  {
    && (forall v :: 0 <= v < c.topo.Nodes() ==> Fin(s, v) == job)
    && (forall v :: 0 <= v < c.topo.Nodes() && v != c.topo.source ==> s.reactors[v].pc == Recv(0))
  }

  lemma {:induction false} DrainedAwaits(c: Config, s: State, rank: seq<nat>)
    requires c.Valid() && FlowInv(c, s) && Ranked(c.topo, rank) && Drained(c, s) && Quiescent(c, s)
    ensures Awaiting(c, s, Fin(s, c.topo.source))
  {
    forall v | 0 <= v < c.topo.Nodes() && v != c.topo.source ensures s.reactors[v].pc == Recv(0) {
      assert c.topo.InputAt(v, 0);
      var e := c.topo.ins[v][0];
      assert LinkInv(c, s, e) && c.topo.LinkAt(e) && NodeInv(c, s, v);
      NoneAhead(c, s, rank, v);
      NoneAhead(c, s, rank, c.topo.links[e].src);
    }
  }

  /** The source, about to send its job to nodes that await it, gets through all its sends. */
  lemma {:induction false} SourceSends(c: Config, states: seq<State>, events: seq<Event>, i: nat, job: nat)
    returns (ss: seq<State>, es: seq<Event>)
    requires Sound(c) && Run(c, states, events) && Shape(c, states[|events|])
    requires Awaiting(c, states[|events|], job)
    requires i <= |c.topo.outs[c.topo.source]| && states[|events|].reactors[c.topo.source].pc == Send(i)
    ensures Run(c, ss, es) && Shape(c, ss[|es|]) && Awaiting(c, ss[|es|], job)
    ensures ss[|es|].reactors[c.topo.source].pc == Send(|c.topo.outs[c.topo.source]|)
    ensures ss[|es|].dag == states[|events|].dag && ss[|es|].history == states[|events|].history
    decreases |c.topo.outs[c.topo.source]| - i
  {
    var v := c.topo.source;
    if i == |c.topo.outs[v]| {
      ss, es := states, events;
    } else {
      var s' := SendOnce(c, states, events, i, job);
      ss, es := SourceSends(c, states + [s'], events + [AdvanceEvent(v)], i + 1, job);
    }
  }

  lemma {:induction false} SendOnce(c: Config, states: seq<State>, events: seq<Event>, i: nat, job: nat)
    returns (s': State)
    requires Sound(c) && Run(c, states, events) && Shape(c, states[|events|])
    requires Awaiting(c, states[|events|], job)
    requires i < |c.topo.outs[c.topo.source]| && states[|events|].reactors[c.topo.source].pc == Send(i)
    ensures Run(c, states + [s'], events + [AdvanceEvent(c.topo.source)]) && Shape(c, s') && Awaiting(c, s', job)
    ensures OnlyMoves(states[|events|], s', c.topo.source, Send(i + 1))
  {
    var v, s := c.topo.source, states[|events|];
    RunInv(c, states, events, |events|);
    assert c.topo.OutputAt(v, i);
    PushStep(c, s, v, i, job);
    s' := Advance(c, s, v);
    Extend(c, states, events, AdvanceEvent(v), s');
    AwaitingKept(c, s, s', Send(i + 1), job);
  }

  lemma {:induction false} AwaitingKept(c: Config, s: State, t: State, pc: Pc, job: nat)
    requires c.Valid() && Shape(c, s) && Shape(c, t) && Awaiting(c, s, job) && OnlyMoves(s, t, c.topo.source, pc)
    ensures Awaiting(c, t, job)
  {
    forall v | 0 <= v < c.topo.Nodes() ensures Fin(t, v) == job {
      assert Fin(s, v) == job;
    }
  }

  /** Node `v`, about to send job `job` to a node that awaits it, moves on. */
  lemma {:induction false} PushStep(c: Config, s: State, v: nat, i: nat, job: nat)
    requires c.Valid() && FlowInv(c, s) && v < c.topo.Nodes() && s.reactors[v].pc == Send(i)
    requires i < |c.topo.outs[v]| && c.topo.outs[v][i] < |c.topo.links| && Fin(s, v) == job
    requires var w := c.topo.links[c.topo.outs[v][i]].dst;
      w < c.topo.Nodes() && w != c.topo.source ==> Fin(s, w) == job && s.reactors[w].pc == Recv(0)
    ensures Ready(s, v) && OnlyMoves(s, Advance(c, s, v), v, Send(i + 1)) && FlowInv(c, Advance(c, s, v))
  {
    assert c.topo.OutputAt(v, i) && c.topo.LinkAt(c.topo.outs[v][i]);
    PushToWaiting(c, s, v, i, job);
    CanPush(c, s, v, i);
    AdvanceFlow(c, s, v);
  }

  lemma {:induction false} PushToWaiting(c: Config, s: State, v: nat, i: nat, job: nat)
    requires c.Valid() && Shape(c, s) && v < c.topo.Nodes() && i < |c.topo.outs[v]|
    requires c.topo.OutputAt(v, i) && c.topo.LinkAt(c.topo.outs[v][i])
    requires Fin(s, v) == job
    requires var w := c.topo.links[c.topo.outs[v][i]].dst;
      w != c.topo.source ==> Fin(s, w) == job && s.reactors[w].pc == Recv(0)
    ensures var l := c.topo.links[c.topo.outs[v][i]];
      TakenFrom(s.reactors[l.dst].pc, Fin(s, l.dst), l.inPos) == Fin(s, v)
  {
    var l := c.topo.links[c.topo.outs[v][i]];
    assert c.topo.ins[l.dst] != [] && l.dst != c.topo.source;
  }

  /** Node `v` receives from the source alone. */
  ghost predicate FedBySource(c: Config, v: nat)
    requires c.Valid()
  {
    && v < c.topo.Nodes() && v != c.topo.source
    && forall i :: 0 <= i < |c.topo.ins[v]| ==> InputFrom(c, v, i, c.topo.source)
  }

  ghost predicate InputFrom(c: Config, v: nat, i: nat, u: nat)
    requires v < |c.topo.ins| && i < |c.topo.ins[v]|
  {
    c.topo.ins[v][i] < |c.topo.links| && c.topo.links[c.topo.ins[v][i]].src == u
  }

  /** A node of lowest rank after the source receives from the source alone. */
  lemma {:induction false} FirstAfterSource(c: Config, rank: seq<nat>, v: nat) returns (w: nat)
    requires c.Valid() && Ranked(c.topo, rank) && v < c.topo.Nodes() && v != c.topo.source
    ensures FedBySource(c, w)
    decreases rank[v]
  {
    if forall i :: 0 <= i < |c.topo.ins[v]| ==> InputFrom(c, v, i, c.topo.source) {
      w := v;
    } else {
      var i :| 0 <= i < |c.topo.ins[v]| && !InputFrom(c, v, i, c.topo.source);
      assert c.topo.InputAt(v, i);
      var e := c.topo.ins[v][i];
      assert c.topo.LinkAt(e);
      w := FirstAfterSource(c, rank, c.topo.links[e].src);
    }
  }

  /** The source has sent job `job` to all its subscribers and not finished it; `v` receives. */
  ghost predicate Fed(c: Config, s: State, v: nat, i: nat, job: nat)
    requires c.Valid() && Shape(c, s)
  {
    && FedBySource(c, v) && i <= |c.topo.ins[v]| && s.reactors[v].pc == Recv(i) && Fin(s, v) == job
    && s.reactors[c.topo.source].pc == Send(|c.topo.outs[c.topo.source]|) && Fin(s, c.topo.source) == job
  }

  lemma {:induction false} TakeStep(c: Config, s: State, v: nat, i: nat, job: nat)
    requires c.Valid() && FlowInv(c, s) && Fed(c, s, v, i, job) && i < |c.topo.ins[v]|
    ensures Ready(s, v) && OnlyMoves(s, Advance(c, s, v), v, Recv(i + 1)) && FlowInv(c, Advance(c, s, v))
    ensures Fed(c, Advance(c, s, v), v, i + 1, job)
  {
    assert InputFrom(c, v, i, c.topo.source) && c.topo.InputAt(v, i) && c.topo.LinkAt(c.topo.ins[v][i]);
    CanTake(c, s, v, i);
    AdvanceFlow(c, s, v);
  }

  lemma {:induction false} TakesAll(c: Config, states: seq<State>, events: seq<Event>, v: nat, i: nat, job: nat)
    returns (ss: seq<State>, es: seq<Event>)
    requires Sound(c) && Run(c, states, events) && Shape(c, states[|events|]) && Fed(c, states[|events|], v, i, job)
    ensures Run(c, ss, es) && Shape(c, ss[|es|]) && Fed(c, ss[|es|], v, |c.topo.ins[v]|, job)
    ensures ss[|es|].dag == states[|events|].dag && ss[|es|].history == states[|events|].history
    decreases |c.topo.ins[v]| - i
  {
    if i == |c.topo.ins[v]| {
      ss, es := states, events;
    } else {
      var s := states[|events|];
      RunInv(c, states, events, |events|);
      TakeStep(c, s, v, i, job);
      Extend(c, states, events, AdvanceEvent(v), Advance(c, s, v));
      ss, es := TakesAll(c, states + [Advance(c, s, v)], events + [AdvanceEvent(v)], v, i + 1, job);
    }
  }

  /** A source that is not periodic takes up its next job without being woken. */
  lemma {:induction false} BeginStep(c: Config, states: seq<State>, events: seq<Event>) returns (t: State)
    requires Sound(c) && c.free && Run(c, states, events) && Shape(c, states[|events|])
    requires states[|events|].reactors[c.topo.source].pc == AwaitTick(false)
    ensures Run(c, states + [t], events + [BeginEvent]) && Shape(c, t)
    ensures OnlyMoves(states[|events|], t, c.topo.source, Exec)
  {
    var s := states[|events|];
    RunInv(c, states, events, |events|);
    BeginInv(c, s);
    t := Begin(c, s);
    Extend(c, states, events, BeginEvent, t);
  }

  lemma {:induction false} ExecStep(c: Config, states: seq<State>, events: seq<Event>) returns (t: State)
    requires Sound(c) && Run(c, states, events) && Shape(c, states[|events|])
    requires states[|events|].reactors[c.topo.source].pc == Exec
    ensures Run(c, states + [t], events + [AdvanceEvent(c.topo.source)]) && Shape(c, t)
    ensures OnlyMoves(states[|events|], t, c.topo.source, Send(0))
  {
    var s := states[|events|];
    RunInv(c, states, events, |events|);
    assert NodeInv(c, s, c.topo.source);
    t := Advance(c, s, c.topo.source);
    Extend(c, states, events, AdvanceEvent(c.topo.source), t);
  }

  lemma {:induction false} FireSource(c: Config, states: seq<State>, events: seq<Event>)
    returns (ss: seq<State>, es: seq<Event>)
    requires Sound(c) && c.free && Run(c, states, events) && Shape(c, states[|events|])
    requires states[|events|].reactors[c.topo.source].pc == AwaitTick(false)
    ensures Run(c, ss, es) && Shape(c, ss[|es|]) && OnlyMoves(states[|events|], ss[|es|], c.topo.source, Send(0))
    ensures |es| == |events| + 2 && es[|events|] == BeginEvent
    ensures ss[..|states|] == states && es[..|events|] == events
  {
    var t := BeginStep(c, states, events);
    var u := ExecStep(c, states + [t], events + [BeginEvent]);
    ss, es := states + [t] + [u], events + [BeginEvent] + [AdvanceEvent(c.topo.source)];
  }

  /** A run in which every node is woken once, in order. */
  lemma {:induction false} WakeEveryone(c: Config, n: nat) returns (ss: seq<State>, es: seq<Event>)
    requires Sound(c) && n <= c.topo.Nodes()
    ensures Run(c, ss, es) && Shape(c, ss[|es|]) && ss[|es|].reactors == Init(c).reactors
    ensures forall v :: 0 <= v < c.topo.Nodes() ==> Fin(ss[|es|], v) == 0
  {
    if n == 0 {
      ss, es := [Init(c)], [];
      InitFlow(c);
    } else {
      ss, es := WakeEveryone(c, n - 1);
      var s := ss[|es|];
      WakeKeepsIdle(c, s, n - 1);
      Extend(c, ss, es, WakeEvent(n - 1, true, 0), Wake(c, s, n - 1, true, 0));
      ss, es := ss + [Wake(c, s, n - 1, true, 0)], es + [WakeEvent(n - 1, true, 0)];
    }
  }

  lemma {:induction false} WakeKeepsIdle(c: Config, s: State, v: nat)
    requires c.Valid() && Shape(c, s) && v < c.topo.Nodes() && s.reactors == Init(c).reactors
    ensures var t := Wake(c, s, v, true, 0);
      && Shape(c, t) && t.reactors == s.reactors
      && forall w :: 0 <= w < c.topo.Nodes() ==> Fin(t, w) == Fin(s, w)
  {
  }

  /** A run in which every node is woken, the source releases at most job 0, and every node finishes it. */
  lemma {:induction false} FirstJob(c: Config) returns (ss: seq<State>, es: seq<Event>)
    requires Sound(c) && c.free
    ensures Run(c, ss, es) && Shape(c, ss[|es|]) && Awaiting(c, ss[|es|], 1) && 1 !in ss[|es|].history
    ensures ss[|es|].reactors[c.topo.source].pc == AwaitTick(false)
  {
    var states, events := WakeEveryone(c, c.topo.Nodes());
    RunInv(c, states, events, |events|);
    states, events := FireSource(c, states, events);
    RunInv(c, states, events, |events|);
    TotalWorkNonNegative(c, states[|events|]);
    ss, es := CanDrain(c, states, events, TotalWork(c, states[|events|]));
    RunInv(c, ss, es, |es|);
    var rank :| Ranked(c.topo, rank);
    DrainedAwaits(c, ss[|es|], rank);
  }

  /** The source, at job `job`, is ahead of its release, and `v` has received it. */
  lemma {:induction false} SentUnreleased(c: Config, states: seq<State>, events: seq<Event>, v: nat, job: nat)
    returns (ss: seq<State>, es: seq<Event>)
    requires Sound(c) && c.free && Run(c, states, events) && Shape(c, states[|events|]) && FedBySource(c, v)
    requires Awaiting(c, states[|events|], job) && states[|events|].reactors[c.topo.source].pc == AwaitTick(false)
    ensures Run(c, ss, es) && Shape(c, ss[|es|]) && Fed(c, ss[|es|], v, |c.topo.ins[v]|, job)
    ensures ss[|es|].history == states[|events|].history
  {
    ss, es := FireSource(c, states, events);
    AwaitingKept(c, states[|events|], ss[|es|], Send(0), job);
    ss, es := SourceSends(c, ss, es, 0, job);
    ss, es := TakesAll(c, ss, es, v, 0, job);
  }

  lemma {:induction false} CheckUnreleased(c: Config, s: State, v: nat, job: nat)
    requires c.Valid() && Inv(c, s) && v < c.topo.Nodes() && Fed(c, s, v, |c.topo.ins[v]|, job)
    requires job !in s.history
    ensures Ready(s, v) && OnlyMoves(s, Advance(c, s, v), v, Exec)
  {
    assert NodeInv(c, s, v);
  }

  lemma {:induction false} ReleaseLate(c: Config, s: State, v: nat, job: nat)
    requires c.Valid() && Inv(c, s) && c.Releases() && v < c.topo.Nodes() && v != c.topo.source
    requires s.reactors[v].pc == Exec && Fin(s, v) == job == Fin(s, c.topo.source) && job !in s.history
    ensures var t := Wake(c, s, c.topo.source, true, 0);
      Shape(c, t) && Executes(t, v) && Fin(t, v) in t.dag.deadlines && !HoldsDeadline(t, v)
  {
    assert FreshInv(c, s, v);
  }

  /**
   A run in which a node executes a known job without its deadline, whatever the schedulers of the other
   nodes: after job 0 the source goes on to job 1 without a wake, so `v` receives it unreleased and
   executes it, and then a wake of the source releases it.
   */
  lemma {:induction false} FreeStaleRun(c: Config) returns (states: seq<State>, events: seq<Event>, v: nat)
    requires Sound(c) && c.free && c.Releases() && c.topo.Nodes() >= 2
    ensures Run(c, states, events) && v < c.topo.Nodes() && !Fresh(c, states[|events|], v)
  {
    var rank :| Ranked(c.topo, rank);
    v := FirstAfterSource(c, rank, if c.topo.source == 0 then 1 else 0);
    states, events := FirstJob(c);
    states, events := SentUnreleased(c, states, events, v, 1);
    states, events := ExecutesUnreleased(c, states, events, v, 1);
    RunInv(c, states, events, |events|);
    ReleaseLate(c, states[|events|], v, 1);
    var t := Wake(c, states[|events|], c.topo.source, true, 0);
    Extend(c, states, events, WakeEvent(c.topo.source, true, 0), t);
    states, events := states + [t], events + [WakeEvent(c.topo.source, true, 0)];
  }

  lemma {:induction false} ExecutesUnreleased(c: Config, states: seq<State>, events: seq<Event>, v: nat, job: nat)
    returns (ss: seq<State>, es: seq<Event>)
    requires Sound(c) && Run(c, states, events) && Shape(c, states[|events|]) && v < c.topo.Nodes()
    requires Fed(c, states[|events|], v, |c.topo.ins[v]|, job) && job !in states[|events|].history
    ensures Run(c, ss, es) && Shape(c, ss[|es|]) && ss[|es|].history == states[|events|].history
    ensures ss[|es|].reactors[v].pc == Exec && Fin(ss[|es|], v) == job == Fin(ss[|es|], c.topo.source)
  {
    var s := states[|events|];
    RunInv(c, states, events, |events|);
    CheckUnreleased(c, s, v, job);
    AdvanceFlow(c, s, v);
    Extend(c, states, events, AdvanceEvent(v), Advance(c, s, v));
    ss, es := states + [Advance(c, s, v)], events + [AdvanceEvent(v)];
  }

  /**
   The source releases no jobs, or every node is under a deadline scheduler and the source is periodic or
   alone.
   */
  ghost predicate NeverStaleCondition(c: Config)
    requires c.Valid()
  {
    c.Releases() ==>
      && (forall v :: 0 <= v < c.topo.Nodes() ==> c.edf[v])
      && (!c.free || c.topo.Nodes() == 1)
  }

  lemma {:induction false} SomeStaleRun(c: Config) returns (states: seq<State>, events: seq<Event>, k: nat, v: nat)
    requires Sound(c) && !NeverStaleCondition(c)
    ensures Run(c, states, events) && k < |states| && v < c.topo.Nodes() && !Fresh(c, states[k], v)
  {
    if c.free {
      states, events, v := FreeStaleRun(c);
      k := |events|;
    } else {
      v :| 0 <= v < c.topo.Nodes() && !c.edf[v];
      states, events, k := StaleRun(c, v);
    }
  }

  lemma {:induction false} StepsSplit(states: seq<State>, events: seq<Event>, i: nat, m: nat, k: nat)
    requires i <= m <= k <= |events| && |states| == |events| + 1
    ensures InternalSteps(states, events, i, k)
      == InternalSteps(states, events, i, m) + InternalSteps(states, events, m, k)
    decreases m - i
  {
    if i < m {
      StepsSplit(states, events, i + 1, m, k);
    }
  }

  lemma {:induction false} StepsOfPrefix(
      states: seq<State>, events: seq<Event>, ss: seq<State>, es: seq<Event>, i: nat, k: nat)
    requires i <= k <= |events| <= |es| && |states| == |events| + 1 && |ss| == |es| + 1
    requires ss[..|states|] == states && es[..|events|] == events
    ensures InternalSteps(ss, es, i, k) == InternalSteps(states, events, i, k)
    decreases k - i
  {
    if i < k {
      StepsOfPrefix(states, events, ss, es, i + 1, k);
      assert ss[i] == ss[..|states|][i] && es[i] == es[..|events|][i];
    }
  }

  /** Job after job and without a tick, a source that is not periodic keeps the pipeline going. */
  lemma {:induction false} Restless(c: Config, n: nat) returns (ss: seq<State>, es: seq<Event>)
    requires Sound(c) && c.free
    ensures Run(c, ss, es) && Shape(c, ss[|es|]) && ss[|es|].reactors[c.topo.source].pc == AwaitTick(false)
    ensures InternalSteps(ss, es, 0, |es|) >= n
  {
    if n == 0 {
      ss, es := [Init(c)], [];
      InitFlow(c);
    } else {
      var states, events := Restless(c, n - 1);
      ss, es := OneMoreJob(c, states, events);
    }
  }

  lemma {:induction false} OneMoreJob(c: Config, states: seq<State>, events: seq<Event>)
    returns (ss: seq<State>, es: seq<Event>)
    requires Sound(c) && c.free && Run(c, states, events) && Shape(c, states[|events|])
    requires states[|events|].reactors[c.topo.source].pc == AwaitTick(false)
    ensures Run(c, ss, es) && Shape(c, ss[|es|]) && ss[|es|].reactors[c.topo.source].pc == AwaitTick(false)
    ensures InternalSteps(ss, es, 0, |es|) > InternalSteps(states, events, 0, |events|)
  {
    var s2, e2 := FireSource(c, states, events);
    RunInv(c, s2, e2, |e2|);
    TotalWorkNonNegative(c, s2[|e2|]);
    ss, es := CanDrain(c, s2, e2, TotalWork(c, s2[|e2|]));
    assert ss[..|states|] == ss[..|s2|][..|states|] && es[..|events|] == es[..|e2|][..|events|];
    assert es[|events|] == es[..|e2|][|events|] == BeginEvent;
    StepsOfPrefix(states, events, ss, es, 0, |events|);
    StepsSplit(ss, es, 0, |events|, |es|);
  }
}
