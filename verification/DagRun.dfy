/**
 Runs of an accepted DAG whose reactors have all subscribed to their topics. Every reactor repeats:
 receive one message from each input topic, check for a stale deadline, compute, send one message to
 each output topic, finish the job. A periodic source waits for its interval tick instead of
 receiving; any other source has nothing to wait for. Each topic is one bounded subscriber queue with
 flow control. Wakes by the scheduler are steps of the environment.
 */
module DagRun {
  import opened Common
  import opened Subscriber
  import opened DagDeadlines

  /** A topic joins output `outPos` of node `src` to input `inPos` of node `dst`. */
  datatype Link = Link(src: nat, outPos: nat, dst: nat, inPos: nat)

  /** `ins[v]` and `outs[v]` list the links of node `v` in the order of its topic lists. */
  datatype Topology = Topology(links: seq<Link>, ins: seq<seq<nat>>, outs: seq<seq<nat>>, source: nat) {
    function Nodes(): nat { |ins| }

    ghost predicate Valid() {
      && |outs| == |ins|
      && source < |ins|
      && (forall v :: 0 <= v < |ins| ==> (ins[v] == [] <==> v == source))
      && (forall v, i :: 0 <= v < |ins| && 0 <= i < |ins[v]| ==> InputAt(v, i))
      && (forall v, i :: 0 <= v < |outs| && 0 <= i < |outs[v]| ==> OutputAt(v, i))
      && (forall e :: 0 <= e < |links| ==> LinkAt(e))
    }

    ghost predicate InputAt(v: nat, i: nat)
      requires v < |ins| && i < |ins[v]|
    {
      ins[v][i] < |links| && links[ins[v][i]].dst == v && links[ins[v][i]].inPos == i
    }

    ghost predicate OutputAt(v: nat, i: nat)
      requires v < |outs| && i < |outs[v]|
    {
      outs[v][i] < |links| && links[outs[v][i]].src == v && links[outs[v][i]].outPos == i
    }

    ghost predicate LinkAt(e: nat)
      requires e < |links|
    {
      && links[e].src < |outs| && links[e].outPos < |outs[links[e].src]|
      && outs[links[e].src][links[e].outPos] == e
      && links[e].dst < |ins| && links[e].inPos < |ins[links[e].dst]|
      && ins[links[e].dst][links[e].inPos] == e
    }
  }

  /**
   `edf[v]`: node `v` runs under a deadline scheduler, which looks its deadline up at every wake.
   Any other scheduler wakes a node without a lookup. `free`: the source is not a periodic reactor, so
   it runs on without ticks.
   */
  datatype Config = Config(topo: Topology, q: nat, edf: seq<bool>, free: bool) {
    ghost predicate Valid() { topo.Valid() && q >= 1 && |edf| == topo.Nodes() }

    /** The source is under a deadline scheduler, so its wakes release jobs. */
    predicate Releases()
      requires topo.source < |edf|
    {
      edf[topo.source]
    }
  }

  /** `AwaitTick(false)` is the source between two jobs: it waits for a tick, or can begin at once. */
  datatype Pc =
    | AwaitTick(ready: bool)
    | Recv(i: nat)
    | Yielded(woken: bool)
    | Exec
    | Send(i: nat)

  /**
   `tag` is the period index of the current job, `mismatch` records a receive whose period
   index differs from it, and `released` whether the job was released at the stale check.
   */
  datatype Reactor = Reactor(pc: Pc, asleep: bool, tag: Option<nat>, mismatch: bool, released: bool)

  /** `history` maps every job ever released to its absolute deadline. */
  datatype State = State(
    reactors: seq<Reactor>,
    inners: seq<Inner<nat>>,
    dag: DagState,
    period: nat,
    history: map<nat, nat>)

  ghost predicate Shape(c: Config, s: State) {
    && |s.reactors| == |s.dag.infos| == |c.edf| == c.topo.Nodes()
    && |s.inners| == |c.topo.links|
    && (forall e :: 0 <= e < |s.inners| ==> |s.inners[e].queue| <= c.q)
  }

  function Init(c: Config): (s: State)
    requires c.topo.source < c.topo.Nodes()
  {
    var n := c.topo.Nodes();
    State(
      seq(n, v => Reactor(if v == c.topo.source then AwaitTick(false) else Recv(0), false, None, false, false)),
      seq(|c.topo.links|, e => NewInner()),
      DagState(seq(n, v => NodeInfo(0, None)), map[]),
      0,
      map[])
  }

  /** Wakes task `w` if it is a reactor that sleeps. */
  function WakeAll(rs: seq<Reactor>, woken: seq<nat>): (r: seq<Reactor>)
    ensures |r| == |rs|
    ensures forall v :: 0 <= v < |rs| ==> r[v] == if v in woken then rs[v].(asleep := false) else rs[v]
  {
    seq(|rs|, v requires 0 <= v < |rs| => if v in woken then rs[v].(asleep := false) else rs[v])
  }

  /** The deadline lookup made by a deadline scheduler when it wakes node `v`. */
  function SchedulerWake(c: Config, s: State, v: nat, release: bool, deadline: nat): (r: (State, nat))
    requires v < |s.dag.infos|
  {
    var isSource := v == c.topo.source;
    var job := s.dag.infos[v].numFinished;
    var (dag', answer) := GetOrRelease(s.dag, v, isSource, release, deadline);
    var history' := if release && isSource && job !in s.dag.deadlines then s.history[job := deadline] else s.history;
    (s.(dag := dag', history := history'), answer)
  }

  /** A wake of node `v`, with a lookup or without. It also ends the wait of a node that yielded. */
  function Wake(c: Config, s: State, v: nat, release: bool, deadline: nat): (r: State)
    requires v < |s.dag.infos| && v < |s.reactors| && v < |c.edf|
  {
    var s' := if c.edf[v] then SchedulerWake(c, s, v, release, deadline).0 else s;
    if s.reactors[v].pc.Yielded? then s'.(reactors := s'.reactors[v := s'.reactors[v].(pc := Yielded(true))]) else s'
  }

  /** The interval of the source elapses. */
  function TickWake(c: Config, s: State, deadline: nat): (r: State)
    requires c.topo.source < |s.dag.infos| && c.topo.source < |s.reactors| && c.topo.source < |c.edf|
  {
    var v := c.topo.source;
    var s' := if c.Releases() then SchedulerWake(c, s, v, true, deadline).0 else s;
    s'.(reactors := s'.reactors[v := s'.reactors[v].(pc := AwaitTick(true))])
  }

  /**
   A source that is not periodic goes through its empty receive to the stale-deadline check. Its tag
   counts its firings; the period index it sends is always zero and so never mismatches.
   */
  function Begin(c: Config, s: State): (r: State)
    requires c.topo.source < |s.dag.infos| && c.topo.source < |s.reactors|
  {
    var v := c.topo.source;
    StepCheck(s.(reactors := s.reactors[v := s.reactors[v].(tag := Some(s.period))]), v)
  }

  /** Node `v` can take a step of its own. */
  predicate Ready(s: State, v: nat)
    requires v < |s.reactors|
  {
    !s.reactors[v].asleep && s.reactors[v].pc != AwaitTick(false) && s.reactors[v].pc != Yielded(false)
  }

  function SetPc(s: State, v: nat, pc: Pc): (r: State)
    requires v < |s.reactors|
  {
    s.(reactors := s.reactors[v := s.reactors[v].(pc := pc)])
  }

  /** One poll of the receive of input `i`. */
  function StepRecv(c: Config, s: State, v: nat, i: nat): (r: State)
    requires Shape(c, s) && v < c.topo.Nodes() && i < |c.topo.ins[v]| && c.topo.ins[v][i] < |s.inners|
  {
    var e := c.topo.ins[v][i];
    var x := s.reactors[v];
    var got := RecvOrRegisterWaker(c.q, s.inners[e], v);
    var x' := match got.data
      case None => x.(asleep := true)
      case Some(tag) => x.(pc := Recv(i + 1),
                           tag := if x.tag.None? then Some(tag) else x.tag,
                           mismatch := x.mismatch || (x.tag.Some? && x.tag.value != tag));
    s.(reactors := WakeAll(s.reactors[v := x'], got.woken), inners := s.inners[e := got.inner])
  }

  /** The stale-deadline check between the last receive and the computation. */
  function StepCheck(s: State, v: nat): (r: State)
    requires v < |s.reactors| && v < |s.dag.infos|
  {
    var x := s.reactors[v].(released := s.dag.infos[v].numFinished in s.history);
    s.(reactors := s.reactors[v := x.(pc := if HasStaleDeadline(s.dag, v) then Yielded(false) else Exec)])
  }

  /** One poll of the send to output `i`. */
  function StepSend(c: Config, s: State, v: nat, i: nat): (r: State)
    requires Shape(c, s) && v < c.topo.Nodes() && v < |c.topo.outs|
    requires i < |c.topo.outs[v]| && c.topo.outs[v][i] < |s.inners|
  {
    var e := c.topo.outs[v][i];
    var x := s.reactors[v];
    var data := if x.tag.Some? then x.tag.value else 0;
    var sent := SendOrRegisterWaker(c.q, true, s.inners[e], data, v);
    var x' := if sent.outcome.Parked? then x.(asleep := true) else x.(pc := Send(i + 1));
    s.(reactors := WakeAll(s.reactors[v := x'], sent.woken), inners := s.inners[e := sent.inner])
  }

  /** The end of the loop body: the node finishes its job and starts over. */
  ghost function StepFinish(c: Config, s: State, v: nat): (r: State)
    requires v < |s.reactors| && v < |s.dag.infos|
  {
    var isSource := v == c.topo.source;
    var first := if isSource then AwaitTick(false) else Recv(0);
    s.(reactors := s.reactors[v := Reactor(first, false, None, s.reactors[v].mismatch, false)],
       dag := FinishJob(s.dag, v, c.q),
       period := if isSource then s.period + 1 else s.period)
  }

  /** The next step of reactor `v`. */
  ghost function Advance(c: Config, s: State, v: nat): (r: State)
    requires c.Valid() && Shape(c, s) && v < c.topo.Nodes() && Ready(s, v)
  {
    match s.reactors[v].pc
    case AwaitTick(_) => s.(reactors := s.reactors[v := s.reactors[v].(pc := Exec, tag := Some(s.period))])
    case Recv(i) =>
      if i < |c.topo.ins[v]| then
        assert c.topo.InputAt(v, i);
        StepRecv(c, s, v, i)
      else StepCheck(s, v)
    case Yielded(_) => SetPc(s, v, Exec)
    case Exec => SetPc(s, v, Send(0))
    case Send(i) =>
      if i < |c.topo.outs[v]| then
        assert c.topo.OutputAt(v, i);
        StepSend(c, s, v, i)
      else StepFinish(c, s, v)
  }

  datatype Event =
    | WakeEvent(v: nat, release: bool, deadline: nat)
    | TickEvent(deadline: nat)
    | BeginEvent
    | AdvanceEvent(v: nat)

  /** The event makes a scheduler look the deadline of a node up. */
  ghost predicate LooksUp(c: Config, ev: Event)
    requires c.Valid()
  {
    match ev
    case WakeEvent(v, _, _) => v < c.topo.Nodes() && c.edf[v]
    case TickEvent(_) => c.Releases()
    case BeginEvent => false
    case AdvanceEvent(_) => false
  }

  /** The event makes the source take up its next job. */
  predicate Fires(ev: Event) {
    ev.TickEvent? || ev.BeginEvent?
  }

  /** The node whose deadline is looked up. */
  ghost function Asker(c: Config, ev: Event): (v: nat)
    requires c.Valid() && LooksUp(c, ev)
    ensures v < c.topo.Nodes() && c.edf[v]
  {
    if ev.WakeEvent? then ev.v else c.topo.source
  }

  /** The deadline that the lookup answers with. */
  ghost function Answer(c: Config, s: State, ev: Event): (deadline: nat)
    requires c.Valid() && Shape(c, s) && LooksUp(c, ev)
  {
    SchedulerWake(c, s, Asker(c, ev), ev.TickEvent? || ev.release, ev.deadline).1
  }

  ghost predicate Next(c: Config, s: State, ev: Event, s': State)
    requires c.Valid() && Shape(c, s)
  {
    match ev
    case WakeEvent(v, release, deadline) =>
      v < c.topo.Nodes() && s' == Wake(c, s, v, release, deadline)
    case TickEvent(deadline) =>
      !c.free && s.reactors[c.topo.source].pc == AwaitTick(false) && s' == TickWake(c, s, deadline)
    case BeginEvent =>
      c.free && s.reactors[c.topo.source].pc == AwaitTick(false) && s' == Begin(c, s)
    case AdvanceEvent(v) =>
      v < c.topo.Nodes() && Ready(s, v) && s' == Advance(c, s, v)
  }

  /** A finite run: `states[k + 1]` follows from `states[k]` by `events[k]`. */
  ghost predicate Run(c: Config, states: seq<State>, events: seq<Event>)
    requires c.Valid()
  {
    && |states| == |events| + 1
    && states[0] == Init(c)
    && (forall k :: 0 <= k < |events| ==> RunStep(c, states, events, k))
  }

  ghost predicate RunStep(c: Config, states: seq<State>, events: seq<Event>, k: nat)
    requires c.Valid() && k < |events| && |states| == |events| + 1
  {
    Shape(c, states[k]) && Next(c, states[k], events[k], states[k + 1])
  }
}
