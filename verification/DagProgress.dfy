/** No run of an accepted DAG gets stuck, and every fired job drains until the source fires again. */
module DagProgress {
  import opened DagRun
  import opened DagInvariant
  import opened DagLag

  /** Links lead to strictly larger ranks, so there is no cycle. */
  ghost predicate Ranked(t: Topology, rank: seq<nat>) {
    && |rank| == t.Nodes()
    && (forall e :: 0 <= e < |t.links| ==>
          t.links[e].src < |rank| && t.links[e].dst < |rank| && rank[t.links[e].src] < rank[t.links[e].dst])
  }

  /** What validation leaves: every node is reached from the source, and links follow a rank. */
  ghost predicate Sound(c: Config) {
    c.Valid() && Rooted(c.topo) && exists rank :: Ranked(c.topo, rank)
  }

  /** Nobody can move but the source to its next job: each other reactor sleeps. */
  ghost predicate Quiescent(c: Config, s: State)
    requires Shape(c, s)
  {
    forall v :: 0 <= v < c.topo.Nodes() ==> s.reactors[v].asleep || s.reactors[v].pc == AwaitTick(false)
  }

  /** All jobs fired by the source are finished by every node and no message is left over. */
  ghost predicate Drained(c: Config, s: State)
    requires c.Valid() && Shape(c, s)
  {
    && s.reactors[c.topo.source].pc == AwaitTick(false)
    && (forall v :: 0 <= v < c.topo.Nodes() ==> Fin(s, v) == Fin(s, c.topo.source))
    && (forall e :: 0 <= e < |s.inners| ==> s.inners[e].queue == [])
  }

  /** The node that a sleeping reactor waits for. */
  function WaitsFor(c: Config, s: State, v: nat): (w: nat)
    requires c.Valid() && Shape(c, s) && v < c.topo.Nodes() && s.reactors[v].asleep && NodeInv(c, s, v)
    ensures w < c.topo.Nodes()
  {
    assert s.reactors[v].pc.Recv? ==>
      c.topo.InputAt(v, s.reactors[v].pc.i) && c.topo.LinkAt(c.topo.ins[v][s.reactors[v].pc.i]);
    assert s.reactors[v].pc.Send? ==>
      c.topo.OutputAt(v, s.reactors[v].pc.i) && c.topo.LinkAt(c.topo.outs[v][s.reactors[v].pc.i]);
    if s.reactors[v].pc.Recv? then c.topo.links[c.topo.ins[v][s.reactors[v].pc.i]].src
    else c.topo.links[c.topo.outs[v][s.reactors[v].pc.i]].dst
  }

  /** A blocked read waits upstream for no later job; a blocked write waits for a strictly earlier job. */
  lemma {:induction false} WaitDescends(c: Config, s: State, rank: seq<nat>, v: nat)
    requires c.Valid() && FlowInv(c, s) && Ranked(c.topo, rank) && v < c.topo.Nodes() && s.reactors[v].asleep
    ensures NodeInv(c, s, v)
    ensures var w := WaitsFor(c, s, v);
      if s.reactors[v].pc.Recv? then Fin(s, w) <= Fin(s, v) && rank[w] < rank[v] else Fin(s, w) < Fin(s, v)
  {
    assert NodeInv(c, s, v);
    if s.reactors[v].pc.Recv? {
      assert c.topo.InputAt(v, s.reactors[v].pc.i);
      var e := c.topo.ins[v][s.reactors[v].pc.i];
      assert LinkInv(c, s, e) && c.topo.LinkAt(e);
    } else {
      assert c.topo.OutputAt(v, s.reactors[v].pc.i);
      var e := c.topo.outs[v][s.reactors[v].pc.i];
      assert LinkInv(c, s, e) && c.topo.LinkAt(e);
    }
  }

  /** Following who waits for whom always ends at the source waiting for its tick. */
  lemma {:induction false} ChainEndsAtSource(c: Config, s: State, rank: seq<nat>, v: nat)
    requires c.Valid() && FlowInv(c, s) && Ranked(c.topo, rank) && Quiescent(c, s) && v < c.topo.Nodes()
    ensures s.reactors[c.topo.source].pc == AwaitTick(false)
    ensures Fin(s, c.topo.source) <= Fin(s, v)
    decreases Fin(s, v), rank[v]
  {
    if s.reactors[v].asleep {
      WaitDescends(c, s, rank, v);
      ChainEndsAtSource(c, s, rank, WaitsFor(c, s, v));
    } else {
      assert NodeInv(c, s, v);
    }
  }

  /** A node that is not ahead of the source does not wait for room in a queue. */
  lemma {:induction false} NoBlockedWrite(c: Config, s: State, rank: seq<nat>, v: nat)
    requires c.Valid() && FlowInv(c, s) && Ranked(c.topo, rank) && Quiescent(c, s) && v < c.topo.Nodes()
    requires Fin(s, v) <= Fin(s, c.topo.source)
    ensures s.reactors[v].pc.Recv? || s.reactors[v].pc == AwaitTick(false)
  {
    assert NodeInv(c, s, v);
    if s.reactors[v].asleep {
      WaitDescends(c, s, rank, v);
      ChainEndsAtSource(c, s, rank, WaitsFor(c, s, v));
    }
  }

  /** In a quiescent state no node is ahead of the source. */
  lemma {:induction false} NoneAhead(c: Config, s: State, rank: seq<nat>, v: nat)
    requires c.Valid() && FlowInv(c, s) && Ranked(c.topo, rank) && Quiescent(c, s) && v < c.topo.Nodes()
    ensures Fin(s, v) <= Fin(s, c.topo.source)
    ensures s.reactors[v].pc.Recv? || s.reactors[v].pc == AwaitTick(false)
    decreases rank[v]
  {
    if v != c.topo.source {
      assert c.topo.InputAt(v, 0);
      var e := c.topo.ins[v][0];
      assert LinkInv(c, s, e) && c.topo.LinkAt(e);
      NoneAhead(c, s, rank, c.topo.links[e].src);
    }
    NoBlockedWrite(c, s, rank, v);
  }

  /** Deadlock freedom: when nobody can move, there is nothing left to do but wait for the tick. */
  lemma {:induction false} QuiescentIsDrained(c: Config, s: State, rank: seq<nat>)
    requires c.Valid() && FlowInv(c, s) && Ranked(c.topo, rank) && Quiescent(c, s)
    ensures Drained(c, s)
  {
    forall v | 0 <= v < c.topo.Nodes() ensures Fin(s, v) == Fin(s, c.topo.source) {
      ChainEndsAtSource(c, s, rank, v);
      NoneAhead(c, s, rank, v);
    }
    ChainEndsAtSource(c, s, rank, c.topo.source);
    forall e | 0 <= e < |s.inners| ensures s.inners[e].queue == [] {
      assert LinkInv(c, s, e) && c.topo.LinkAt(e);
      NoneAhead(c, s, rank, c.topo.links[e].src);
    }
  }

  lemma {:induction false} SomeoneAwake(c: Config, s: State, rank: seq<nat>)
    requires c.Valid() && FlowInv(c, s) && Ranked(c.topo, rank)
    ensures exists v :: 0 <= v < c.topo.Nodes() && !s.reactors[v].asleep
  {
    assert NodeInv(c, s, c.topo.source);
    if forall v :: 0 <= v < c.topo.Nodes() ==> s.reactors[v].asleep {
      QuiescentIsDrained(c, s, rank);
    }
  }

  /** The node works on a job of which it has taken an input or started the computation. */
  predicate Active(pc: Pc) {
    pc != Recv(0) && pc != AwaitTick(false)
  }

  /** No node works on a job that the source has not fired. */
  lemma {:induction false} WithinFired(c: Config, s: State, rank: seq<nat>, v: nat)
    requires c.Valid() && FlowInv(c, s) && Ranked(c.topo, rank) && v < c.topo.Nodes()
    ensures Fin(s, v) + (if Active(s.reactors[v].pc) then 1 else 0) <= Fired(c, s)
    decreases rank[v]
  {
    assert NodeInv(c, s, v);
    if v != c.topo.source {
      assert c.topo.InputAt(v, 0);
      var e := c.topo.ins[v][0];
      assert LinkInv(c, s, e) && c.topo.LinkAt(e);
      WithinFired(c, s, rank, c.topo.links[e].src);
    }
  }

  /** Own steps that node `v` still needs to finish its current job. */
  function StepsLeft(c: Config, v: nat, pc: Pc): (r: int)
    requires v < |c.topo.ins| && v < |c.topo.outs|
  {
    var sends := |c.topo.outs[v]|;
    match pc
    case AwaitTick(ready) => if ready then sends + 3 else 0
    case Recv(i) => sends + 5 + |c.topo.ins[v]| - i
    case Yielded(woken) => if woken then sends + 3 else sends + 4
    case Exec => sends + 2
    case Send(i) => sends - i + 1
  }

  /** Own steps that node `v` still needs to finish all fired jobs. */
  function JobsWork(c: Config, v: nat, pc: Pc, left: int): (r: int)
    requires v < |c.topo.ins| && v < |c.topo.outs|
  {
    if left <= 0 then 0 else (left - 1) * StepsLeft(c, v, Recv(0)) + StepsLeft(c, v, pc)
  }

  /** Three units for each own step and one for being awake. */
  function Work(c: Config, s: State, v: nat): (r: int)
    requires c.Valid() && Shape(c, s) && v < c.topo.Nodes()
  {
    3 * JobsWork(c, v, s.reactors[v].pc, Fired(c, s) - Fin(s, v)) + (if s.reactors[v].asleep then 0 else 1)
  }

  function Sum(xs: seq<int>): (r: int) {
    if xs == [] then 0 else Sum(xs[..|xs| - 1]) + xs[|xs| - 1]
  }

  lemma {:induction false} SumSet(xs: seq<int>, v: nat, x: int)
    requires v < |xs|
    ensures Sum(xs[v := x]) == Sum(xs) - xs[v] + x
  {
    var last := |xs| - 1;
    if v < last {
      SumSet(xs[..last], v, x);
      assert xs[v := x][..last] == xs[..last][v := x];
    } else {
      assert xs[v := x][..last] == xs[..last];
    }
  }

  lemma {:induction false} SumMonotone(xs: seq<int>, ys: seq<int>)
    requires |xs| == |ys| && forall v :: 0 <= v < |xs| ==> xs[v] <= ys[v]
    ensures Sum(xs) <= Sum(ys)
  {
    if xs != [] {
      SumMonotone(xs[..|xs| - 1], ys[..|ys| - 1]);
    }
  }

  function Works(c: Config, s: State): (r: seq<int>)
    requires c.Valid() && Shape(c, s)
  {
    seq(c.topo.Nodes(), v requires 0 <= v < c.topo.Nodes() => Work(c, s, v))
  }

  /** The work left in the whole DAG until every fired job is finished. */
  function TotalWork(c: Config, s: State): (r: int)
    requires c.Valid() && Shape(c, s)
  {
    Sum(Works(c, s))
  }

  lemma {:induction false} WorkNonNegative(c: Config, s: State, v: nat)
    requires c.Valid() && FlowInv(c, s) && v < c.topo.Nodes()
    ensures Work(c, s, v) >= 0
  {
    assert NodeInv(c, s, v);
    var left := Fired(c, s) - Fin(s, v);
    if left > 0 {
      assert (left - 1) * StepsLeft(c, v, Recv(0)) >= 0;
    }
  }

  lemma {:induction false} TotalWorkNonNegative(c: Config, s: State)
    requires c.Valid() && FlowInv(c, s)
    ensures TotalWork(c, s) >= 0
  {
    forall v | 0 <= v < c.topo.Nodes() ensures Works(c, s)[v] >= 0 {
      WorkNonNegative(c, s, v);
    }
    SumMonotone(seq(c.topo.Nodes(), v => 0), Works(c, s));
    SumZero(c.topo.Nodes());
  }

  lemma {:induction false} SumZero(n: nat)
    ensures Sum(seq(n, v => 0)) == 0
  {
    if n > 0 {
      SumZero(n - 1);
      assert seq(n, v => 0)[..n - 1] == seq(n - 1, v => 0);
    }
  }

  lemma {:induction false} SumDrops(xs: seq<int>, ys: seq<int>, v: nat, a: nat)
    requires |xs| == |ys| && v < |xs| && a < |xs|
    requires forall w :: 0 <= w < |xs| && w != v && w != a ==> ys[w] <= xs[w]
    requires v != a ==> ys[a] <= xs[a] + 1 && ys[v] <= xs[v] - 2
    requires v == a ==> ys[v] < xs[v]
    ensures Sum(ys) < Sum(xs)
  {
    if v == a {
      SumSet(xs, v, xs[v] - 1);
      SumMonotone(ys, xs[v := xs[v] - 1]);
    } else {
      SumSet(xs, v, xs[v] - 2);
      SumSet(xs[v := xs[v] - 2], a, xs[a] + 1);
      SumMonotone(ys, xs[v := xs[v] - 2][a := xs[a] + 1]);
    }
  }

  /** If `v` gives up two units and at most one other node `a` gains one, the total drops. */
  lemma {:induction false} TotalDrops(c: Config, s: State, s': State, v: nat, a: nat)
    requires c.Valid() && Shape(c, s) && Shape(c, s') && v < c.topo.Nodes() && a < c.topo.Nodes()
    requires forall w :: 0 <= w < c.topo.Nodes() && w != v && w != a ==> Work(c, s', w) <= Work(c, s, w)
    requires v != a ==> Work(c, s', a) <= Work(c, s, a) + 1 && Work(c, s', v) <= Work(c, s, v) - 2
    requires v == a ==> Work(c, s', v) < Work(c, s, v)
    ensures TotalWork(c, s') < TotalWork(c, s)
  {
    SumDrops(Works(c, s), Works(c, s'), v, a);
  }

  /** A step of the pipeline itself: a reactor moves, or a yield comes back. */
  ghost predicate Internal(s: State, ev: Event) {
    || ev.AdvanceEvent? || ev.BeginEvent?
    || (ev.WakeEvent? && ev.v < |s.reactors| && s.reactors[ev.v].pc == Yielded(false))
  }

  /** Finishing one of `left` jobs costs one step. */
  lemma {:induction false} FinishWork(c: Config, v: nat, left: int)
    requires v < |c.topo.ins| && v < |c.topo.outs| && left >= 1
    ensures JobsWork(c, v, Recv(0), left - 1) < JobsWork(c, v, Send(|c.topo.outs[v]|), left)
  {
    var full := StepsLeft(c, v, Recv(0));
    if left > 1 {
      assert (left - 1) * full == (left - 2) * full + full;
    }
  }

  lemma {:induction false} WakeDrops(c: Config, s: State, v: nat, release: bool, deadline: nat)
    requires c.Valid() && FlowInv(c, s) && v < c.topo.Nodes()
    ensures FlowInv(c, Wake(c, s, v, release, deadline))
    ensures TotalWork(c, Wake(c, s, v, release, deadline)) <= TotalWork(c, s)
  {
    WakeFlow(c, s, v, release, deadline);
    var s' := Wake(c, s, v, release, deadline);
    assert NodeInv(c, s, v);
    assert Fired(c, s') == Fired(c, s);
    forall w | 0 <= w < c.topo.Nodes() ensures Works(c, s')[w] <= Works(c, s)[w] {
      assert Fin(s', w) == Fin(s, w);
    }
    SumMonotone(Works(c, s'), Works(c, s));
  }

  /** The wake that ends a yield is progress. */
  lemma {:induction false} YieldDrops(c: Config, s: State, rank: seq<nat>, v: nat, release: bool, deadline: nat)
    requires c.Valid() && FlowInv(c, s) && Ranked(c.topo, rank) && v < c.topo.Nodes()
    requires s.reactors[v].pc == Yielded(false)
    ensures FlowInv(c, Wake(c, s, v, release, deadline))
    ensures TotalWork(c, Wake(c, s, v, release, deadline)) < TotalWork(c, s)
  {
    WakeFlow(c, s, v, release, deadline);
    WithinFired(c, s, rank, v);
    var s' := Wake(c, s, v, release, deadline);
    assert NodeInv(c, s, v);
    assert Fired(c, s') == Fired(c, s);
    TotalDrops(c, s, s', v, v);
  }

  /** One of `left` pending jobs moves from `pc` to a later `pc'`. */
  lemma {:induction false} MoveWork(c: Config, v: nat, pc: Pc, pc': Pc, left: int)
    requires v < |c.topo.ins| && v < |c.topo.outs| && left >= 1 && StepsLeft(c, v, pc') < StepsLeft(c, v, pc)
    ensures JobsWork(c, v, pc', left) < JobsWork(c, v, pc, left)
  {
  }

  /** Reactor `v` moves on and possibly ends the sleep of `w`. */
  lemma {:induction false} MoveDrops(c: Config, s: State, s': State, v: nat, w: nat)
    requires c.Valid() && Shape(c, s) && Shape(c, s') && v < c.topo.Nodes() && w < c.topo.Nodes() && v != w
    requires s'.dag == s.dag && Fired(c, s') == Fired(c, s)
    requires forall u :: 0 <= u < |s.reactors| && u != v && u != w ==> s'.reactors[u] == s.reactors[u]
    requires s'.reactors[w].pc == s.reactors[w].pc
    requires Fin(s, v) < Fired(c, s) && StepsLeft(c, v, s'.reactors[v].pc) < StepsLeft(c, v, s.reactors[v].pc)
    requires !s.reactors[v].asleep
    ensures TotalWork(c, s') < TotalWork(c, s)
  {
    MoveWork(c, v, s.reactors[v].pc, s'.reactors[v].pc, Fired(c, s) - Fin(s, v));
    TotalDrops(c, s, s', v, w);
  }

  /** Reactor `v` falls asleep. */
  lemma {:induction false} ParkDrops(c: Config, s: State, s': State, v: nat)
    requires c.Valid() && Shape(c, s) && Shape(c, s') && v < c.topo.Nodes() && !s.reactors[v].asleep
    requires s'.dag == s.dag && s'.reactors == s.reactors[v := s.reactors[v].(asleep := true)]
    ensures TotalWork(c, s') < TotalWork(c, s)
  {
    TotalDrops(c, s, s', v, v);
  }

  lemma {:induction false} RecvUses(c: Config, s: State, t: State, v: nat, i: nat, e: nat)
    requires Receiving(c, s, v, i, e) && Received(c, s, t, e) && Shape(c, t)
    requires Active(t.reactors[v].pc) ==> Fin(t, v) < Fired(c, t)
    ensures TotalWork(c, t) < TotalWork(c, s)
  {
    assert c.topo.LinkAt(e);
    if s.inners[e].queue == [] {
      ParkDrops(c, s, t, v);
    } else {
      assert Fired(c, t) == Fired(c, s);
      MoveDrops(c, s, t, v, c.topo.links[e].src);
    }
  }

  lemma {:induction false} RecvDrops(c: Config, s: State, rank: seq<nat>, v: nat, i: nat)
    requires c.Valid() && FlowInv(c, s) && Ranked(c.topo, rank) && v < c.topo.Nodes() && Ready(s, v)
    requires s.reactors[v].pc == Recv(i) && i < |c.topo.ins[v]|
    ensures FlowInv(c, Advance(c, s, v)) && TotalWork(c, Advance(c, s, v)) < TotalWork(c, s)
  {
    RecvFlow(c, s, v, i);
    WithinFired(c, Advance(c, s, v), rank, v);
    RecvUses(c, s, Advance(c, s, v), v, i, c.topo.ins[v][i]);
  }

  lemma {:induction false} SendUses(c: Config, s: State, t: State, v: nat, i: nat, e: nat)
    requires Sending(c, s, v, i, e) && SentOver(c, s, t, e) && Shape(c, t)
    requires Fin(s, v) < Fired(c, s)
    ensures TotalWork(c, t) < TotalWork(c, s)
  {
    assert c.topo.LinkAt(e);
    if |s.inners[e].queue| == c.q {
      ParkDrops(c, s, t, v);
    } else {
      assert Fired(c, t) == Fired(c, s);
      MoveDrops(c, s, t, v, c.topo.links[e].dst);
    }
  }

  lemma {:induction false} SendDrops(c: Config, s: State, rank: seq<nat>, v: nat, i: nat)
    requires c.Valid() && FlowInv(c, s) && Ranked(c.topo, rank) && v < c.topo.Nodes() && Ready(s, v)
    requires s.reactors[v].pc == Send(i) && i < |c.topo.outs[v]|
    ensures FlowInv(c, Advance(c, s, v)) && TotalWork(c, Advance(c, s, v)) < TotalWork(c, s)
  {
    SendFlow(c, s, v, i);
    WithinFired(c, s, rank, v);
    SendUses(c, s, Advance(c, s, v), v, i, c.topo.outs[v][i]);
  }

  lemma {:induction false} FinishDrops(c: Config, s: State, rank: seq<nat>, v: nat)
    requires c.Valid() && FlowInv(c, s) && Ranked(c.topo, rank) && v < c.topo.Nodes() && Ready(s, v)
    requires s.reactors[v].pc == Send(|c.topo.outs[v]|)
    ensures FlowInv(c, Advance(c, s, v)) && TotalWork(c, Advance(c, s, v)) < TotalWork(c, s)
  {
    FinishFlow(c, s, v);
    WithinFired(c, s, rank, v);
    var s' := Advance(c, s, v);
    assert s' == StepFinish(c, s, v);
    assert Fired(c, s') == Fired(c, s);
    FinishWork(c, v, Fired(c, s) - Fin(s, v));
    TotalDrops(c, s, s', v, v);
  }

  /** Every step of a reactor is progress. */
  lemma {:induction false} AdvanceDrops(c: Config, s: State, rank: seq<nat>, v: nat)
    requires c.Valid() && FlowInv(c, s) && Ranked(c.topo, rank) && v < c.topo.Nodes() && Ready(s, v)
    ensures FlowInv(c, Advance(c, s, v)) && TotalWork(c, Advance(c, s, v)) < TotalWork(c, s)
  {
    assert NodeInv(c, s, v);
    var pc := s.reactors[v].pc;
    if pc.Recv? && pc.i < |c.topo.ins[v]| {
      RecvDrops(c, s, rank, v, pc.i);
    } else if pc.Send? && pc.i < |c.topo.outs[v]| {
      SendDrops(c, s, rank, v, pc.i);
    } else if pc.Send? {
      FinishDrops(c, s, rank, v);
    } else {
      AdvanceFlow(c, s, v);
      AdvanceDag(c, s, v);
      WithinFired(c, s, rank, v);
      var s' := Advance(c, s, v);
      assert NodeInv(c, s', v);
      assert Fired(c, s') == Fired(c, s);
      MoveWork(c, v, pc, s'.reactors[v].pc, Fired(c, s) - Fin(s, v));
      assert s'.reactors == s.reactors[v := s'.reactors[v]];
      TotalDrops(c, s, s', v, v);
    }
  }
}
