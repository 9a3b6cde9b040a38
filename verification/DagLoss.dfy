/**
 What can go wrong while a DAG without a periodic source is being spawned: messages are lost, the source
 runs away from the others, and all of them can come to a halt.
 */
module DagLoss {
  import opened DagRun
  import opened DagInvariant
  import opened DagProgress
  import opened DagFree
  import opened DagSpawn

  /** From `s` to `t` only node `v` has moved its program counter, and no node has finished a job. */
  ghost predicate Steady(s: State, t: State, v: nat, pc: Pc) {
    && |t.reactors| == |s.reactors| && v < |t.reactors| && t.reactors[v].pc == pc
    && (forall w :: 0 <= w < |s.reactors| && w != v ==> t.reactors[w].pc == s.reactors[w].pc)
    && |t.dag.infos| == |s.dag.infos|
    && (forall w :: 0 <= w < |s.dag.infos| ==> Fin(t, w) == Fin(s, w))
  }

  /** A run that has lost nothing and in which `v` is spawned. */
  ghost predicate Going(c: Config, order: seq<nat>, bs: seq<Boot>, es: seq<BootEvent>, v: nat)
    requires c.Valid()
  {
    && Order(c, order) && BootRun(c, order, bs, es) && bs[|es|].lost == 0 && bs[|es|].count <= |order|
    && v < c.topo.Nodes() && Spawned(order, bs[|es|], v)
  }

  /** One step of a spawned reactor that loses nothing. */
  lemma {:induction false} Go(c: Config, order: seq<nat>, bs: seq<Boot>, es: seq<BootEvent>, ev: Event, t: State)
    returns (bs': seq<Boot>, es': seq<BootEvent>)
    requires Sound(c) && Going(c, order, bs, es, Actor(c, ev)) && Shape(c, bs[|es|].inner)
    requires ev.AdvanceEvent? ==> !Loses(c, order, bs[|es|], ev.v)
    requires Next(c, bs[|es|].inner, ev, t)
    ensures Going(c, order, bs', es', Actor(c, ev)) && bs'[|es'|] == bs[|es|].(inner := t) && FlowInv(c, t)
  {
    BootExtend(c, order, bs, es, Move(ev), bs[|es|].(inner := t));
    bs', es' := bs + [bs[|es|].(inner := t)], es + [Move(ev)];
    LosslessInv(c, order, bs', es', |es'|);
  }

  /** Node `u` has sent the job that `v` is about to receive. */
  ghost predicate HasSent(c: Config, s: State, u: nat, v: nat)
    requires c.Valid() && Shape(c, s) && v < c.topo.Nodes()
  {
    u < c.topo.Nodes() && u != v && s.reactors[u].pc == Send(|c.topo.outs[u]|) && Fin(s, u) == Fin(s, v)
  }

  ghost predicate InputsSent(c: Config, s: State, v: nat)
    requires c.Valid() && Shape(c, s) && v < c.topo.Nodes()
  {
    forall i :: 0 <= i < |c.topo.ins[v]| ==> InputSent(c, s, v, i)
  }

  ghost predicate InputSent(c: Config, s: State, v: nat, i: nat)
    requires c.Valid() && Shape(c, s) && v < c.topo.Nodes() && i < |c.topo.ins[v]|
  {
    c.topo.ins[v][i] < |c.topo.links| && HasSent(c, s, c.topo.links[c.topo.ins[v][i]].src, v)
  }

  lemma {:induction false} InputsStaySent(c: Config, s: State, t: State, v: nat, pc: Pc)
    requires c.Valid() && Shape(c, s) && Shape(c, t) && v < c.topo.Nodes() && InputsSent(c, s, v) && Steady(s, t, v, pc)
    ensures InputsSent(c, t, v)
  {
    forall i | 0 <= i < |c.topo.ins[v]| ensures InputSent(c, t, v, i) {
      assert InputSent(c, s, v, i);
    }
  }

  lemma {:induction false} TakeOne(c: Config, s: State, v: nat, i: nat)
    requires c.Valid() && FlowInv(c, s) && v < c.topo.Nodes() && InputsSent(c, s, v)
    requires s.reactors[v].pc == Recv(i) && i < |c.topo.ins[v]|
    ensures Ready(s, v) && FlowInv(c, Advance(c, s, v)) && Steady(s, Advance(c, s, v), v, Recv(i + 1))
    ensures InputsSent(c, Advance(c, s, v), v)
  {
    assert InputSent(c, s, v, i) && c.topo.InputAt(v, i) && c.topo.LinkAt(c.topo.ins[v][i]);
    CanTake(c, s, v, i);
    AdvanceFlow(c, s, v);
    InputsStaySent(c, s, Advance(c, s, v), v, Recv(i + 1));
  }

  lemma {:induction false} SteadyTrans(s: State, t: State, u: State, v: nat, pc: Pc, pc': Pc)
    requires Steady(s, t, v, pc) && Steady(t, u, v, pc')
    ensures Steady(s, u, v, pc')
  {
    assert forall w :: 0 <= w < |s.dag.infos| ==> Fin(u, w) == Fin(t, w) == Fin(s, w);
  }

  /** A node all of whose inputs have been sent receives them all. */
  lemma {:induction false} TakeAll(c: Config, order: seq<nat>, bs: seq<Boot>, es: seq<BootEvent>, v: nat, i: nat)
    returns (bs': seq<Boot>, es': seq<BootEvent>)
    requires Sound(c) && Going(c, order, bs, es, v) && FlowInv(c, bs[|es|].inner)
    requires InputsSent(c, bs[|es|].inner, v)
    requires bs[|es|].inner.reactors[v].pc == Recv(i) && i <= |c.topo.ins[v]|
    ensures Going(c, order, bs', es', v) && FlowInv(c, bs'[|es'|].inner) && bs'[|es'|].count == bs[|es|].count
    ensures Steady(bs[|es|].inner, bs'[|es'|].inner, v, Recv(|c.topo.ins[v]|))
    decreases |c.topo.ins[v]| - i
  {
    var s := bs[|es|].inner;
    if i == |c.topo.ins[v]| {
      bs', es' := bs, es;
    } else {
      TakeOne(c, s, v, i);
      var t := Advance(c, s, v);
      bs', es' := Go(c, order, bs, es, AdvanceEvent(v), t);
      bs', es' := TakeAll(c, order, bs', es', v, i + 1);
      SteadyTrans(s, t, bs'[|es'|].inner, v, Recv(i + 1), Recv(|c.topo.ins[v]|));
    }
  }

  /** Past its last receive a node gets to its first send, through a yield if its deadline is stale. */
  lemma {:induction false} Compute(c: Config, order: seq<nat>, bs: seq<Boot>, es: seq<BootEvent>, v: nat)
    returns (bs': seq<Boot>, es': seq<BootEvent>)
    requires Sound(c) && Going(c, order, bs, es, v) && FlowInv(c, bs[|es|].inner)
    requires v != c.topo.source ==> bs[|es|].inner.reactors[v].pc == Recv(|c.topo.ins[v]|)
    requires v == c.topo.source ==> c.free && bs[|es|].inner.reactors[v].pc == AwaitTick(false)
    ensures Going(c, order, bs', es', v) && FlowInv(c, bs'[|es'|].inner) && bs'[|es'|].count == bs[|es|].count
    ensures Steady(bs[|es|].inner, bs'[|es'|].inner, v, Send(0))
  {
    var s := bs[|es|].inner;
    assert NodeInv(c, s, v);
    if v == c.topo.source {
      bs', es' := Go(c, order, bs, es, BeginEvent, Begin(c, s));
    } else {
      bs', es' := Go(c, order, bs, es, AdvanceEvent(v), Advance(c, s, v));
    }
    bs', es' := Execute(c, order, bs', es', v);
  }

  lemma {:induction false} Execute(c: Config, order: seq<nat>, bs: seq<Boot>, es: seq<BootEvent>, v: nat)
    returns (bs': seq<Boot>, es': seq<BootEvent>)
    requires Sound(c) && Going(c, order, bs, es, v) && FlowInv(c, bs[|es|].inner)
    requires bs[|es|].inner.reactors[v].pc == Exec || bs[|es|].inner.reactors[v].pc == Yielded(false)
    ensures Going(c, order, bs', es', v) && FlowInv(c, bs'[|es'|].inner) && bs'[|es'|].count == bs[|es|].count
    ensures Steady(bs[|es|].inner, bs'[|es'|].inner, v, Send(0))
  {
    bs', es' := bs, es;
    if bs[|es|].inner.reactors[v].pc == Yielded(false) {
      bs', es' := ComeBack(c, order, bs, es, v);
    }
    assert NodeInv(c, bs'[|es'|].inner, v);
    var t := Advance(c, bs'[|es'|].inner, v);
    var mid := bs'[|es'|].inner;
    bs', es' := Go(c, order, bs', es', AdvanceEvent(v), t);
    if bs[|es|].inner.reactors[v].pc == Yielded(false) {
      SteadyTrans(bs[|es|].inner, mid, t, v, Exec, Send(0));
    }
  }

  /** A yield comes back. */
  lemma {:induction false} ComeBack(c: Config, order: seq<nat>, bs: seq<Boot>, es: seq<BootEvent>, v: nat)
    returns (bs': seq<Boot>, es': seq<BootEvent>)
    requires Sound(c) && Going(c, order, bs, es, v) && FlowInv(c, bs[|es|].inner)
    requires bs[|es|].inner.reactors[v].pc == Yielded(false)
    ensures Going(c, order, bs', es', v) && FlowInv(c, bs'[|es'|].inner) && bs'[|es'|].count == bs[|es|].count
    ensures Steady(bs[|es|].inner, bs'[|es'|].inner, v, Exec)
  {
    bs', es' := Go(c, order, bs, es, WakeEvent(v, true, 0), Wake(c, bs[|es|].inner, v, true, 0));
    assert NodeInv(c, bs'[|es'|].inner, v);
    bs', es' := Go(c, order, bs', es', AdvanceEvent(v), Advance(c, bs'[|es'|].inner, v));
  }

  /** The receiver of output `i` of `v` has not yet taken anything for the job that `v` sends. */
  ghost predicate OutputWaits(c: Config, s: State, v: nat, i: nat)
    requires c.Valid() && Shape(c, s) && v < c.topo.Nodes() && i < |c.topo.outs[v]|
  {
    && c.topo.outs[v][i] < |c.topo.links|
    && var w := c.topo.links[c.topo.outs[v][i]].dst;
      w < c.topo.Nodes() && w != v && Fin(s, w) == Fin(s, v) && s.reactors[w].pc == Recv(0)
  }

  ghost predicate OutputsWait(c: Config, s: State, v: nat)
    requires c.Valid() && Shape(c, s) && v < c.topo.Nodes()
  {
    forall i :: 0 <= i < |c.topo.outs[v]| ==> OutputWaits(c, s, v, i)
  }

  /** The receiver of output `i` of `v` is spawned. */
  ghost predicate OutputSpawned(c: Config, order: seq<nat>, b: Boot, v: nat, i: nat)
    requires c.Valid() && v < c.topo.Nodes() && i < |c.topo.outs[v]| && b.count <= |order|
  {
    c.topo.outs[v][i] < |c.topo.links| && Spawned(order, b, c.topo.links[c.topo.outs[v][i]].dst)
  }

  lemma {:induction false} PushOne(c: Config, s: State, v: nat, i: nat)
    requires c.Valid() && FlowInv(c, s) && v < c.topo.Nodes() && OutputsWait(c, s, v)
    requires s.reactors[v].pc == Send(i) && i < |c.topo.outs[v]|
    ensures Ready(s, v) && FlowInv(c, Advance(c, s, v)) && Steady(s, Advance(c, s, v), v, Send(i + 1))
    ensures OutputsWait(c, Advance(c, s, v), v)
  {
    assert OutputWaits(c, s, v, i) && c.topo.OutputAt(v, i);
    PushStep(c, s, v, i, Fin(s, v));
    forall j | 0 <= j < |c.topo.outs[v]| ensures OutputWaits(c, Advance(c, s, v), v, j) {
      assert OutputWaits(c, s, v, j);
    }
  }

  /** Node `v` is in the middle of its sends and has lost none of them. */
  ghost predicate AtSend(c: Config, order: seq<nat>, bs: seq<Boot>, es: seq<BootEvent>, v: nat, i: nat)
    requires c.Valid()
  {
    && Going(c, order, bs, es, v) && FlowInv(c, bs[|es|].inner) && OutputsWait(c, bs[|es|].inner, v)
    && i <= |c.topo.outs[v]| && bs[|es|].inner.reactors[v].pc == Send(i)
    && forall j :: 0 <= j < i ==> OutputSpawned(c, order, bs[|es|], v, j)
  }

  lemma {:induction false} LoseOne(c: Config, order: seq<nat>, bs: seq<Boot>, es: seq<BootEvent>, v: nat, i: nat)
    returns (bs': seq<Boot>, es': seq<BootEvent>)
    requires Sound(c) && AtSend(c, order, bs, es, v, i) && Loses(c, order, bs[|es|], v)
    ensures BootRun(c, order, bs', es') && bs'[|es'|].lost > 0
  {
    var b := bs[|es|];
    PushOne(c, b.inner, v, i);
    var lost := b.(inner := SetPc(b.inner, v, Send(i + 1)), lost := b.lost + 1);
    BootExtend(c, order, bs, es, Move(AdvanceEvent(v)), lost);
    bs', es' := bs + [lost], es + [Move(AdvanceEvent(v))];
  }

  lemma {:induction false} SendOne(c: Config, order: seq<nat>, bs: seq<Boot>, es: seq<BootEvent>, v: nat, i: nat)
    returns (bs': seq<Boot>, es': seq<BootEvent>)
    requires Sound(c) && AtSend(c, order, bs, es, v, i) && i < |c.topo.outs[v]| && !Loses(c, order, bs[|es|], v)
    ensures AtSend(c, order, bs', es', v, i + 1) && bs'[|es'|].count == bs[|es|].count
    ensures Steady(bs[|es|].inner, bs'[|es'|].inner, v, Send(i + 1))
  {
    var b := bs[|es|];
    PushOne(c, b.inner, v, i);
    bs', es' := Go(c, order, bs, es, AdvanceEvent(v), Advance(c, b.inner, v));
    OneMoreSpawned(c, order, b, bs'[|es'|], v, i);
  }

  lemma {:induction false} OneMoreSpawned(c: Config, order: seq<nat>, b: Boot, b': Boot, v: nat, i: nat)
    requires c.Valid() && Shape(c, b.inner) && v < c.topo.Nodes() && i < |c.topo.outs[v]| && b.count <= |order|
    requires b'.count == b.count && b.inner.reactors[v].pc == Send(i) && !Loses(c, order, b, v)
    requires forall j :: 0 <= j < i ==> OutputSpawned(c, order, b, v, j)
    ensures forall j :: 0 <= j < i + 1 ==> OutputSpawned(c, order, b', v, j)
  {
    assert c.topo.OutputAt(v, i);
    forall j | 0 <= j < i + 1 ensures OutputSpawned(c, order, b', v, j) {
      assert j < i ==> OutputSpawned(c, order, b, v, j);
    }
  }

  /** A node about to send gets through its sends, unless it loses a message. */
  lemma {:induction false} SendAll(c: Config, order: seq<nat>, bs: seq<Boot>, es: seq<BootEvent>, v: nat, i: nat)
    returns (bs': seq<Boot>, es': seq<BootEvent>)
    requires Sound(c) && AtSend(c, order, bs, es, v, i)
    ensures BootRun(c, order, bs', es')
    ensures bs'[|es'|].lost == 0 ==>
      && AtSend(c, order, bs', es', v, |c.topo.outs[v]|) && bs'[|es'|].count == bs[|es|].count
      && Steady(bs[|es|].inner, bs'[|es'|].inner, v, Send(|c.topo.outs[v]|))
    decreases |c.topo.outs[v]| - i
  {
    if i == |c.topo.outs[v]| {
      bs', es' := bs, es;
    } else if Loses(c, order, bs[|es|], v) {
      bs', es' := LoseOne(c, order, bs, es, v, i);
    } else {
      var bs1, es1 := SendOne(c, order, bs, es, v, i);
      bs', es' := SendAll(c, order, bs1, es1, v, i + 1);
      if bs'[|es'|].lost == 0 {
        SteadyTrans(bs[|es|].inner, bs1[|es1|].inner, bs'[|es'|].inner, v, Send(i + 1), Send(|c.topo.outs[v]|));
      }
    }
  }

  /** Nodes are dealt with by rank, and by number among equals: those up to `r` and `j` are done. */
  predicate Passed(rank: seq<nat>, r: nat, j: nat, v: nat)
    requires v < |rank|
  {
    rank[v] < r || (rank[v] == r && v < j)
  }

  /** The nodes that are done have sent job 0 to spawned reactors only; the others have not begun. */
  ghost predicate WaveNode(c: Config, order: seq<nat>, rank: seq<nat>, b: Boot, r: nat, j: nat, v: nat)
    requires c.Valid() && Shape(c, b.inner) && |rank| == c.topo.Nodes() && v < c.topo.Nodes() && b.count <= |order|
  {
    && Fin(b.inner, v) == 0
    && if Passed(rank, r, j, v) then
         && b.inner.reactors[v].pc == Send(|c.topo.outs[v]|)
         && forall i :: 0 <= i < |c.topo.outs[v]| ==> OutputSpawned(c, order, b, v, i)
       else b.inner.reactors[v].pc == if v == c.topo.source then AwaitTick(false) else Recv(0)
  }

  /** All but the last reactor are spawned, and job 0 has got as far as `r` and `j`. */
  ghost predicate Wave(
      c: Config, order: seq<nat>, rank: seq<nat>, bs: seq<Boot>, es: seq<BootEvent>, r: nat, j: nat)
    requires Sound(c)
  {
    && Order(c, order) && !SourceLast(c, order) && Ranked(c.topo, rank) && BootRun(c, order, bs, es)
    && bs[|es|].lost == 0 && bs[|es|].count == |order| - 1 && FlowInv(c, bs[|es|].inner)
    && r <= rank[order[|order| - 1]]
    && forall v :: 0 <= v < c.topo.Nodes() ==> WaveNode(c, order, rank, bs[|es|], r, j, v)
  }

  lemma {:induction false} WaveInputs(
      c: Config, order: seq<nat>, rank: seq<nat>, bs: seq<Boot>, es: seq<BootEvent>, r: nat, v: nat)
    requires Sound(c) && Wave(c, order, rank, bs, es, r, v) && v < c.topo.Nodes() && rank[v] == r
    ensures InputsSent(c, bs[|es|].inner, v)
  {
    var s := bs[|es|].inner;
    assert WaveNode(c, order, rank, bs[|es|], r, v, v);
    forall i | 0 <= i < |c.topo.ins[v]| ensures InputSent(c, s, v, i) {
      assert c.topo.InputAt(v, i) && c.topo.LinkAt(c.topo.ins[v][i]);
      assert WaveNode(c, order, rank, bs[|es|], r, v, c.topo.links[c.topo.ins[v][i]].src);
    }
  }

  lemma {:induction false} WaveOutputs(
      c: Config, order: seq<nat>, rank: seq<nat>, bs: seq<Boot>, es: seq<BootEvent>, r: nat, v: nat)
    requires Sound(c) && Wave(c, order, rank, bs, es, r, v) && v < c.topo.Nodes() && rank[v] == r
    ensures OutputsWait(c, bs[|es|].inner, v)
  {
    var s := bs[|es|].inner;
    assert WaveNode(c, order, rank, bs[|es|], r, v, v);
    forall i | 0 <= i < |c.topo.outs[v]| ensures OutputWaits(c, s, v, i) {
      assert c.topo.OutputAt(v, i) && c.topo.LinkAt(c.topo.outs[v][i]);
      var w := c.topo.links[c.topo.outs[v][i]].dst;
      assert WaveNode(c, order, rank, bs[|es|], r, v, w) && c.topo.ins[w] != [];
    }
  }

  lemma {:induction false} OutputsStillWait(c: Config, s: State, t: State, v: nat, pc: Pc)
    requires c.Valid() && Shape(c, s) && Shape(c, t) && v < c.topo.Nodes()
    requires OutputsWait(c, s, v) && Steady(s, t, v, pc)
    ensures OutputsWait(c, t, v)
  {
    forall i | 0 <= i < |c.topo.outs[v]| ensures OutputWaits(c, t, v, i) {
      assert OutputWaits(c, s, v, i);
    }
  }

  /** All but the last reactor of the order are spawned. */
  lemma {:induction false} AllButLast(c: Config, order: seq<nat>, b: Boot, v: nat)
    requires c.Valid() && Order(c, order) && b.count == |order| - 1 && v < c.topo.Nodes()
    ensures Spawned(order, b, v) <==> v != order[|order| - 1]
  {
    assert v in order;
    var i :| 0 <= i < |order| && order[i] == v;
    assert i < b.count ==> order[..b.count][i] == v;
    assert forall k :: 0 <= k < b.count ==> order[..b.count][k] == order[k];
  }

  /** Node `v`, whose turn it is, receives, computes and sends job 0, unless it loses a message. */
  lemma {:induction false} WaveRun(
      c: Config, order: seq<nat>, rank: seq<nat>, bs: seq<Boot>, es: seq<BootEvent>, r: nat, v: nat)
    returns (bs': seq<Boot>, es': seq<BootEvent>)
    requires Sound(c) && Wave(c, order, rank, bs, es, r, v) && v < c.topo.Nodes() && rank[v] == r
    requires v != order[|order| - 1]
    ensures BootRun(c, order, bs', es')
    ensures bs'[|es'|].lost == 0 ==>
      && AtSend(c, order, bs', es', v, |c.topo.outs[v]|) && bs'[|es'|].count == bs[|es|].count
      && Steady(bs[|es|].inner, bs'[|es'|].inner, v, Send(|c.topo.outs[v]|))
  {
    var s := bs[|es|].inner;
    assert WaveNode(c, order, rank, bs[|es|], r, v, v);
    AllButLast(c, order, bs[|es|], v);
    WaveInputs(c, order, rank, bs, es, r, v);
    WaveOutputs(c, order, rank, bs, es, r, v);
    bs', es' := bs, es;
    if v != c.topo.source {
      bs', es' := TakeAll(c, order, bs, es, v, 0);
    }
    var s1 := bs'[|es'|].inner;
    bs', es' := Compute(c, order, bs', es', v);
    var s2 := bs'[|es'|].inner;
    if v != c.topo.source {
      SteadyTrans(s, s1, s2, v, Recv(|c.topo.ins[v]|), Send(0));
    }
    OutputsStillWait(c, s, s2, v, Send(0));
    bs', es' := SendAll(c, order, bs', es', v, 0);
    if bs'[|es'|].lost == 0 {
      SteadyTrans(s, s2, bs'[|es'|].inner, v, Send(0), Send(|c.topo.outs[v]|));
    }
  }

  lemma {:induction false} WaveAdvances(
      c: Config, order: seq<nat>, rank: seq<nat>, b: Boot, b': Boot, r: nat, v: nat, w: nat)
    requires c.Valid() && Shape(c, b.inner) && Shape(c, b'.inner) && |rank| == c.topo.Nodes() && b.count <= |order|
    requires v < c.topo.Nodes() && w < c.topo.Nodes() && b'.count == b.count && rank[v] == r
    requires Steady(b.inner, b'.inner, v, Send(|c.topo.outs[v]|)) && WaveNode(c, order, rank, b, r, v, w)
    requires forall i :: 0 <= i < |c.topo.outs[v]| ==> OutputSpawned(c, order, b', v, i)
    ensures WaveNode(c, order, rank, b', r, v + 1, w)
  {
    if w != v && Passed(rank, r, v, w) {
      forall i | 0 <= i < |c.topo.outs[w]| ensures OutputSpawned(c, order, b', w, i) {
        assert OutputSpawned(c, order, b, w, i);
      }
    }
  }

  /** A publisher of the last reactor would have had to send to it. */
  lemma {:induction false} WaveBreaks(
      c: Config, order: seq<nat>, rank: seq<nat>, bs: seq<Boot>, es: seq<BootEvent>, j: nat)
    requires Sound(c) && Order(c, order) && !SourceLast(c, order) && |rank| == c.topo.Nodes()
    ensures !Wave(c, order, rank, bs, es, rank[order[|order| - 1]], j)
  {
    var m := order[|order| - 1];
    if Wave(c, order, rank, bs, es, rank[m], j) {
      assert c.topo.InputAt(m, 0);
      var e := c.topo.ins[m][0];
      assert c.topo.LinkAt(e);
      var u := c.topo.links[e].src;
      assert WaveNode(c, order, rank, bs[|es|], rank[m], j, u);
      assert OutputSpawned(c, order, bs[|es|], u, c.topo.links[e].outPos);
      AllButLast(c, order, bs[|es|], m);
    }
  }

  /** The wave goes on until it loses a message. */
  lemma {:induction false} WaveGoes(
      c: Config, order: seq<nat>, rank: seq<nat>, bs: seq<Boot>, es: seq<BootEvent>, r: nat, j: nat)
    returns (bs': seq<Boot>, es': seq<BootEvent>)
    requires Sound(c) && Wave(c, order, rank, bs, es, r, j) && j <= c.topo.Nodes()
    ensures BootRun(c, order, bs', es') && bs'[|es'|].lost > 0
    decreases rank[order[|order| - 1]] - r, c.topo.Nodes() - j
  {
    var m := order[|order| - 1];
    WaveBreaks(c, order, rank, bs, es, j);
    if j == c.topo.Nodes() {
      NextRank(c, order, rank, bs, es, r);
      bs', es' := WaveGoes(c, order, rank, bs, es, r + 1, 0);
    } else if rank[j] == r {
      bs', es' := WaveRun(c, order, rank, bs, es, r, j);
      if bs'[|es'|].lost == 0 {
        WaveHasRun(c, order, rank, bs, es, bs', es', r, j);
        bs', es' := WaveGoes(c, order, rank, bs', es', r, j + 1);
      }
    } else {
      SkipNode(c, order, rank, bs, es, r, j);
      bs', es' := WaveGoes(c, order, rank, bs, es, r, j + 1);
    }
  }

  lemma {:induction false} SameWave(
      c: Config, order: seq<nat>, rank: seq<nat>, bs: seq<Boot>, es: seq<BootEvent>, r: nat, j: nat, r': nat, j': nat)
    requires Sound(c) && Wave(c, order, rank, bs, es, r, j) && r' <= rank[order[|order| - 1]]
    requires forall v :: 0 <= v < |rank| ==> (Passed(rank, r, j, v) <==> Passed(rank, r', j', v))
    ensures Wave(c, order, rank, bs, es, r', j')
  {
    forall v | 0 <= v < c.topo.Nodes() ensures WaveNode(c, order, rank, bs[|es|], r', j', v) {
      assert WaveNode(c, order, rank, bs[|es|], r, j, v);
    }
  }

  lemma {:induction false} NextRank(
      c: Config, order: seq<nat>, rank: seq<nat>, bs: seq<Boot>, es: seq<BootEvent>, r: nat)
    requires Sound(c) && Wave(c, order, rank, bs, es, r, c.topo.Nodes()) && r < rank[order[|order| - 1]]
    ensures Wave(c, order, rank, bs, es, r + 1, 0)
  {
    SameWave(c, order, rank, bs, es, r, c.topo.Nodes(), r + 1, 0);
  }

  lemma {:induction false} SkipNode(
      c: Config, order: seq<nat>, rank: seq<nat>, bs: seq<Boot>, es: seq<BootEvent>, r: nat, j: nat)
    requires Sound(c) && Wave(c, order, rank, bs, es, r, j) && j < c.topo.Nodes() && rank[j] != r
    ensures Wave(c, order, rank, bs, es, r, j + 1)
  {
    SameWave(c, order, rank, bs, es, r, j, r, j + 1);
  }

  lemma {:induction false} WaveHasRun(
      c: Config, order: seq<nat>, rank: seq<nat>, bs: seq<Boot>, es: seq<BootEvent>,
      bs': seq<Boot>, es': seq<BootEvent>, r: nat, v: nat)
    requires Sound(c) && Wave(c, order, rank, bs, es, r, v) && v < c.topo.Nodes() && rank[v] == r
    requires AtSend(c, order, bs', es', v, |c.topo.outs[v]|) && bs'[|es'|].count == bs[|es|].count
    requires Steady(bs[|es|].inner, bs'[|es'|].inner, v, Send(|c.topo.outs[v]|))
    ensures Wave(c, order, rank, bs', es', r, v + 1)
  {
    var j := v + 1;
    forall w | 0 <= w < c.topo.Nodes() ensures WaveNode(c, order, rank, bs'[|es'|], r, j, w) {
      assert WaveNode(c, order, rank, bs[|es|], r, v, w);
      WaveAdvances(c, order, rank, bs[|es|], bs'[|es'|], r, v, w);
    }
  }

  /** If the source is not the last reactor to be spawned, some run loses a message. */
  lemma {:induction false} LossyRun(c: Config, order: seq<nat>) returns (bs: seq<Boot>, es: seq<BootEvent>)
    requires Sound(c) && Order(c, order) && !SourceLast(c, order)
    ensures BootRun(c, order, bs, es) && bs[|es|].lost > 0
  {
    var rank :| Ranked(c.topo, rank);
    bs, es := SpawnFirst(c, order, |order| - 1);
    InitFlow(c);
    assert Wave(c, order, rank, bs, es, 0, 0);
    bs, es := WaveGoes(c, order, rank, bs, es, 0, 0);
  }

  /** No run loses a message. */
  ghost predicate NothingLost(c: Config, order: seq<nat>)
    requires c.Valid()
  {
    forall bs: seq<Boot>, es: seq<BootEvent>, k: nat :: BootRun(c, order, bs, es) && k < |bs| ==> bs[k].lost == 0
  }

  /** Nothing is ever lost exactly if the source is the last reactor to be spawned. */
  lemma {:induction false} NothingLostExact(c: Config, order: seq<nat>)
    requires Sound(c) && Order(c, order)
    ensures NothingLost(c, order) <==> SourceLast(c, order)
  {
    if SourceLast(c, order) {
      forall bs: seq<Boot>, es: seq<BootEvent>, k: nat | BootRun(c, order, bs, es) && k < |bs| ensures bs[k].lost == 0 {
        SourceLastOrderly(c, order, bs, es, k);
      }
    } else {
      var bs, es := LossyRun(c, order);
      assert bs[|es|].lost > 0;
    }
  }
}
