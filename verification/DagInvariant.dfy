/** What every step of a DAG run keeps. */
module DagInvariant {
  import opened Common
  import opened Subscriber
  import opened DagRun

  /** Messages put on an output at position `pos` by a node that finished `fin` jobs. */
  function SentOn(pc: Pc, fin: nat, pos: nat): (r: nat) {
    if pc.Send? && pc.i > pos then fin + 1 else fin
  }

  /** Messages taken from an input at position `pos` by a node that finished `fin` jobs. */
  function TakenFrom(pc: Pc, fin: nat, pos: nat): (r: nat) {
    if pc.AwaitTick? || (pc.Recv? && pc.i <= pos) then fin else fin + 1
  }

  function Fin(s: State, v: nat): (r: nat)
    requires v < |s.dag.infos|
  {
    s.dag.infos[v].numFinished
  }

  /**
   The queue of a link holds exactly the jobs sent and not yet taken, in order. A waker is
   parked on it exactly while the matching reactor sleeps there, and then the queue is
   empty (subscriber) or full (publisher).
   */
  ghost predicate LinkRel(
      q: nat, x: Inner<nat>, src: nat, dst: nat, taken: nat, sent: nat, subParked: bool, pubParked: bool)
  {
    && taken <= sent <= taken + q
    && x.queue == Tags(taken, sent)
    && !x.closed
    && x.wakerSubscriber == (if subParked then Some(dst) else None)
    && x.wakerPublishers == (if pubParked then [src] else [])
    && (subParked ==> taken == sent)
    && (pubParked ==> sent == taken + q)
  }

  predicate SubParked(x: Reactor, pos: nat) { x.asleep && x.pc == Recv(pos) }

  predicate PubParked(x: Reactor, pos: nat) { x.asleep && x.pc == Send(pos) }

  ghost predicate LinkInv(c: Config, s: State, e: nat)
    requires c.Valid() && Shape(c, s) && e < |c.topo.links|
  {
    assert c.topo.LinkAt(e);
    var l := c.topo.links[e];
    var p := s.reactors[l.src];
    var r := s.reactors[l.dst];
    LinkRel(c.q, s.inners[e], l.src, l.dst,
            TakenFrom(r.pc, Fin(s, l.dst), l.inPos), SentOn(p.pc, Fin(s, l.src), l.outPos),
            SubParked(r, l.inPos), PubParked(p, l.outPos))
  }

  /** A receive on a link: the oldest job is taken and a parked publisher is woken. */
  lemma {:induction false} RecvRel(q: nat, x: Inner<nat>, src: nat, dst: nat, taken: nat, sent: nat, pubParked: bool)
    requires q >= 1 && LinkRel(q, x, src, dst, taken, sent, false, pubParked)
    ensures |x.queue| <= q
    ensures var got := RecvOrRegisterWaker(q, x, dst);
      if taken == sent then
        got.data == None && got.woken == [] && LinkRel(q, got.inner, src, dst, taken, sent, true, false) && !pubParked
      else
        && got.data == Some(taken) && got.woken == (if pubParked then [src] else [])
        && LinkRel(q, got.inner, src, dst, taken + 1, sent, false, false)
  {
    if taken < sent {
      assert Tags(taken, sent)[1..] == Tags(taken + 1, sent);
    }
  }

  /** A send on a link: the job is appended and a parked subscriber is woken. */
  lemma {:induction false} SendRel(q: nat, x: Inner<nat>, src: nat, dst: nat, taken: nat, sent: nat, subParked: bool)
    requires q >= 1 && LinkRel(q, x, src, dst, taken, sent, subParked, false)
    ensures |x.queue| <= q
    ensures var put := SendOrRegisterWaker(q, true, x, sent, src);
      if sent == taken + q then
        && put.outcome == Parked && put.woken == [] && !subParked
        && LinkRel(q, put.inner, src, dst, taken, sent, false, true)
      else
        && put.outcome == Pushed && put.woken == (if subParked then [dst] else [])
        && LinkRel(q, put.inner, src, dst, taken, sent + 1, false, false)
  {
    assert Tags(taken, sent) + [sent] == Tags(taken, sent + 1);
  }

  /** A receive takes the first message's period index, and reports exactly the later ones that differ from it. */
  lemma {:induction false} ReceiveExact(c: Config, s: State, v: nat, i: nat)
    requires c.Valid() && Shape(c, s) && v < c.topo.Nodes() && i < |c.topo.ins[v]| && c.topo.InputAt(v, i)
    requires s.inners[c.topo.ins[v][i]].queue != [] && v !in s.inners[c.topo.ins[v][i]].wakerPublishers
    ensures
      var m, x, y := s.inners[c.topo.ins[v][i]].queue[0], s.reactors[v], StepRecv(c, s, v, i).reactors[v];
      && y.pc == Recv(i + 1) && y.asleep == x.asleep
      && y.tag == Some(if x.tag.Some? then x.tag.value else m)
      && (y.mismatch <==> x.mismatch || y.tag != Some(m))
  {
    var e := c.topo.ins[v][i];
    assert forall w :: w in RecvOrRegisterWaker(c.q, s.inners[e], v).woken ==> w in s.inners[e].wakerPublishers;
  }

  /** The program counter fits the node, and the period index is that of the current job. */
  ghost predicate NodeInv(c: Config, s: State, v: nat)
    requires c.Valid() && Shape(c, s) && v < c.topo.Nodes()
  {
    var x := s.reactors[v];
    && !x.mismatch
    && (v == c.topo.source ==> x.pc.AwaitTick? || x.pc.Exec? || x.pc.Send? || (c.free && x.pc.Yielded?))
    && (v != c.topo.source ==> !x.pc.AwaitTick?)
    && (x.pc.Recv? ==> x.pc.i <= |c.topo.ins[v]|)
    && (x.pc.Send? ==> x.pc.i <= |c.topo.outs[v]|)
    && (x.asleep ==> (x.pc.Recv? && x.pc.i < |c.topo.ins[v]|) || (x.pc.Send? && x.pc.i < |c.topo.outs[v]|))
    && x.tag == (if x.pc.AwaitTick? || x.pc == Recv(0) then None else Some(Fin(s, v)))
  }

  ghost predicate FlowInv(c: Config, s: State)
    requires c.Valid()
  {
    && Shape(c, s)
    && s.period == Fin(s, c.topo.source)
    && (forall v :: 0 <= v < c.topo.Nodes() ==> NodeInv(c, s, v))
    && (forall e :: 0 <= e < |c.topo.links| ==> LinkInv(c, s, e))
  }

  lemma {:induction false} InitFlow(c: Config)
    requires c.Valid()
    ensures FlowInv(c, Init(c))
  {
    var s := Init(c);
    forall e | 0 <= e < |c.topo.links| ensures LinkInv(c, s, e) {
      assert c.topo.LinkAt(e);
    }
  }

  /** A change of the bookkeeping that finishes no job changes nothing for nodes and links. */
  lemma {:induction false} BookkeepingFlow(c: Config, s: State, s': State)
    requires c.Valid() && FlowInv(c, s)
    requires s' == s.(dag := s'.dag, history := s'.history) && |s'.dag.infos| == |s.dag.infos|
    requires forall w :: 0 <= w < |s.dag.infos| ==> s'.dag.infos[w].numFinished == s.dag.infos[w].numFinished
    ensures FlowInv(c, s')
  {
    forall w | 0 <= w < c.topo.Nodes() ensures NodeInv(c, s', w) {
      assert NodeInv(c, s, w);
    }
    forall e | 0 <= e < |c.topo.links| ensures LinkInv(c, s', e) {
      assert LinkInv(c, s, e) && c.topo.LinkAt(e);
    }
  }

  /** A step of `v` that only moves its program counter outside receiving and sending. */
  lemma {:induction false} LocalFlow(c: Config, s: State, s': State, v: nat)
    requires c.Valid() && FlowInv(c, s) && v < c.topo.Nodes() && !s.reactors[v].asleep
    requires s' == s.(reactors := s'.reactors) && |s'.reactors| == |s.reactors|
    requires forall w :: 0 <= w < |s.reactors| && w != v ==> s'.reactors[w] == s.reactors[w]
    requires !s'.reactors[v].asleep && NodeInv(c, s', v)
    requires forall pos {:trigger SentOn(s'.reactors[v].pc, Fin(s, v), pos)} :: 0 <= pos < |c.topo.outs[v]| ==>
      SentOn(s'.reactors[v].pc, Fin(s, v), pos) == SentOn(s.reactors[v].pc, Fin(s, v), pos)
    requires forall pos {:trigger TakenFrom(s'.reactors[v].pc, Fin(s, v), pos)} :: 0 <= pos < |c.topo.ins[v]| ==>
      TakenFrom(s'.reactors[v].pc, Fin(s, v), pos) == TakenFrom(s.reactors[v].pc, Fin(s, v), pos)
    ensures FlowInv(c, s')
  {
    forall w | 0 <= w < c.topo.Nodes() ensures NodeInv(c, s', w) {
      assert NodeInv(c, s, w);
    }
    forall e | 0 <= e < |c.topo.links| ensures LinkInv(c, s', e) {
      assert LinkInv(c, s, e) && c.topo.LinkAt(e);
    }
  }

  lemma {:induction false} SchedulerWakeFlow(c: Config, s: State, v: nat, release: bool, deadline: nat)
    requires c.Valid() && FlowInv(c, s) && v < c.topo.Nodes()
    ensures FlowInv(c, SchedulerWake(c, s, v, release, deadline).0)
  {
    BookkeepingFlow(c, s, SchedulerWake(c, s, v, release, deadline).0);
  }

  lemma {:induction false} WakeFlow(c: Config, s: State, v: nat, release: bool, deadline: nat)
    requires c.Valid() && FlowInv(c, s) && v < c.topo.Nodes()
    ensures FlowInv(c, Wake(c, s, v, release, deadline))
  {
    SchedulerWakeFlow(c, s, v, release, deadline);
    var looked := if c.edf[v] then SchedulerWake(c, s, v, release, deadline).0 else s;
    if s.reactors[v].pc.Yielded? {
      assert NodeInv(c, looked, v);
      LocalFlow(c, looked, Wake(c, s, v, release, deadline), v);
    }
  }

  lemma {:induction false} TickFlow(c: Config, s: State, deadline: nat)
    requires c.Valid() && FlowInv(c, s) && s.reactors[c.topo.source].pc == AwaitTick(false)
    ensures FlowInv(c, TickWake(c, s, deadline))
  {
    var v := c.topo.source;
    SchedulerWakeFlow(c, s, v, true, deadline);
    var looked := if c.Releases() then SchedulerWake(c, s, v, true, deadline).0 else s;
    assert NodeInv(c, looked, v);
    LocalFlow(c, looked, TickWake(c, s, deadline), v);
  }

  lemma {:induction false} BeginFlow(c: Config, s: State)
    requires c.Valid() && FlowInv(c, s) && c.free && s.reactors[c.topo.source].pc == AwaitTick(false)
    ensures FlowInv(c, Begin(c, s))
  {
    var v := c.topo.source;
    assert NodeInv(c, s, v);
    LocalFlow(c, s, Begin(c, s), v);
  }

  /** A link keeps its invariant when its queue, its two counters and its two sleepers stay. */
  lemma {:induction false} LinkFrame(c: Config, s: State, s': State, d: nat)
    requires c.Valid() && Shape(c, s) && Shape(c, s') && d < |c.topo.links| && c.topo.LinkAt(d)
    requires LinkInv(c, s, d) && s'.inners[d] == s.inners[d]
    requires var l := c.topo.links[d]; var p, p' := s.reactors[l.src], s'.reactors[l.src];
      && SentOn(p'.pc, Fin(s', l.src), l.outPos) == SentOn(p.pc, Fin(s, l.src), l.outPos)
      && PubParked(p', l.outPos) == PubParked(p, l.outPos)
    requires var l := c.topo.links[d]; var r, r' := s.reactors[l.dst], s'.reactors[l.dst];
      && TakenFrom(r'.pc, Fin(s', l.dst), l.inPos) == TakenFrom(r.pc, Fin(s, l.dst), l.inPos)
      && SubParked(r', l.inPos) == SubParked(r, l.inPos)
    ensures LinkInv(c, s', d)
  {
  }

  /** Different links of one node are at different positions. */
  lemma {:induction false} LinksDiffer(c: Config, d: nat, e: nat)
    requires c.Valid() && d < |c.topo.links| && e < |c.topo.links|
    ensures c.topo.LinkAt(d) && c.topo.LinkAt(e)
    ensures var ld, le := c.topo.links[d], c.topo.links[e];
      d != e ==> (ld.src == le.src ==> ld.outPos != le.outPos) && (ld.dst == le.dst ==> ld.inPos != le.inPos)
  {
    assert c.topo.LinkAt(d) && c.topo.LinkAt(e);
  }

  /** The sleep of `p` ends if it is parked on output `outPos`. */
  function Unpark(p: Reactor, outPos: nat): (r: Reactor) {
    if PubParked(p, outPos) then p.(asleep := false) else p
  }

  /** The sleep of `x` ends if it is parked on input `inPos`. */
  function Rouse(x: Reactor, inPos: nat): (r: Reactor) {
    if SubParked(x, inPos) then x.(asleep := false) else x
  }

  /** `s'` differs from `s` in reactors `v` and `w` and in link `e` only. */
  ghost predicate Differ(c: Config, s: State, s': State, v: nat, w: nat, e: nat)
    requires v < |s.reactors| && w < |s.reactors| && e < |s.inners|
  {
    && |s'.reactors| == |s.reactors| && |s'.inners| == |s.inners|
    && (forall u :: 0 <= u < |s.reactors| && u != v && u != w ==> s'.reactors[u] == s.reactors[u])
    && (forall d :: 0 <= d < |s.inners| && d != e ==> s'.inners[d] == s.inners[d])
    && s'.dag == s.dag && s'.period == s.period && s'.history == s.history
  }

  /** `v` is about to poll the receive of input `i`, which comes over link `e`. */
  ghost predicate Receiving(c: Config, s: State, v: nat, i: nat, e: nat) {
    && c.Valid() && Shape(c, s) && v < c.topo.Nodes() && NodeInv(c, s, v)
    && !s.reactors[v].asleep && s.reactors[v].pc == Recv(i)
    && e < |c.topo.links| && c.topo.links[e].dst == v && c.topo.links[e].inPos == i
    && i < |c.topo.ins[v]| && c.topo.ins[v][i] == e && LinkInv(c, s, e)
  }

  /**
   What a receive over link `e` makes of `s`: it changes the receiver, the link, and at most the
   sleep of the link's publisher.
   */
  ghost predicate Received(c: Config, s: State, t: State, e: nat)
    requires c.Valid() && Shape(c, s) && e < |c.topo.links|
  {
    assert c.topo.LinkAt(e);
    var l := c.topo.links[e];
    var x, p, job := s.reactors[l.dst], s.reactors[l.src], Fin(s, l.dst);
    && Differ(c, s, t, l.dst, l.src, e)
    && (if s.inners[e].queue == [] then
          && t.reactors == s.reactors[l.dst := x.(asleep := true)]
          && LinkRel(c.q, t.inners[e], l.src, l.dst, job, job, true, false)
          && SentOn(p.pc, Fin(s, l.src), l.outPos) == job && !PubParked(p, l.outPos)
        else
          && l.src != l.dst
          && t.reactors[l.dst] == x.(pc := Recv(l.inPos + 1), tag := Some(job))
          && t.reactors[l.src] == Unpark(p, l.outPos)
          && LinkRel(c.q, t.inners[e], l.src, l.dst, job + 1, SentOn(p.pc, Fin(s, l.src), l.outPos), false, false))
  }

  lemma {:induction false} RecvParks(c: Config, s: State, v: nat, i: nat, e: nat)
    requires Receiving(c, s, v, i, e) && s.inners[e].queue == []
    ensures Received(c, s, StepRecv(c, s, v, i), e)
  {
    var l := c.topo.links[e];
    assert c.topo.LinkAt(e);
    var p := s.reactors[l.src];
    RecvRel(c.q, s.inners[e], l.src, v, Fin(s, v), SentOn(p.pc, Fin(s, l.src), l.outPos), PubParked(p, l.outPos));
    var rs := s.reactors[v := s.reactors[v].(asleep := true)];
    assert WakeAll(rs, []) == rs;
  }

  lemma {:induction false} RecvTakes(c: Config, s: State, v: nat, i: nat, e: nat)
    requires Receiving(c, s, v, i, e) && s.inners[e].queue != []
    ensures Received(c, s, StepRecv(c, s, v, i), e)
  {
    assert c.topo.LinkAt(e);
    var src, parked := c.topo.links[e].src, PubParked(s.reactors[c.topo.links[e].src], c.topo.links[e].outPos);
    RecvFinds(c, s, v, i, e);
    RecvGets(c, s, v, i, e, src, Fin(s, v), parked);
    assert Unpark(s.reactors[src], c.topo.links[e].outPos) == StepRecv(c, s, v, i).reactors[src];
  }

  /** What the link's invariant says about the job a receive finds. */
  lemma {:induction false} RecvFinds(c: Config, s: State, v: nat, i: nat, e: nat)
    requires Receiving(c, s, v, i, e) && s.inners[e].queue != [] && c.topo.LinkAt(e)
    ensures c.topo.links[e].src != v && |s.inners[e].queue| <= c.q
    ensures !s.reactors[v].mismatch && (s.reactors[v].tag == None || s.reactors[v].tag == Some(Fin(s, v)))
    ensures
      var l, got := c.topo.links[e], RecvOrRegisterWaker(c.q, s.inners[e], v);
      var p := s.reactors[l.src];
      && got.data == Some(Fin(s, v)) && got.woken == (if PubParked(p, l.outPos) then [l.src] else [])
      && LinkRel(c.q, got.inner, l.src, v, Fin(s, v) + 1, SentOn(p.pc, Fin(s, l.src), l.outPos), false, false)
  {
    var l := c.topo.links[e];
    var p := s.reactors[l.src];
    RecvRel(c.q, s.inners[e], l.src, v, Fin(s, v), SentOn(p.pc, Fin(s, l.src), l.outPos), PubParked(p, l.outPos));
  }

  /** A receive that gets a job and wakes at most reactor `src`. */
  lemma {:induction false} RecvGets(
      c: Config, s: State, v: nat, i: nat, e: nat, src: nat, job: nat, parked: bool)
    requires Shape(c, s) && v < c.topo.Nodes() && i < |c.topo.ins[v]| && e == c.topo.ins[v][i] && e < |s.inners|
    requires src < |s.reactors| && src != v
    requires !s.reactors[v].mismatch && (s.reactors[v].tag == None || s.reactors[v].tag == Some(job))
    requires
      var got := RecvOrRegisterWaker(c.q, s.inners[e], v);
      got.data == Some(job) && got.woken == if parked then [src] else []
    ensures
      var x, p, t := s.reactors[v], s.reactors[src], StepRecv(c, s, v, i);
      && Differ(c, s, t, v, src, e) && t.inners[e] == RecvOrRegisterWaker(c.q, s.inners[e], v).inner
      && t.reactors[v] == x.(pc := Recv(i + 1), tag := Some(job))
      && t.reactors[src] == if parked then p.(asleep := false) else p
  {
  }

  lemma {:induction false} RecvEffect(c: Config, s: State, v: nat, i: nat, e: nat)
    requires Receiving(c, s, v, i, e)
    ensures Received(c, s, StepRecv(c, s, v, i), e)
  {
    if s.inners[e].queue == [] { RecvParks(c, s, v, i, e); } else { RecvTakes(c, s, v, i, e); }
  }

  lemma {:induction false} RecvOwnLink(c: Config, s: State, t: State, v: nat, i: nat, e: nat)
    requires Receiving(c, s, v, i, e) && Received(c, s, t, e) && Shape(c, t)
    ensures LinkInv(c, t, e)
  {
    assert c.topo.LinkAt(e);
  }

  lemma {:induction false} RecvOtherLink(c: Config, s: State, t: State, v: nat, i: nat, e: nat, d: nat)
    requires Receiving(c, s, v, i, e) && Received(c, s, t, e) && Shape(c, t)
    requires d < |c.topo.links| && d != e && LinkInv(c, s, d)
    ensures LinkInv(c, t, d)
  {
    LinksDiffer(c, d, e);
    LinkFrame(c, s, t, d);
  }

  lemma {:induction false} RecvNode(c: Config, s: State, t: State, v: nat, i: nat, e: nat, w: nat)
    requires Receiving(c, s, v, i, e) && Received(c, s, t, e) && Shape(c, t)
    requires w < c.topo.Nodes() && NodeInv(c, s, w)
    ensures NodeInv(c, t, w)
  {
  }

  lemma {:induction false} ReceivedFlow(c: Config, s: State, t: State, v: nat, i: nat, e: nat)
    requires Receiving(c, s, v, i, e) && FlowInv(c, s) && Received(c, s, t, e)
    ensures FlowInv(c, t)
  {
    forall w | 0 <= w < c.topo.Nodes() ensures NodeInv(c, t, w) {
      RecvNode(c, s, t, v, i, e, w);
    }
    forall d | 0 <= d < |c.topo.links| ensures LinkInv(c, t, d) {
      if d != e { RecvOtherLink(c, s, t, v, i, e, d); } else { RecvOwnLink(c, s, t, v, i, e); }
    }
  }

  lemma {:induction false} RecvFlow(c: Config, s: State, v: nat, i: nat)
    requires c.Valid() && FlowInv(c, s) && v < c.topo.Nodes() && Ready(s, v)
    requires s.reactors[v].pc == Recv(i) && i < |c.topo.ins[v]|
    ensures FlowInv(c, Advance(c, s, v))
    ensures Receiving(c, s, v, i, c.topo.ins[v][i]) && Received(c, s, Advance(c, s, v), c.topo.ins[v][i])
  {
    assert c.topo.InputAt(v, i);
    var e := c.topo.ins[v][i];
    assert NodeInv(c, s, v) && LinkInv(c, s, e);
    RecvEffect(c, s, v, i, e);
    ReceivedFlow(c, s, Advance(c, s, v), v, i, e);
  }

  /** `v` is about to poll the send to output `i`, which goes over link `e`. */
  ghost predicate Sending(c: Config, s: State, v: nat, i: nat, e: nat) {
    && c.Valid() && Shape(c, s) && v < c.topo.Nodes() && NodeInv(c, s, v)
    && !s.reactors[v].asleep && s.reactors[v].pc == Send(i)
    && e < |c.topo.links| && c.topo.links[e].src == v && c.topo.links[e].outPos == i
    && i < |c.topo.outs[v]| && c.topo.outs[v][i] == e && LinkInv(c, s, e)
  }

  /**
   What a send over link `e` makes of `s`: it changes the sender, the link, and at most the sleep
   of the link's subscriber.
   */
  ghost predicate SentOver(c: Config, s: State, t: State, e: nat)
    requires c.Valid() && Shape(c, s) && e < |c.topo.links|
  {
    assert c.topo.LinkAt(e);
    var l := c.topo.links[e];
    var x, r, job := s.reactors[l.src], s.reactors[l.dst], Fin(s, l.src);
    && Differ(c, s, t, l.src, l.dst, e)
    && (if |s.inners[e].queue| == c.q then
          && t.reactors == s.reactors[l.src := x.(asleep := true)]
          && LinkRel(c.q, t.inners[e], l.src, l.dst, TakenFrom(r.pc, Fin(s, l.dst), l.inPos), job, false, true)
          && !SubParked(r, l.inPos)
        else
          && l.dst != l.src
          && t.reactors[l.src] == x.(pc := Send(l.outPos + 1))
          && t.reactors[l.dst] == Rouse(r, l.inPos)
          && LinkRel(c.q, t.inners[e], l.src, l.dst, TakenFrom(r.pc, Fin(s, l.dst), l.inPos), job + 1, false, false))
  }

  lemma {:induction false} SendEffect(c: Config, s: State, v: nat, i: nat, e: nat)
    requires Sending(c, s, v, i, e)
    ensures SentOver(c, s, StepSend(c, s, v, i), e)
  {
    var l := c.topo.links[e];
    assert c.topo.LinkAt(e);
    var r := s.reactors[l.dst];
    SendRel(c.q, s.inners[e], v, l.dst, TakenFrom(r.pc, Fin(s, l.dst), l.inPos), Fin(s, v), SubParked(r, l.inPos));
  }

  lemma {:induction false} SendOwnLink(c: Config, s: State, t: State, v: nat, i: nat, e: nat)
    requires Sending(c, s, v, i, e) && SentOver(c, s, t, e) && Shape(c, t)
    ensures LinkInv(c, t, e)
  {
    assert c.topo.LinkAt(e);
  }

  lemma {:induction false} SendOtherLink(c: Config, s: State, t: State, v: nat, i: nat, e: nat, d: nat)
    requires Sending(c, s, v, i, e) && SentOver(c, s, t, e) && Shape(c, t)
    requires d < |c.topo.links| && d != e && LinkInv(c, s, d)
    ensures LinkInv(c, t, d)
  {
    LinksDiffer(c, d, e);
    LinkFrame(c, s, t, d);
  }

  lemma {:induction false} SendNode(c: Config, s: State, t: State, v: nat, i: nat, e: nat, w: nat)
    requires Sending(c, s, v, i, e) && SentOver(c, s, t, e) && Shape(c, t)
    requires w < c.topo.Nodes() && NodeInv(c, s, w)
    ensures NodeInv(c, t, w)
  {
  }

  lemma {:induction false} SentFlow(c: Config, s: State, t: State, v: nat, i: nat, e: nat)
    requires Sending(c, s, v, i, e) && FlowInv(c, s) && SentOver(c, s, t, e)
    ensures FlowInv(c, t)
  {
    forall w | 0 <= w < c.topo.Nodes() ensures NodeInv(c, t, w) {
      SendNode(c, s, t, v, i, e, w);
    }
    forall d | 0 <= d < |c.topo.links| ensures LinkInv(c, t, d) {
      if d != e { SendOtherLink(c, s, t, v, i, e, d); } else { SendOwnLink(c, s, t, v, i, e); }
    }
  }

  lemma {:induction false} SendFlow(c: Config, s: State, v: nat, i: nat)
    requires c.Valid() && FlowInv(c, s) && v < c.topo.Nodes() && Ready(s, v)
    requires s.reactors[v].pc == Send(i) && i < |c.topo.outs[v]|
    ensures FlowInv(c, Advance(c, s, v))
    ensures Sending(c, s, v, i, c.topo.outs[v][i]) && SentOver(c, s, Advance(c, s, v), c.topo.outs[v][i])
  {
    assert c.topo.OutputAt(v, i);
    var e := c.topo.outs[v][i];
    assert NodeInv(c, s, v) && LinkInv(c, s, e);
    SendEffect(c, s, v, i, e);
    SentFlow(c, s, Advance(c, s, v), v, i, e);
  }

  lemma {:induction false} FinishFlow(c: Config, s: State, v: nat)
    requires c.Valid() && FlowInv(c, s) && v < c.topo.Nodes() && Ready(s, v)
    requires s.reactors[v].pc.Send? && s.reactors[v].pc.i == |c.topo.outs[v]|
    ensures FlowInv(c, Advance(c, s, v))
  {
    var s' := StepFinish(c, s, v);
    assert NodeInv(c, s, v);
    forall w | 0 <= w < c.topo.Nodes() ensures NodeInv(c, s', w) {
      assert NodeInv(c, s, w);
    }
    forall d | 0 <= d < |c.topo.links| ensures LinkInv(c, s', d) {
      assert LinkInv(c, s, d);
      FinishLink(c, s, v, d);
    }
  }

  lemma {:induction false} FinishLink(c: Config, s: State, v: nat, d: nat)
    requires c.Valid() && Shape(c, s) && v < c.topo.Nodes() && !s.reactors[v].asleep
    requires s.reactors[v].pc == Send(|c.topo.outs[v]|) && Shape(c, StepFinish(c, s, v))
    requires d < |c.topo.links| && LinkInv(c, s, d)
    ensures LinkInv(c, StepFinish(c, s, v), d)
  {
    assert c.topo.LinkAt(d);
    LinkFrame(c, s, StepFinish(c, s, v), d);
  }

  lemma {:induction false} AdvanceFlow(c: Config, s: State, v: nat)
    requires c.Valid() && FlowInv(c, s) && v < c.topo.Nodes() && Ready(s, v)
    ensures FlowInv(c, Advance(c, s, v))
  {
    assert NodeInv(c, s, v);
    match s.reactors[v].pc
    case Recv(i) =>
      if i < |c.topo.ins[v]| {
        RecvFlow(c, s, v, i);
      } else {
        LocalFlow(c, s, StepCheck(s, v), v);
      }
    case Send(i) =>
      if i < |c.topo.outs[v]| {
        SendFlow(c, s, v, i);
      } else {
        FinishFlow(c, s, v);
      }
    case _ => LocalFlow(c, s, Advance(c, s, v), v);
  }

  lemma {:induction false} NextFlow(c: Config, s: State, ev: Event, s': State)
    requires c.Valid() && FlowInv(c, s) && Next(c, s, ev, s')
    ensures FlowInv(c, s')
  {
    match ev
    case WakeEvent(v, release, deadline) => WakeFlow(c, s, v, release, deadline);
    case TickEvent(deadline) => TickFlow(c, s, deadline);
    case BeginEvent => BeginFlow(c, s);
    case AdvanceEvent(v) => AdvanceFlow(c, s, v);
  }
}
