/** How far nodes drift apart, and what that means for the retained deadlines. */
module DagLag {
  import opened Common
  import opened DagDeadlines
  import opened DagRun
  import opened DagInvariant

  /** `e` is a link from `u` to `v`. */
  ghost predicate IsLink(t: Topology, e: nat, u: nat, v: nat) {
    e < |t.links| && t.links[e].src == u && t.links[e].dst == v
  }

  ghost predicate Joined(t: Topology, u: nat, v: nat) {
    exists e :: IsLink(t, e, u, v)
  }

  /** A walk along the links from its first node to its last. */
  ghost predicate Walk(t: Topology, p: seq<nat>) {
    && |p| >= 1
    && (forall k :: 0 <= k < |p| ==> p[k] < t.Nodes())
    && (forall k :: 0 <= k < |p| - 1 ==> Joined(t, p[k], p[k + 1]))
  }

  ghost predicate Reaches(t: Topology, p: seq<nat>, v: nat) {
    Walk(t, p) && p[0] == t.source && p[|p| - 1] == v && |p| <= t.Nodes()
  }

  ghost predicate Reachable(t: Topology, v: nat) {
    exists p :: Reaches(t, p, v)
  }

  /** Every node is reachable from the source by a walk with fewer links than nodes. */
  ghost predicate Rooted(t: Topology) {
    forall v :: 0 <= v < t.Nodes() ==> Reachable(t, v)
  }

  /** Flow control bounds the distance between the two ends of a link. */
  lemma {:induction false} LinkLag(c: Config, s: State, u: nat, v: nat)
    requires c.Valid() && FlowInv(c, s) && u < c.topo.Nodes() && v < c.topo.Nodes() && Joined(c.topo, u, v)
    ensures Fin(s, u) <= Fin(s, v) + c.q + 1
    ensures Fin(s, v) <= Fin(s, u) + 1
  {
    var e :| IsLink(c.topo, e, u, v);
    assert LinkInv(c, s, e) && c.topo.LinkAt(e);
  }

  /** The lag adds up along a walk. */
  lemma {:induction false} WalkLag(c: Config, s: State, p: seq<nat>)
    requires c.Valid() && FlowInv(c, s) && Walk(c.topo, p)
    ensures Fin(s, p[0]) <= Fin(s, p[|p| - 1]) + (|p| - 1) * (c.q + 1)
    decreases |p|
  {
    if |p| > 1 {
      var p' := p[..|p| - 1];
      assert Walk(c.topo, p');
      WalkLag(c, s, p');
      assert Joined(c.topo, p[|p| - 2], p[|p| - 2 + 1]);
      LinkLag(c, s, p[|p| - 2], p[|p| - 1]);
      assert (|p| - 1) * (c.q + 1) == (|p'| - 1) * (c.q + 1) + (c.q + 1);
    }
  }

  function MaxLag(n: nat, q: nat): (r: nat)
    requires n >= 1
  {
    (n - 1) * (q + 1)
  }

  lemma {:induction false} SourceLag(c: Config, s: State, v: nat)
    requires c.Valid() && Rooted(c.topo) && FlowInv(c, s) && v < c.topo.Nodes()
    ensures Fin(s, c.topo.source) <= Fin(s, v) + MaxLag(c.topo.Nodes(), c.q)
  {
    assert Reachable(c.topo, v);
    var p :| Reaches(c.topo, p, v);
    WalkLag(c, s, p);
    assert (|p| - 1) * (c.q + 1) <= (c.topo.Nodes() - 1) * (c.q + 1);
  }

  /** Jobs from the slowest node's up to the source's are few enough never to reach the cap. */
  lemma {:induction false} WindowBelowCap(c: Config, s: State, m: map<nat, nat>)
    requires c.Valid() && Rooted(c.topo) && FlowInv(c, s)
    requires forall j :: j in m ==> MinFinished(s.dag.infos) <= j <= Fin(s, c.topo.source)
    ensures |m| <= MaxLag(c.topo.Nodes(), c.q) + 1 < Cap(c.topo.Nodes(), c.q)
  {
    var low := MinFinished(s.dag.infos);
    var v :| 0 <= v < |s.dag.infos| && s.dag.infos[v].numFinished == low;
    SourceLag(c, s, v);
    assert low <= s.dag.infos[c.topo.source].numFinished;
    BoundedSetCardinality(m.Keys, low, Fin(s, c.topo.source) + 1);
    assert c.topo.Nodes() * (c.q + 1) == (c.topo.Nodes() - 1) * (c.q + 1) + (c.q + 1);
  }

  /** Jobs whose tick the source has consumed. */
  function Fired(c: Config, s: State): (r: nat)
    requires c.topo.source < |s.reactors| && c.topo.source < |s.dag.infos|
  {
    if s.reactors[c.topo.source].pc == AwaitTick(false) then Fin(s, c.topo.source) else Fin(s, c.topo.source) + 1
  }

  /** Jobs that a periodic source must have released by now. */
  function Owed(c: Config, s: State): (r: nat)
    requires c.topo.source < |s.reactors| && c.topo.source < |s.dag.infos| && c.topo.source < |c.edf|
  {
    if c.Releases() && !c.free then Fired(c, s) else 0
  }

  /**
   The deadlines are those of the released jobs from `low` on, none beyond `top` is released, and
   every job below `fired` is.
   */
  ghost predicate Window(deadlines: map<nat, nat>, history: map<nat, nat>, low: nat, top: nat, fired: int) {
    && (forall j :: j in deadlines <==> j in history && j >= low)
    && (forall j :: j in deadlines ==> deadlines[j] == history[j])
    && (forall j :: j in history ==> j <= top)
    && (forall j :: 0 <= j < fired ==> j in history)
  }

  lemma {:induction false} WindowRelease(
      deadlines: map<nat, nat>, history: map<nat, nat>, low: nat, top: nat, fired: int, deadline: nat)
    requires Window(deadlines, history, low, top, fired) && low <= top && top !in deadlines
    ensures top !in history && Window(deadlines[top := deadline], history[top := deadline], low, top, fired)
  {
  }

  lemma {:induction false} WindowRetain(
      deadlines: map<nat, nat>, history: map<nat, nat>, low: nat, top: nat, fired: int, low': nat, top': nat)
    requires Window(deadlines, history, low, top, fired) && low <= low' && top <= top'
    ensures Window(Retain(deadlines, low'), history, low', top', fired)
  {
  }

  /**
   The map holds exactly the released jobs that some node has not finished, each with the
   deadline of its release. Every fired job was released if the source is periodic and releases jobs,
   and none if it releases no jobs.
   */
  ghost predicate DeadlineInv(c: Config, s: State)
    requires c.Valid() && Shape(c, s)
  {
    && Window(s.dag.deadlines, s.history, MinFinished(s.dag.infos), Fin(s, c.topo.source),
              Owed(c, s))
    && (!c.Releases() ==> s.history == map[])
  }

  /**
   While a node executes a job that was released at its check, it holds that job's deadline if it is
   under a deadline scheduler. A node that is not never holds any.
   */
  ghost predicate FreshInv(c: Config, s: State, v: nat)
    requires Shape(c, s) && v < c.topo.Nodes()
  {
    var x := s.reactors[v];
    var job := Fin(s, v);
    var mine := s.dag.infos[v].deadlineJob == Some(job);
    && (!c.edf[v] ==> s.dag.infos[v].deadlineJob == None)
    && ((x.pc.Exec? || x.pc.Send?) && x.released ==> job in s.history && (c.edf[v] ==> mine))
    && (x.pc.AwaitTick? ==> !x.released)
    && (x.pc.Yielded? ==> job in s.history && (x.pc.woken && c.edf[v] ==> mine))
    && (v == c.topo.source && c.edf[v] ==>
          && (job in s.history ==> mine)
          && (!c.free && x.pc != AwaitTick(false) ==> job in s.history))
    && (s.dag.infos[v].deadlineJob.Some? ==> s.dag.infos[v].deadlineJob.value in s.history)
  }

  ghost predicate Inv(c: Config, s: State)
    requires c.Valid()
  {
    && FlowInv(c, s)
    && DeadlineInv(c, s)
    && (forall v :: 0 <= v < c.topo.Nodes() ==> FreshInv(c, s, v))
  }

  lemma {:induction false} InitInv(c: Config)
    requires c.Valid()
    ensures Inv(c, Init(c))
  {
    InitFlow(c);
  }

  lemma {:induction false} MinFinishedGrows(a: seq<NodeInfo>, b: seq<NodeInfo>)
    requires |a| == |b| > 0
    requires forall v :: 0 <= v < |a| ==> a[v].numFinished <= b[v].numFinished
    ensures MinFinished(a) <= MinFinished(b)
  {
    var y :| 0 <= y < |b| && b[y].numFinished == MinFinished(b);
    assert MinFinished(a) <= a[y].numFinished;
  }

  lemma {:induction false} LookupCounts(c: Config, s: State, v: nat, release: bool, deadline: nat)
    requires c.Valid() && Shape(c, s) && v < c.topo.Nodes()
    ensures var s' := SchedulerWake(c, s, v, release, deadline).0;
      && Shape(c, s') && s'.reactors == s.reactors
      && (forall w :: 0 <= w < c.topo.Nodes() ==> Fin(s', w) == Fin(s, w))
      && MinFinished(s'.dag.infos) == MinFinished(s.dag.infos) <= Fin(s, v)
  {
    SameCounts(s.dag.infos, SchedulerWake(c, s, v, release, deadline).0.dag.infos, v);
  }

  /** Which deadline a node holds does not affect how many jobs are finished. */
  lemma {:induction false} SameCounts(a: seq<NodeInfo>, b: seq<NodeInfo>, v: nat)
    requires |a| == |b| && v < |a|
    requires forall w :: 0 <= w < |a| ==> a[w].numFinished == b[w].numFinished
    ensures MinFinished(b) == MinFinished(a) <= a[v].numFinished
  {
    MinFinishedGrows(a, b);
    MinFinishedGrows(b, a);
  }

  /** The deadline lookup keeps the map exact and never changes a released deadline. */
  lemma {:induction false} LookupWindow(c: Config, s: State, v: nat, release: bool, deadline: nat)
    requires c.Valid() && Shape(c, s) && DeadlineInv(c, s) && v < c.topo.Nodes() && c.edf[v]
    ensures var s' := SchedulerWake(c, s, v, release, deadline).0;
      && Shape(c, s')
      && DeadlineInv(c, s')
      && (forall j :: j in s.history ==> j in s'.history && s'.history[j] == s.history[j])
      && (release && v == c.topo.source ==> Fin(s, v) in s'.history)
  {
    LookupCounts(c, s, v, release, deadline);
    if release && v == c.topo.source && Fin(s, v) !in s.dag.deadlines {
      WindowRelease(s.dag.deadlines, s.history, MinFinished(s.dag.infos), Fin(s, v),
                    Owed(c, s), deadline);
    }
  }

  /** It answers with the deadline of a released job, and the node then holds that job. */
  lemma {:induction false} SchedulerWakeInv(c: Config, s: State, v: nat, release: bool, deadline: nat)
    requires c.Valid() && Shape(c, s) && DeadlineInv(c, s) && v < c.topo.Nodes() && c.edf[v]
    ensures var (s', answer) := SchedulerWake(c, s, v, release, deadline);
      && Shape(c, s')
      && DeadlineInv(c, s')
      && (forall j :: j in s.history ==> j in s'.history && s'.history[j] == s.history[j])
      && (Fin(s, v) in s'.history ==> answer == s'.history[Fin(s, v)] && s'.dag.infos[v].deadlineJob == Some(Fin(s, v)))
      && (release && v == c.topo.source ==> Fin(s, v) in s'.history)
  {
    LookupWindow(c, s, v, release, deadline);
    var s' := SchedulerWake(c, s, v, release, deadline).0;
    assert MinFinished(s'.dag.infos) <= s'.dag.infos[v].numFinished == Fin(s, v);
    assert Fin(s, v) in s'.history ==> Fin(s, v) in s'.dag.deadlines;
  }

  lemma {:induction false} LookupFresh(c: Config, s: State, v: nat, release: bool, deadline: nat, w: nat)
    requires c.Valid() && Shape(c, s) && DeadlineInv(c, s) && v < c.topo.Nodes() && c.edf[v]
    requires w < c.topo.Nodes() && FreshInv(c, s, w) && Shape(c, SchedulerWake(c, s, v, release, deadline).0)
    ensures FreshInv(c, SchedulerWake(c, s, v, release, deadline).0, w)
  {
    SchedulerWakeInv(c, s, v, release, deadline);
  }

  /** A lookup keeps the invariant, and the node that asked about a released job holds its deadline. */
  lemma {:induction false} LookupInv(c: Config, s: State, v: nat, release: bool, deadline: nat)
    requires c.Valid() && Inv(c, s) && v < c.topo.Nodes() && c.edf[v]
    ensures var s' := SchedulerWake(c, s, v, release, deadline).0;
      && Inv(c, s')
      && (forall j :: j in s.history ==> j in s'.history && s'.history[j] == s.history[j])
      && (Fin(s, v) in s'.history ==> s'.dag.infos[v].deadlineJob == Some(Fin(s, v)))
      && (release && v == c.topo.source ==> Fin(s, v) in s'.history)
  {
    SchedulerWakeFlow(c, s, v, release, deadline);
    SchedulerWakeInv(c, s, v, release, deadline);
    forall w | 0 <= w < c.topo.Nodes() ensures FreshInv(c, SchedulerWake(c, s, v, release, deadline).0, w) {
      LookupFresh(c, s, v, release, deadline, w);
    }
  }

  lemma {:induction false} YieldEnds(c: Config, s: State, v: nat)
    requires c.Valid() && Inv(c, s) && v < c.topo.Nodes() && s.reactors[v].pc.Yielded?
    requires FlowInv(c, SetPc(s, v, Yielded(true)))
    requires c.edf[v] && Fin(s, v) in s.history ==> s.dag.infos[v].deadlineJob == Some(Fin(s, v))
    ensures Inv(c, SetPc(s, v, Yielded(true)))
  {
    var s' := SetPc(s, v, Yielded(true));
    assert Fired(c, s') == Fired(c, s);
    forall w | 0 <= w < c.topo.Nodes() ensures FreshInv(c, s', w) {
      assert FreshInv(c, s, w);
    }
  }

  lemma {:induction false} WakeInv(c: Config, s: State, v: nat, release: bool, deadline: nat)
    requires c.Valid() && Inv(c, s) && v < c.topo.Nodes()
    ensures Inv(c, Wake(c, s, v, release, deadline))
    ensures forall j :: j in s.history ==> j in Wake(c, s, v, release, deadline).history
                                           && Wake(c, s, v, release, deadline).history[j] == s.history[j]
  {
    WakeFlow(c, s, v, release, deadline);
    var looked := s;
    if c.edf[v] {
      LookupInv(c, s, v, release, deadline);
      looked := SchedulerWake(c, s, v, release, deadline).0;
    }
    assert looked.reactors == s.reactors;
    if s.reactors[v].pc.Yielded? {
      assert Wake(c, s, v, release, deadline) == SetPc(looked, v, Yielded(true));
      YieldEnds(c, looked, v);
    }
  }

  lemma {:induction false} TickFires(c: Config, s: State)
    requires c.Valid() && Inv(c, s) && !c.free && s.reactors[c.topo.source].pc == AwaitTick(false)
    requires FlowInv(c, SetPc(s, c.topo.source, AwaitTick(true)))
    requires c.Releases() ==>
      Fin(s, c.topo.source) in s.history && s.dag.infos[c.topo.source].deadlineJob == Some(Fin(s, c.topo.source))
    ensures Inv(c, SetPc(s, c.topo.source, AwaitTick(true)))
  {
    var s' := SetPc(s, c.topo.source, AwaitTick(true));
    forall w | 0 <= w < c.topo.Nodes() ensures FreshInv(c, s', w) {
      assert FreshInv(c, s, w);
    }
  }

  lemma {:induction false} TickInv(c: Config, s: State, deadline: nat)
    requires c.Valid() && Inv(c, s) && !c.free && s.reactors[c.topo.source].pc == AwaitTick(false)
    ensures Inv(c, TickWake(c, s, deadline))
    ensures forall j :: j in s.history ==> j in TickWake(c, s, deadline).history
                                           && TickWake(c, s, deadline).history[j] == s.history[j]
  {
    TickFlow(c, s, deadline);
    var looked := s;
    if c.Releases() {
      LookupInv(c, s, c.topo.source, true, deadline);
      looked := SchedulerWake(c, s, c.topo.source, true, deadline).0;
    }
    assert looked.reactors == s.reactors && TickWake(c, s, deadline) == SetPc(looked, c.topo.source, AwaitTick(true));
    TickFires(c, looked);
  }

  /** The source never finds its own job's deadline stale, because only its own wakes release the job. */
  lemma {:induction false} BeginExecutes(c: Config, s: State)
    requires c.Valid() && Inv(c, s)
    ensures !HasStaleDeadline(s.dag, c.topo.source)
  {
    assert FreshInv(c, s, c.topo.source);
  }

  lemma {:induction false} BeginInv(c: Config, s: State)
    requires c.Valid() && Inv(c, s) && c.free && s.reactors[c.topo.source].pc == AwaitTick(false)
    ensures Inv(c, Begin(c, s)) && Begin(c, s).reactors[c.topo.source].pc == Exec
  {
    BeginFlow(c, s);
    BeginExecutes(c, s);
    forall w | 0 <= w < c.topo.Nodes() ensures FreshInv(c, Begin(c, s), w) {
      assert FreshInv(c, s, w) && FreshInv(c, s, c.topo.source);
    }
  }

  /** The cap does not bite when a job finishes. */
  lemma {:induction false} FinishRetains(c: Config, s: State, v: nat)
    requires c.Valid() && Rooted(c.topo) && Shape(c, s) && DeadlineInv(c, s) && v < c.topo.Nodes()
    requires s.reactors[v].pc.Send? && FlowInv(c, StepFinish(c, s, v))
    ensures var s' := StepFinish(c, s, v);
      s'.dag.deadlines == Retain(s.dag.deadlines, MinFinished(s'.dag.infos))
  {
    var s' := StepFinish(c, s, v);
    WindowBelowCap(c, s', Retain(s.dag.deadlines, MinFinished(s'.dag.infos)));
  }

  lemma {:induction false} FinishDeadlines(c: Config, s: State, v: nat)
    requires c.Valid() && Rooted(c.topo) && Inv(c, s) && v < c.topo.Nodes()
    requires s.reactors[v].pc.Send? && s.reactors[v].pc.i == |c.topo.outs[v]| && FlowInv(c, StepFinish(c, s, v))
    ensures
      var s' := StepFinish(c, s, v);
      && DeadlineInv(c, s') && s'.history == s.history
      && s'.dag.deadlines == Retain(s.dag.deadlines, MinFinished(s'.dag.infos))
  {
    var s' := StepFinish(c, s, v);
    FinishRetains(c, s, v);
    FinishCounts(c, s, v);
    WindowRetain(s.dag.deadlines, s.history, MinFinished(s.dag.infos), Fin(s, c.topo.source),
                 Owed(c, s), MinFinished(s'.dag.infos), Fin(s', c.topo.source));
  }

  /** Finishing a job lowers no count, and a job of the source counts as fired before and after. */
  lemma {:induction false} FinishCounts(c: Config, s: State, v: nat)
    requires c.Valid() && Shape(c, s) && v < c.topo.Nodes() && s.reactors[v].pc.Send? && Shape(c, StepFinish(c, s, v))
    ensures var s' := StepFinish(c, s, v);
      && MinFinished(s.dag.infos) <= MinFinished(s'.dag.infos)
      && Fin(s, c.topo.source) <= Fin(s', c.topo.source) && Fired(c, s') == Fired(c, s)
  {
    MinFinishedGrows(s.dag.infos, StepFinish(c, s, v).dag.infos);
  }

  lemma {:induction false} FinishFresh(c: Config, s: State, v: nat, w: nat)
    requires c.Valid() && Shape(c, s) && DeadlineInv(c, s) && v < c.topo.Nodes() && w < c.topo.Nodes()
    requires FreshInv(c, s, w) && Shape(c, StepFinish(c, s, v))
    ensures FreshInv(c, StepFinish(c, s, v), w)
  {
    assert Fin(s, c.topo.source) + 1 !in s.history;
  }

  /** Finishing a job drops the deadlines nobody needs any more, and none that is needed. */
  lemma {:induction false} FinishInv(c: Config, s: State, v: nat)
    requires c.Valid() && Rooted(c.topo) && Inv(c, s) && v < c.topo.Nodes() && Ready(s, v)
    requires s.reactors[v].pc.Send? && s.reactors[v].pc.i == |c.topo.outs[v]|
    ensures Inv(c, Advance(c, s, v)) && Advance(c, s, v).history == s.history
    ensures Advance(c, s, v).dag.deadlines == Retain(s.dag.deadlines, MinFinished(Advance(c, s, v).dag.infos))
  {
    FinishFlow(c, s, v);
    FinishDeadlines(c, s, v);
    forall w | 0 <= w < c.topo.Nodes() ensures FreshInv(c, StepFinish(c, s, v), w) {
      FinishFresh(c, s, v, w);
    }
  }

  /** A step other than finishing leaves the bookkeeping alone. */
  lemma {:induction false} AdvanceDag(c: Config, s: State, v: nat)
    requires c.Valid() && FlowInv(c, s) && v < c.topo.Nodes() && Ready(s, v)
    requires !(s.reactors[v].pc.Send? && s.reactors[v].pc.i == |c.topo.outs[v]|)
    ensures Advance(c, s, v).dag == s.dag && Advance(c, s, v).history == s.history
    ensures Shape(c, Advance(c, s, v))
    ensures forall w :: 0 <= w < c.topo.Nodes() && w != v ==>
      Advance(c, s, v).reactors[w].(asleep := false) == s.reactors[w].(asleep := false)
    ensures var x, x' := s.reactors[v], Advance(c, s, v).reactors[v];
      match x.pc
      case AwaitTick(_) => x' == x.(pc := Exec, tag := Some(s.period))
      case Recv(i) => if i < |c.topo.ins[v]| then x'.pc.Recv? && x'.released == x.released
                      else x' == x.(pc := x'.pc, released := Fin(s, v) in s.history) &&
                           x'.pc == if HasStaleDeadline(s.dag, v) then Yielded(false) else Exec
      case Send(i) => x'.pc.Send? && x'.released == x.released
      case Yielded(_) => x' == x.(pc := Exec)
      case Exec => x' == x.(pc := Send(0))
  {
    AdvanceFlow(c, s, v);
    assert NodeInv(c, s, v);
  }

  lemma {:induction false} AdvanceFresh(c: Config, s: State, v: nat, w: nat)
    requires c.Valid() && Inv(c, s) && v < c.topo.Nodes() && w < c.topo.Nodes() && Ready(s, v)
    requires !(s.reactors[v].pc.Send? && s.reactors[v].pc.i == |c.topo.outs[v]|)
    ensures Shape(c, Advance(c, s, v)) && FreshInv(c, Advance(c, s, v), w)
  {
    AdvanceDag(c, s, v);
    assert FreshInv(c, s, w) && NodeInv(c, s, w);
    assert MinFinished(s.dag.infos) <= s.dag.infos[w].numFinished;
  }

  lemma {:induction false} AdvanceInv(c: Config, s: State, v: nat)
    requires c.Valid() && Rooted(c.topo) && Inv(c, s) && v < c.topo.Nodes() && Ready(s, v)
    ensures Inv(c, Advance(c, s, v)) && Advance(c, s, v).history == s.history
  {
    AdvanceFlow(c, s, v);
    var s' := Advance(c, s, v);
    if s.reactors[v].pc.Send? && s.reactors[v].pc.i == |c.topo.outs[v]| {
      FinishInv(c, s, v);
    } else {
      AdvanceDag(c, s, v);
      assert Fired(c, s') == Fired(c, s) by {
        assert NodeInv(c, s, c.topo.source) && NodeInv(c, s', c.topo.source);
      }
      forall w | 0 <= w < c.topo.Nodes() ensures FreshInv(c, s', w) {
        AdvanceFresh(c, s, v, w);
      }
    }
  }

  lemma {:induction false} NextInv(c: Config, s: State, ev: Event, s': State)
    requires c.Valid() && Rooted(c.topo) && Inv(c, s) && Next(c, s, ev, s')
    ensures Inv(c, s')
    ensures forall j :: j in s.history ==> j in s'.history && s'.history[j] == s.history[j]
  {
    match ev
    case WakeEvent(v, release, deadline) => WakeInv(c, s, v, release, deadline);
    case TickEvent(deadline) => TickInv(c, s, deadline);
    case BeginEvent => BeginInv(c, s);
    case AdvanceEvent(v) => AdvanceInv(c, s, v);
  }
}
