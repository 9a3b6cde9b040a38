/** What holds in every run of a DAG whose reactors have all subscribed to their topics. */
module DagTheorems {
  import opened Common
  import opened DagDeadlines
  import opened DagRun
  import opened DagInvariant
  import opened DagLag
  import opened DagProgress

  /** Every state of a run satisfies the invariant, and released deadlines never change. */
  lemma {:induction false} RunInv(c: Config, states: seq<State>, events: seq<Event>, k: nat)
    requires c.Valid() && Rooted(c.topo) && Run(c, states, events) && k < |states|
    ensures Inv(c, states[k])
    decreases k
  {
    if k == 0 {
      InitInv(c);
    } else {
      RunInv(c, states, events, k - 1);
      assert RunStep(c, states, events, k - 1);
      NextInv(c, states[k - 1], events[k - 1], states[k]);
    }
  }

  lemma {:induction false} HistoryStep(c: Config, states: seq<State>, events: seq<Event>, i: nat, job: nat)
    requires c.Valid() && Rooted(c.topo) && Run(c, states, events) && i < |events|
    requires job in states[i].history
    ensures job in states[i + 1].history && states[i + 1].history[job] == states[i].history[job]
  {
    RunInv(c, states, events, i);
    assert RunStep(c, states, events, i);
    NextInv(c, states[i], events[i], states[i + 1]);
  }

  lemma {:induction false} HistoryGrows(c: Config, states: seq<State>, events: seq<Event>, i: nat, k: nat, job: nat)
    requires c.Valid() && Rooted(c.topo) && Run(c, states, events) && i <= k < |states|
    requires job in states[i].history
    ensures job in states[k].history && states[k].history[job] == states[i].history[job]
    decreases k - i
  {
    if i < k {
      HistoryStep(c, states, events, i, job);
      HistoryGrows(c, states, events, i + 1, k, job);
    }
  }

  /** Job `job` is not finished by some node. */
  ghost predicate Unfinished(s: State, job: nat) {
    exists v :: 0 <= v < |s.dag.infos| && Fin(s, v) <= job
  }

  lemma {:induction false} UnfinishedIff(s: State, job: nat)
    requires |s.dag.infos| > 0
    ensures Unfinished(s, job) <==> MinFinished(s.dag.infos) <= job
  {
    var low :| 0 <= low < |s.dag.infos| && s.dag.infos[low].numFinished == MinFinished(s.dag.infos);
    assert Fin(s, low) == MinFinished(s.dag.infos);
  }

  lemma {:induction false} RetainedExactly(c: Config, s: State)
    requires c.Valid() && Rooted(c.topo) && Inv(c, s)
    ensures |s.dag.deadlines| <= MaxLag(c.topo.Nodes(), c.q) + 1 < Cap(c.topo.Nodes(), c.q)
    ensures forall job :: job in s.dag.deadlines <==> job in s.history && Unfinished(s, job)
  {
    WindowBelowCap(c, s, s.dag.deadlines);
    forall job ensures job in s.dag.deadlines <==> job in s.history && Unfinished(s, job) {
      UnfinishedIff(s, job);
    }
  }

  /** All `n` nodes are at most `(n - 1) * (q + 1)` jobs behind the source. */
  ghost predicate BoundedLag(s: State, source: nat, n: nat, q: nat) {
    |s.dag.infos| == n && source < n
    && forall v :: 0 <= v < n ==> Fin(s, source) <= Fin(s, v) + MaxLag(n, q)
  }

  lemma {:induction false} InvBoundsLag(c: Config, s: State)
    requires c.Valid() && Rooted(c.topo) && Inv(c, s)
    ensures BoundedLag(s, c.topo.source, c.topo.Nodes(), c.q)
  {
    forall v | 0 <= v < c.topo.Nodes() ensures Fin(s, c.topo.source) <= Fin(s, v) + MaxLag(c.topo.Nodes(), c.q) {
      SourceLag(c, s, v);
    }
  }

  /** The lag is bounded, the deadlines are few, and they are those of the released unfinished jobs. */
  ghost predicate Kept(c: Config, s: State)
    requires c.Valid()
  {
    && BoundedLag(s, c.topo.source, c.topo.Nodes(), c.q)
    && |s.dag.deadlines| <= MaxLag(c.topo.Nodes(), c.q) + 1 < Cap(c.topo.Nodes(), c.q)
    && (forall job :: job in s.dag.deadlines <==> job in s.history && Unfinished(s, job))
  }

  /** The lag along a walk from the source is bounded by its number of links. */
  lemma {:induction false} LagByDistance(c: Config, states: seq<State>, events: seq<Event>, k: nat, p: seq<nat>)
    requires c.Valid() && Rooted(c.topo) && Run(c, states, events) && k < |states| && DagLag.Walk(c.topo, p)
    ensures |states[k].dag.infos| == c.topo.Nodes()
    ensures Fin(states[k], p[0]) <= Fin(states[k], p[|p| - 1]) + (|p| - 1) * (c.q + 1)
  {
    RunInv(c, states, events, k);
    WalkLag(c, states[k], p);
  }

  /**
   Deadline agreement. If two wakes in a run ask for the same job, whichever nodes ask and however late,
   by a tick of the source or otherwise, and the job is released by the time of the earlier answer, both
   get the same deadline.
   */
  lemma {:induction false} DeadlineAgreement(
      c: Config, states: seq<State>, events: seq<Event>, i: nat, k: nat, job: nat)
    requires c.Valid() && Rooted(c.topo) && Run(c, states, events) && i <= k < |events|
    requires LooksUp(c, events[i]) && LooksUp(c, events[k]) && Shape(c, states[i]) && Shape(c, states[k])
    requires Fin(states[i], Asker(c, events[i])) == job == Fin(states[k], Asker(c, events[k]))
    requires job in states[i + 1].history
    ensures Answer(c, states[i], events[i]) == Answer(c, states[k], events[k]) == states[i + 1].history[job]
  {
    WakeAnswers(c, states, events, i, job);
    HistoryGrows(c, states, events, i + 1, k + 1, job);
    WakeAnswers(c, states, events, k, job);
  }

  /** A wake for a job that is released by then answers with the deadline of its release. */
  lemma {:induction false} WakeAnswers(c: Config, states: seq<State>, events: seq<Event>, i: nat, job: nat)
    requires c.Valid() && Rooted(c.topo) && Run(c, states, events) && i < |events|
    requires LooksUp(c, events[i]) && Shape(c, states[i])
    requires Fin(states[i], Asker(c, events[i])) == job && job in states[i + 1].history
    ensures Answer(c, states[i], events[i]) == states[i + 1].history[job]
  {
    RunInv(c, states, events, i);
    assert RunStep(c, states, events, i);
    var ev := events[i];
    SchedulerWakeInv(c, states[i], Asker(c, ev), ev.TickEvent? || ev.release, ev.deadline);
  }

  /**
   A lookup of a job that is not released, even by the lookup itself, answers with the deadline computed for
   this wake; a lookup that releases the job answers with it and puts it on record.
   */
  lemma {:induction false} UnreleasedAnswer(c: Config, states: seq<State>, events: seq<Event>, i: nat, job: nat)
    requires c.Valid() && Rooted(c.topo) && Run(c, states, events) && i < |events|
    requires LooksUp(c, events[i]) && Shape(c, states[i]) && Fin(states[i], Asker(c, events[i])) == job
    requires job !in states[i].history
    ensures Answer(c, states[i], events[i]) == events[i].deadline
    ensures job in states[i + 1].history ==> states[i + 1].history[job] == events[i].deadline
    ensures job in states[i + 1].history <==>
      Asker(c, events[i]) == c.topo.source && (events[i].TickEvent? || events[i].release)
  {
    RunInv(c, states, events, i);
    assert RunStep(c, states, events, i);
    assert job !in states[i].dag.deadlines;
  }

  /** A job that every node has finished is gone for good and is never released again. */
  lemma {:induction false} NeverReleasedAgain(
      c: Config, states: seq<State>, events: seq<Event>, i: nat, k: nat, job: nat)
    requires c.Valid() && Rooted(c.topo) && Run(c, states, events) && i <= k < |states|
    requires job in states[i].history && job !in states[i].dag.deadlines
    ensures job !in states[k].dag.deadlines
    decreases k - i
  {
    if i < k {
      StaysGone(c, states, events, i, job);
      NeverReleasedAgain(c, states, events, i + 1, k, job);
    }
  }

  lemma {:induction false} StaysGone(c: Config, states: seq<State>, events: seq<Event>, i: nat, job: nat)
    requires c.Valid() && Rooted(c.topo) && Run(c, states, events) && i < |events|
    requires job in states[i].history && job !in states[i].dag.deadlines
    ensures job in states[i + 1].history && job !in states[i + 1].dag.deadlines
  {
    RunInv(c, states, events, i);
    RunInv(c, states, events, i + 1);
    assert RunStep(c, states, events, i);
    HistoryGrows(c, states, events, i, i + 1, job);
    FinGrows(c, states[i], events[i], states[i + 1]);
    MinFinishedGrows(states[i].dag.infos, states[i + 1].dag.infos);
  }

  lemma {:induction false} FinGrows(c: Config, s: State, ev: Event, s': State)
    requires c.Valid() && FlowInv(c, s) && Next(c, s, ev, s')
    ensures |s'.dag.infos| == |s.dag.infos|
    ensures forall v :: 0 <= v < |s.dag.infos| ==> s.dag.infos[v].numFinished <= s'.dag.infos[v].numFinished
  {
    if ev.AdvanceEvent? {
      assert NodeInv(c, s, ev.v);
      if !(s.reactors[ev.v].pc.Send? && s.reactors[ev.v].pc.i == |c.topo.outs[ev.v]|) {
        AdvanceDag(c, s, ev.v);
      }
    }
  }

  /** If a periodic source releases jobs, every job is released before a node checks its deadline. */
  ghost predicate CheckedAfterRelease(c: Config, s: State)
    requires c.Valid() && Shape(c, s)
  {
    c.Releases() && !c.free ==>
      forall v :: 0 <= v < c.topo.Nodes() && v != c.topo.source ==> CheckedReleased(s.reactors[v])
  }

  predicate CheckedReleased(x: Reactor) {
    x.pc.Exec? || x.pc.Send? || x.pc.Yielded? ==> x.released
  }

  lemma {:induction false} NextChecked(c: Config, rank: seq<nat>, s: State, ev: Event, s': State)
    requires c.Valid() && Ranked(c.topo, rank) && Inv(c, s) && CheckedAfterRelease(c, s)
    requires Next(c, s, ev, s') && Inv(c, s')
    ensures CheckedAfterRelease(c, s')
  {
    if c.Releases() && !c.free {
      forall v | 0 <= v < c.topo.Nodes() && v != c.topo.source ensures CheckedReleased(s'.reactors[v]) {
        assert CheckedReleased(s.reactors[v]) && NodeInv(c, s, v);
        if ev.AdvanceEvent? {
          AdvanceChecked(c, rank, s, ev.v, v);
        }
      }
    }
  }

  lemma {:induction false} AdvanceChecked(c: Config, rank: seq<nat>, s: State, v: nat, w: nat)
    requires c.Valid() && Ranked(c.topo, rank) && Inv(c, s) && c.Releases() && !c.free
    requires v < c.topo.Nodes() && Ready(s, v)
    requires w < c.topo.Nodes() && w != c.topo.source && CheckedReleased(s.reactors[w])
    requires Shape(c, Advance(c, s, v))
    ensures CheckedReleased(Advance(c, s, v).reactors[w])
  {
    assert NodeInv(c, s, v) && NodeInv(c, s, w);
    WithinFired(c, s, rank, w);
    if !(s.reactors[v].pc.Send? && s.reactors[v].pc.i == |c.topo.outs[v]|) {
      AdvanceDag(c, s, v);
      assert v != w ==> Advance(c, s, v).reactors[w].(asleep := false) == s.reactors[w].(asleep := false);
    }
  }

  lemma {:induction false} StepChecked(c: Config, states: seq<State>, events: seq<Event>, i: nat)
    requires Sound(c) && Run(c, states, events) && i < |events|
    requires Shape(c, states[i]) && CheckedAfterRelease(c, states[i])
    ensures Shape(c, states[i + 1]) && CheckedAfterRelease(c, states[i + 1])
  {
    RunInv(c, states, events, i);
    RunInv(c, states, events, i + 1);
    assert RunStep(c, states, events, i);
    var rank :| Ranked(c.topo, rank);
    NextChecked(c, rank, states[i], events[i], states[i + 1]);
  }

  lemma {:induction false} RunChecked(c: Config, states: seq<State>, events: seq<Event>, k: nat)
    requires Sound(c) && Run(c, states, events) && k < |states|
    ensures Shape(c, states[k]) && CheckedAfterRelease(c, states[k])
    decreases k
  {
    if k == 0 {
      assert states[0] == Init(c);
    } else {
      RunChecked(c, states, events, k - 1);
      StepChecked(c, states, events, k - 1);
    }
  }

  predicate Executes(s: State, v: nat)
    requires v < |s.reactors|
  {
    s.reactors[v].pc.Exec? || s.reactors[v].pc.Send?
  }

  /** Node `v` obtained the deadline of the job that it processes. */
  predicate HoldsDeadline(s: State, v: nat)
    requires v < |s.dag.infos|
  {
    s.dag.infos[v].deadlineJob == Some(Fin(s, v))
  }

  lemma {:induction false} HoldsDeadlineIff(c: Config, s: State, v: nat)
    requires c.Valid() && Inv(c, s) && CheckedAfterRelease(c, s) && v < c.topo.Nodes() && Executes(s, v)
    requires !c.free
    ensures Fin(s, v) in s.dag.deadlines <==> c.Releases()
    ensures c.Releases() ==> (HoldsDeadline(s, v) <==> c.edf[v])
  {
    assert FreshInv(c, s, v) && (v == c.topo.source || !c.Releases() || CheckedReleased(s.reactors[v]));
    assert MinFinished(s.dag.infos) <= s.dag.infos[v].numFinished;
  }

  /**
   With a periodic source, the job that a node executes is released, and its deadline still known,
   exactly if the source releases jobs; and then the node holds that deadline exactly if it is itself
   under a deadline scheduler. With any source, the source holds the deadline of its job if it is known.
   */
  lemma {:induction false} ExecutionDeadline(c: Config, states: seq<State>, events: seq<Event>, k: nat, v: nat)
    requires Sound(c) && Run(c, states, events) && k < |states| && v < c.topo.Nodes()
    ensures Shape(c, states[k])
    ensures !c.free && Executes(states[k], v) ==> (Fin(states[k], v) in states[k].dag.deadlines <==> c.Releases())
    ensures !c.free && Executes(states[k], v) && c.Releases() ==> (HoldsDeadline(states[k], v) <==> c.edf[v])
    ensures v == c.topo.source && Fin(states[k], v) in states[k].dag.deadlines ==> HoldsDeadline(states[k], v)
    ensures !c.Releases() ==> states[k].dag.deadlines == map[]
  {
    RunInv(c, states, events, k);
    RunChecked(c, states, events, k);
    assert FreshInv(c, states[k], c.topo.source);
    if !c.free && Executes(states[k], v) {
      HoldsDeadlineIff(c, states[k], v);
    }
  }

  /** If node `v` executes a job whose deadline is known, it holds that deadline. */
  ghost predicate Fresh(c: Config, s: State, v: nat) {
    && Shape(c, s) && v < c.topo.Nodes()
    && (Executes(s, v) && Fin(s, v) in s.dag.deadlines ==> HoldsDeadline(s, v))
  }

  /** A run with one more step. */
  lemma {:induction false} Extend(c: Config, states: seq<State>, events: seq<Event>, ev: Event, s': State)
    requires c.Valid() && Run(c, states, events) && Shape(c, states[|events|]) && Next(c, states[|events|], ev, s')
    ensures Run(c, states + [s'], events + [ev])
  {
    var ss, es := states + [s'], events + [ev];
    forall k | 0 <= k < |es| ensures RunStep(c, ss, es, k) {
      if k < |events| {
        assert RunStep(c, states, events, k);
      }
    }
  }

  /** The count of fired jobs changes only when the source takes up its next job. */
  lemma {:induction false} FiredKept(c: Config, s: State, ev: Event, s': State)
    requires c.Valid() && FlowInv(c, s) && Next(c, s, ev, s') && !Fires(ev) && FlowInv(c, s')
    ensures Fired(c, s') == Fired(c, s)
  {
    assert NodeInv(c, s, c.topo.source) && NodeInv(c, s', c.topo.source);
    if ev.AdvanceEvent? {
      assert NodeInv(c, s, ev.v);
      if !(s.reactors[ev.v].pc.Send? && s.reactors[ev.v].pc.i == |c.topo.outs[ev.v]|) {
        AdvanceDag(c, s, ev.v);
      }
    }
  }

  /** As long as the pipeline is not quiescent, it can take a step of its own. */
  lemma {:induction false} InternalStep(c: Config, s: State) returns (ev: Event, s': State)
    requires c.Valid() && Shape(c, s) && !Quiescent(c, s)
    ensures Internal(s, ev) && Next(c, s, ev, s') && !Fires(ev) && s'.history == s.history
  {
    var v :| 0 <= v < c.topo.Nodes() && !s.reactors[v].asleep && s.reactors[v].pc != AwaitTick(false);
    if s.reactors[v].pc == Yielded(false) {
      ev, s' := WakeEvent(v, false, 0), Wake(c, s, v, false, 0);
    } else {
      ev, s' := AdvanceEvent(v), Advance(c, s, v);
    }
  }

  /** Every run can go on, without a new job of the source, until all fired jobs are finished. */
  lemma {:induction false} CanDrain(c: Config, states: seq<State>, events: seq<Event>, fuel: nat)
    returns (ss: seq<State>, es: seq<Event>)
    requires Sound(c) && Run(c, states, events) && Shape(c, states[|events|])
    requires TotalWork(c, states[|events|]) <= fuel
    ensures Run(c, ss, es) && Shape(c, ss[|es|]) && Drained(c, ss[|es|]) && Quiescent(c, ss[|es|])
    ensures Fired(c, ss[|es|]) == Fired(c, states[|events|]) && ss[|es|].history == states[|events|].history
    ensures |es| >= |events| && ss[..|states|] == states && es[..|events|] == events
    decreases fuel
  {
    var s := states[|events|];
    NeverAllAsleep(c, states, events, |events|);
    if Quiescent(c, s) {
      ss, es := states, events;
    } else {
      var ev, s' := DrainStep(c, states, events);
      ss, es := CanDrain(c, states + [s'], events + [ev], fuel - 1);
      assert ss[..|states|] == (states + [s'])[..|states|] && es[..|events|] == (events + [ev])[..|events|];
    }
  }

  lemma {:induction false} DrainStep(c: Config, states: seq<State>, events: seq<Event>) returns (ev: Event, s': State)
    requires Sound(c) && Run(c, states, events) && Shape(c, states[|events|]) && !Quiescent(c, states[|events|])
    ensures Run(c, states + [s'], events + [ev]) && Shape(c, s') && Fired(c, s') == Fired(c, states[|events|])
    ensures s'.history == states[|events|].history
    ensures 0 <= TotalWork(c, s') < TotalWork(c, states[|events|])
  {
    var s := states[|events|];
    RunInv(c, states, events, |events|);
    ev, s' := InternalStep(c, s);
    Extend(c, states, events, ev, s');
    var rank :| Ranked(c.topo, rank);
    StepWork(c, rank, s, ev, s');
    FiredKept(c, s, ev, s');
    TotalWorkNonNegative(c, s');
  }

  /** A node that finishes a job was executing it. */
  lemma {:induction false} FinishedInRun(c: Config, states: seq<State>, events: seq<Event>, k: nat, v: nat)
    returns (i: nat)
    requires c.Valid() && Rooted(c.topo) && Run(c, states, events) && k < |states| && v < c.topo.Nodes()
    requires Shape(c, states[k]) && Fin(states[k], v) > 0
    ensures i < k && Shape(c, states[i]) && Executes(states[i], v)
  {
    assert states[0] == Init(c);
    if k > 0 {
      var before := FinishedByStep(c, states, events, k - 1, v);
      if before {
        i := FinishedInRun(c, states, events, k - 1, v);
      } else {
        i := k - 1;
      }
    }
  }

  lemma {:induction false} FinishedByStep(c: Config, states: seq<State>, events: seq<Event>, i: nat, v: nat)
    returns (before: bool)
    requires c.Valid() && Rooted(c.topo) && Run(c, states, events) && i < |events| && v < c.topo.Nodes()
    requires Shape(c, states[i + 1]) && Fin(states[i + 1], v) > 0
    ensures Shape(c, states[i])
    ensures if before then Fin(states[i], v) > 0 else Executes(states[i], v)
  {
    RunInv(c, states, events, i);
    assert RunStep(c, states, events, i);
    before := Fin(states[i], v) > 0;
    if !before {
      FinishMoves(c, states[i], events[i], states[i + 1], v);
    }
  }

  lemma {:induction false} FinishMoves(c: Config, s: State, ev: Event, s': State, v: nat)
    requires c.Valid() && FlowInv(c, s) && Next(c, s, ev, s') && v < c.topo.Nodes() && Shape(c, s')
    requires Fin(s', v) != Fin(s, v)
    ensures Executes(s, v)
  {
    if ev.AdvanceEvent? {
      assert NodeInv(c, s, ev.v);
      if !(s.reactors[ev.v].pc.Send? && s.reactors[ev.v].pc.i == |c.topo.outs[ev.v]|) {
        AdvanceDag(c, s, ev.v);
      }
    }
  }

  /**
   A run in which node `v`, which is under no deadline scheduler, executes a released job without
   holding its deadline: the source ticks once and the pipeline drains.
   */
  lemma {:induction false} StaleRun(c: Config, v: nat) returns (states: seq<State>, events: seq<Event>, k: nat)
    requires Sound(c) && !c.free && c.Releases() && v < c.topo.Nodes() && !c.edf[v]
    ensures Run(c, states, events) && k < |states| && Shape(c, states[k])
    ensures Executes(states[k], v) && Fin(states[k], v) in states[k].dag.deadlines && !HoldsDeadline(states[k], v)
  {
    var s0 := Init(c);
    InitFlow(c);
    var s1 := TickWake(c, s0, 0);
    assert Run(c, [s0], []);
    Extend(c, [s0], [], TickEvent(0), s1);
    TickFlow(c, s0, 0);
    var ss, es := [s0, s1], [TickEvent(0)];
    assert ss == [s0] + [s1] && es == [] + [TickEvent(0)];
    TotalWorkNonNegative(c, s1);
    states, events := CanDrain(c, ss, es, TotalWork(c, s1));
    k := FinishedInRun(c, states, events, |events|, v);
    ExecutionDeadline(c, states, events, k, v);
  }

  /**
   Job alignment. Over any fork and join shape, whatever a node has received for its `k`-th job
   derives from the `k`-th firing of the source, so no receive ever reports mismatched periods: each input
   holds the jobs from the one the node is to take next on, in order and without a gap.
   */
  lemma {:induction false} JobAlignment(c: Config, states: seq<State>, events: seq<Event>, k: nat, v: nat)
    requires c.Valid() && Rooted(c.topo) && Run(c, states, events) && k < |states| && v < c.topo.Nodes()
    ensures Shape(c, states[k])
    ensures !states[k].reactors[v].mismatch
    ensures states[k].reactors[v].tag.Some? ==> states[k].reactors[v].tag.value == Fin(states[k], v)
    ensures states[k].reactors[v].pc.Exec? || states[k].reactors[v].pc.Send? ==> states[k].reactors[v].tag.Some?
    ensures forall i :: 0 <= i < |c.topo.ins[v]| ==> InputAligned(c, states[k], v, i)
  {
    RunInv(c, states, events, k);
    assert NodeInv(c, states[k], v);
    forall i | 0 <= i < |c.topo.ins[v]| ensures InputAligned(c, states[k], v, i) {
      assert c.topo.InputAt(v, i) && LinkInv(c, states[k], c.topo.ins[v][i]);
    }
  }

  /** Input `i` of node `v` holds the jobs from the one that the node takes from it next on. */
  ghost predicate InputAligned(c: Config, s: State, v: nat, i: nat)
    requires Shape(c, s) && v < c.topo.Nodes() && i < |c.topo.ins[v]|
  {
    && c.topo.ins[v][i] < |s.inners|
    && var queue := s.inners[c.topo.ins[v][i]].queue;
       var next := TakenFrom(s.reactors[v].pc, Fin(s, v), i);
       queue == Tags(next, next + |queue|)
  }

  /**
   Deadlock freedom. In no state of a run are all reactors asleep; and when nobody but the source can
   move, every fired job is finished by every node and all queues are empty.
   */
  lemma {:induction false} NeverAllAsleep(c: Config, states: seq<State>, events: seq<Event>, k: nat)
    requires Sound(c) && Run(c, states, events) && k < |states|
    ensures Shape(c, states[k])
    ensures exists v :: 0 <= v < c.topo.Nodes() && !states[k].reactors[v].asleep
    ensures Quiescent(c, states[k]) ==> Drained(c, states[k])
  {
    RunInv(c, states, events, k);
    var rank :| Ranked(c.topo, rank);
    SomeoneAwake(c, states[k], rank);
    if Quiescent(c, states[k]) {
      QuiescentIsDrained(c, states[k], rank);
    }
  }

  /** The number of pipeline steps among `events[i..k]`. */
  ghost function InternalSteps(states: seq<State>, events: seq<Event>, i: nat, k: nat): (r: nat)
    requires i <= k <= |events| && |states| == |events| + 1
    decreases k - i
  {
    if i == k then 0 else (if Internal(states[i], events[i]) then 1 else 0) + InternalSteps(states, events, i + 1, k)
  }

  /** Every pipeline step uses up work, and no other step adds any unless the source takes up a job. */
  lemma {:induction false} StepWork(c: Config, rank: seq<nat>, s: State, ev: Event, s': State)
    requires c.Valid() && Ranked(c.topo, rank) && FlowInv(c, s) && Next(c, s, ev, s') && !Fires(ev)
    ensures FlowInv(c, s')
    ensures TotalWork(c, s') + (if Internal(s, ev) then 1 else 0) <= TotalWork(c, s)
  {
    match ev
    case AdvanceEvent(v) => AdvanceDrops(c, s, rank, v);
    case WakeEvent(v, release, deadline) =>
      if s.reactors[v].pc == Yielded(false) {
        YieldDrops(c, s, rank, v, release, deadline);
      } else {
        WakeDrops(c, s, v, release, deadline);
      }
  }

  lemma {:induction false} StepWorkInRun(c: Config, states: seq<State>, events: seq<Event>, i: nat)
    requires Sound(c) && Run(c, states, events) && i < |events| && !Fires(events[i])
    ensures Shape(c, states[i]) && Shape(c, states[i + 1])
    ensures TotalWork(c, states[i + 1]) + (if Internal(states[i], events[i]) then 1 else 0) <= TotalWork(c, states[i])
  {
    RunInv(c, states, events, i);
    assert RunStep(c, states, events, i);
    var rank :| Ranked(c.topo, rank);
    StepWork(c, rank, states[i], events[i], states[i + 1]);
  }

  lemma {:induction false} WorkBoundsSteps(c: Config, states: seq<State>, events: seq<Event>, i: nat, k: nat)
    requires Sound(c) && Run(c, states, events) && i <= k < |states| && Shape(c, states[k])
    requires forall j :: i <= j < k ==> !Fires(events[j])
    ensures Shape(c, states[i])
    ensures InternalSteps(states, events, i, k) + TotalWork(c, states[k]) <= TotalWork(c, states[i])
    decreases k - i
  {
    if i < k {
      StepWorkInRun(c, states, events, i);
      WorkBoundsSteps(c, states, events, i + 1, k);
    }
  }

  /** The pipeline can take a step of its own. */
  ghost predicate CanMove(c: Config, s: State)
    requires c.Valid() && Shape(c, s)
  {
    exists ev, s' :: Internal(s, ev) && Next(c, s, ev, s')
  }

  /**
   Draining. Until the source takes up its next job the pipeline can take only so many steps, whatever
   the order of the reactors and however the schedulers wake them; it can take one until it is
   quiescent; and then all fired jobs are finished.
   */
  lemma {:induction false} DrainsInRun(c: Config, states: seq<State>, events: seq<Event>, i: nat, k: nat)
    requires Sound(c) && Run(c, states, events) && i <= k < |states|
    requires forall j :: i <= j < k ==> !Fires(events[j])
    ensures Shape(c, states[i]) && Shape(c, states[k])
    ensures InternalSteps(states, events, i, k) <= TotalWork(c, states[i])
    ensures Drained(c, states[k]) || CanMove(c, states[k])
  {
    NeverAllAsleep(c, states, events, k);
    WorkBoundsSteps(c, states, events, i, k);
    RunInv(c, states, events, k);
    TotalWorkNonNegative(c, states[k]);
    if !Quiescent(c, states[k]) {
      var ev, s' := InternalStep(c, states[k]);
    }
  }
}
