/** The main results about every run of an accepted DAG, from the spawning of its reactors on. */
module DagResults {
  import opened DagDeadlines
  import opened DagRun
  import opened DagInvariant
  import opened DagLag
  import opened DagProgress
  import opened DagTheorems
  import opened DagSpawn
  import opened DagLoss
  import opened DagRunaway
  import opened DagBoot
  import opened DagTopology
  import opened DagGraph

  /** Reactors are spawned in the order of their registration, except that a periodic source comes last. */
  ghost function OrderOf(regs: seq<Registration>): (order: seq<nat>)
    requires Accepted(regs)
  {
    var n, s := |regs|, SourceOf(regs);
    if SpawnSucceeds(regs) then seq(n, i requires 0 <= i < n => if i < s then i else if i < n - 1 then i + 1 else s)
    else seq(n, i requires 0 <= i < n => i)
  }

  /** The source is the last reactor to be spawned. */
  ghost predicate LastSpawned(regs: seq<Registration>)
    requires Accepted(regs)
  {
    SpawnSucceeds(regs) || SourceOf(regs) == |regs| - 1
  }

  lemma {:induction false} AcceptedOrder(regs: seq<Registration>, q: nat)
    requires Accepted(regs) && q >= 1
    ensures var c := ConfigOf(regs, q);
      && Sound(c) && Order(c, OrderOf(regs)) && (SourceLast(c, OrderOf(regs)) <==> LastSpawned(regs))
      && (c.free <==> !SpawnSucceeds(regs))
  {
    AcceptedTopology(regs, q);
    AcceptedSourceTask(regs);
    OrderIsComplete(regs);
  }

  lemma {:induction false} OrderIsComplete(regs: seq<Registration>)
    requires Accepted(regs)
    ensures var order := OrderOf(regs);
      && |order| == |regs| > 0
      && (forall i :: 0 <= i < |order| ==> order[i] < |regs|)
      && (forall i, j :: 0 <= i < j < |order| ==> order[i] != order[j])
      && (forall v :: 0 <= v < |regs| ==> v in order)
      && (order[|order| - 1] == SourceOf(regs) <==> LastSpawned(regs))
  {
    var order, s := OrderOf(regs), SourceOf(regs);
    forall v | 0 <= v < |regs| ensures v in order {
      assert order[if !SpawnSucceeds(regs) || v < s then v else if v == s then |regs| - 1 else v - 1] == v;
    }
  }

  /** A run of an accepted DAG with queues of size `q`. */
  ghost predicate DagRuns(regs: seq<Registration>, q: nat, bs: seq<Boot>, es: seq<BootEvent>)
    requires Accepted(regs) && q >= 1
  {
    BootRun(ConfigOf(regs, q), OrderOf(regs), bs, es)
  }

  /**
   Nothing sent is lost. In all runs of an accepted DAG every message finds its subscriber, exactly if the
   source is periodic or was registered last.
   */
  lemma {:induction false} NoMessageLost(regs: seq<Registration>, q: nat)
    requires Accepted(regs) && q >= 1
    ensures NothingLost(ConfigOf(regs, q), OrderOf(regs)) <==> LastSpawned(regs)
  {
    AcceptedOrder(regs, q);
    NothingLostExact(ConfigOf(regs, q), OrderOf(regs));
  }

  /**
   Bounded lag and retention. In every run of an accepted DAG with `n` nodes, as long as no message has been
   lost, each node is at most `(n - 1) * (q + 1)` jobs behind the source, at most that many deadlines plus
   one are retained, which is below the cap, and the retained ones are exactly the released jobs that some
   node has not finished. If the source is spawned last, nothing is ever lost.
   */
  lemma {:induction false} LagAndRetention(
      regs: seq<Registration>, q: nat, bs: seq<Boot>, es: seq<BootEvent>, k: nat)
    requires Accepted(regs) && q >= 1 && DagRuns(regs, q, bs, es) && k < |bs|
    ensures LastSpawned(regs) ==> bs[k].lost == 0
    ensures bs[k].lost == 0 ==>
      var s := bs[k].inner;
      && BoundedLag(s, SourceOf(regs), |regs|, q)
      && |s.dag.deadlines| <= MaxLag(|regs|, q) + 1 < Cap(|regs|, q)
      && (forall job :: job in s.dag.deadlines <==> job in s.history && Unfinished(s, job))
  {
    NoneLost(regs, q, bs, es, k);
    if bs[k].lost == 0 {
      KeptUnlessLost(ConfigOf(regs, q), OrderOf(regs), bs, es, k);
    }
  }

  lemma {:induction false} NoneLost(regs: seq<Registration>, q: nat, bs: seq<Boot>, es: seq<BootEvent>, k: nat)
    requires Accepted(regs) && q >= 1 && DagRuns(regs, q, bs, es) && k < |bs|
    ensures Sound(ConfigOf(regs, q)) && (LastSpawned(regs) ==> bs[k].lost == 0)
  {
    AcceptedOrder(regs, q);
    if LastSpawned(regs) {
      SourceLastOrderly(ConfigOf(regs, q), OrderOf(regs), bs, es, k);
    }
  }

  /** The source is not periodic, and no reactor it sends to was registered before it. */
  ghost predicate SendsAhead(regs: seq<Registration>)
    requires Accepted(regs)
  {
    && !SpawnSucceeds(regs) && |regs| >= 2
    && forall v, t :: 0 <= v < SourceOf(regs) && t in regs[SourceOf(regs)].spec.pubs ==> t !in regs[v].spec.subs
  }

  lemma {:induction false} AheadIsUnheld(regs: seq<Registration>, q: nat)
    requires Accepted(regs) && q >= 1 && SendsAhead(regs)
    ensures Unheld(ConfigOf(regs, q), OrderOf(regs), SourceOf(regs))
  {
    var c, order, s := ConfigOf(regs, q), OrderOf(regs), SourceOf(regs);
    AcceptedOrder(regs, q);
    forall i | 0 <= i < |c.topo.outs[s]| ensures OutputLate(c, order, s, i) {
      LateReader(regs, q, i);
    }
  }

  lemma {:induction false} LateReader(regs: seq<Registration>, q: nat, i: nat)
    requires Accepted(regs) && q >= 1 && SendsAhead(regs) && i < |ConfigOf(regs, q).topo.outs[SourceOf(regs)]|
    ensures OutputLate(ConfigOf(regs, q), OrderOf(regs), SourceOf(regs), i)
  {
    var c, order, s := ConfigOf(regs, q), OrderOf(regs), SourceOf(regs);
    AcceptedFacts(regs);
    assert c.topo.OutputAt(s, i) && c.topo.LinkAt(c.topo.outs[s][i]);
    ReaderIsLater(Specs(regs), s, i);
    Unspawned(order, s + 1, c.topo.links[c.topo.outs[s][i]].dst);
  }

  lemma {:induction false} ReaderIsLater(specs: seq<NodeSpec>, s: nat, i: nat)
    requires Wired(specs) && s < |specs| && i < |TopologyOf(specs, s).outs[s]|
    requires forall v, t :: 0 <= v < s && t in specs[s].pubs ==> t !in specs[v].subs
    ensures var t := TopologyOf(specs, s); t.outs[s][i] < |t.links| && t.links[t.outs[s][i]].dst >= s
  {
    OutputReader(specs, s, s, i);
    assert specs[s].pubs[i] in specs[s].pubs;
  }

  lemma {:induction false} Unspawned(order: seq<nat>, n: nat, w: nat)
    requires n <= |order| && n <= w && forall j :: 0 <= j < n ==> order[j] == j
    ensures w !in order[..n]
  {
    assert forall j :: 0 <= j < n ==> order[..n][j] == order[j];
  }

  /**
   Otherwise the bound can fail: if the source is registered before all reactors it sends to, some run
   exceeds the bound, and if it is under a deadline scheduler, some released job that is not finished has
   lost its deadline.
   */
  lemma {:induction false} LagFails(regs: seq<Registration>, q: nat)
    returns (bs: seq<Boot>, es: seq<BootEvent>, job: nat)
    requires Accepted(regs) && q >= 1 && SendsAhead(regs)
    ensures DagRuns(regs, q, bs, es) && !BoundedLag(bs[|es|].inner, SourceOf(regs), |regs|, q)
    ensures regs[SourceOf(regs)].edf ==>
      var s := bs[|es|].inner; job in s.history && Unfinished(s, job) && job !in s.dag.deadlines
  {
    AheadIsUnheld(regs, q);
    bs, es, job := LagBroken(ConfigOf(regs, q), OrderOf(regs), SourceOf(regs));
  }

  /** No stale deadline at execution, by the schedulers of the reactors and the kind of the source. */
  lemma {:induction false} NoStaleDeadline(regs: seq<Registration>, q: nat)
    requires Accepted(regs) && q >= 1
    ensures StaleFree(ConfigOf(regs, q), OrderOf(regs)) <==>
      (regs[SourceOf(regs)].edf ==>
        (forall v :: 0 <= v < |regs| ==> regs[v].edf) && (SpawnSucceeds(regs) || |regs| == 1))
  {
    AcceptedOrder(regs, q);
    StaleFreeExact(ConfigOf(regs, q), OrderOf(regs));
  }

  /**
   Draining. Between two ticks the pipeline takes boundedly many steps and can take one until every fired
   job is finished and all queues are empty, exactly if the source is periodic.
   */
  lemma {:induction false} PipelineDrains(regs: seq<Registration>, q: nat)
    requires Accepted(regs) && q >= 1
    ensures Rests(ConfigOf(regs, q), OrderOf(regs)) <==> SpawnSucceeds(regs)
  {
    AcceptedOrder(regs, q);
    RestsExact(ConfigOf(regs, q), OrderOf(regs));
  }

  /**
   Deadlock freedom. In no state of a run in which no message has been lost are all reactors asleep; and
   when nobody but the source can move, every fired job is finished by every node and all queues are empty.
   */
  lemma {:induction false} DeadlockFree(
      regs: seq<Registration>, q: nat, bs: seq<Boot>, es: seq<BootEvent>, k: nat)
    requires Accepted(regs) && q >= 1 && DagRuns(regs, q, bs, es) && k < |bs|
    ensures LastSpawned(regs) ==> bs[k].lost == 0
    ensures bs[k].lost == 0 ==>
      var c := ConfigOf(regs, q);
      && Shape(c, bs[k].inner) && !AllAsleep(c, bs[k].inner)
      && (Quiescent(c, bs[k].inner) ==> Drained(c, bs[k].inner))
  {
    NoneLost(regs, q, bs, es, k);
    if bs[k].lost == 0 {
      NeverStuck(ConfigOf(regs, q), OrderOf(regs), bs, es, k);
    }
  }

  /** The relative deadline that lookups add to the time of a wake is set by a sink reactor. */
  ghost predicate SinkHasDeadline(regs: seq<Registration>) {
    exists v :: 0 <= v < |regs| && v in Sinks(Build(Specs(regs))) && regs[v].kind.SinkReactor?
  }

  /** No lookup of a run asks for a relative deadline that is not set. */
  ghost predicate LookupsAnswered(regs: seq<Registration>, q: nat)
    requires Accepted(regs) && q >= 1
  {
    forall bs: seq<Boot>, es: seq<BootEvent>, k: nat ::
      DagRuns(regs, q, bs, es) && k < |es| && es[k].Move? ==> Answered(regs, q, bs[k].inner, es[k].ev)
  }

  /** If the event looks a deadline up, the deadline is known or can be computed. */
  ghost predicate Answered(regs: seq<Registration>, q: nat, s: State, ev: Event)
    requires Accepted(regs) && q >= 1
  {
    var c := ConfigOf(regs, q);
    LooksUp(c, ev) && Shape(c, s) ==> Fin(s, Asker(c, ev)) in s.dag.deadlines || SinkHasDeadline(regs)
  }

  /**
   Every lookup of every run of an accepted DAG finds a deadline, exactly if no reactor is under a deadline
   scheduler or the sink was registered as a sink reactor.
   */
  lemma {:induction false} LookupsExact(regs: seq<Registration>, q: nat)
    requires Accepted(regs) && q >= 1
    ensures LookupsAnswered(regs, q) <==> (forall v :: 0 <= v < |regs| ==> !regs[v].edf) || SinkHasDeadline(regs)
  {
    if !SinkHasDeadline(regs) {
      if v :| 0 <= v < |regs| && regs[v].edf {
        LookupFails(regs, q, v);
      } else {
        forall s, ev ensures Answered(regs, q, s, ev) {
          assert !LooksUp(ConfigOf(regs, q), ev);
        }
      }
    }
  }

  lemma {:induction false} LookupFails(regs: seq<Registration>, q: nat, v: nat)
    requires Accepted(regs) && q >= 1 && v < |regs| && regs[v].edf && !SinkHasDeadline(regs)
    ensures !LookupsAnswered(regs, q)
  {
    var bs, es, k := FirstLookup(regs, q, v);
    assert !Answered(regs, q, bs[k].inner, es[k].ev);
  }

  /** The first wake of a reactor under a deadline scheduler asks for an unknown deadline. */
  lemma {:induction false} FirstLookup(regs: seq<Registration>, q: nat, v: nat)
    returns (bs: seq<Boot>, es: seq<BootEvent>, k: nat)
    requires Accepted(regs) && q >= 1 && v < |regs| && regs[v].edf
    ensures DagRuns(regs, q, bs, es) && k < |es| && es[k] == Move(WakeEvent(v, true, 0))
    ensures Shape(ConfigOf(regs, q), bs[k].inner) && bs[k].inner.dag.deadlines == map[]
  {
    var c, order := ConfigOf(regs, q), OrderOf(regs);
    AcceptedOrder(regs, q);
    var s, t := Init(c), Wake(c, Init(c), v, true, 0);
    bs, es := SpawnFirst(c, order, |order|);
    k := |es|;
    InitFlow(c);
    LiftStep(c, order, s, WakeEvent(v, true, 0), t);
    BootExtend(c, order, bs, es, Move(WakeEvent(v, true, 0)), Boot(t, |order|, 0));
    bs, es := bs + [Boot(t, |order|, 0)], es + [Move(WakeEvent(v, true, 0))];
  }
}
