/** Which DAGs are accepted, and which rule each of the others is told it breaks. */
module DagVerdict {
  import opened Common
  import opened DagGraph
  import opened DagAccept
  import opened DagTopology

  /** The graph with every edge turned round. */
  function Reversed(g: Graph): (r: Graph)
    ensures r.nodes == g.nodes && |r.edges| == |g.edges|
    ensures forall e :: 0 <= e < |g.edges| ==> r.edges[e].from == g.edges[e].to && r.edges[e].to == g.edges[e].from
  {
    Graph(g.nodes, seq(|g.edges|, e requires 0 <= e < |g.edges| =>
      Edge(g.edges[e].to, g.edges[e].from, g.edges[e].topic)))
  }

  function Backwards(p: seq<nat>): (r: seq<nat>)
    ensures |r| == |p| && forall k :: 0 <= k < |p| ==> r[k] == p[|p| - 1 - k]
  {
    seq(|p|, k requires 0 <= k < |p| => p[|p| - 1 - k])
  }

  lemma {:induction false} ReversedAdjacent(g: Graph, u: nat, v: nat)
    requires Adjacent(Reversed(g), u, v)
    ensures Adjacent(g, v, u)
  {
    var e :| 0 <= e < |Reversed(g).edges| && Reversed(g).edges[e].from == u && Reversed(g).edges[e].to == v;
    assert g.edges[e].from == v && g.edges[e].to == u;
  }

  lemma {:induction false} ReversedWalk(g: Graph, p: seq<nat>)
    requires Walk(Reversed(g), p)
    ensures Walk(g, Backwards(p))
  {
    var r := Backwards(p);
    forall k | 0 <= k < |r| - 1 ensures Adjacent(g, r[k], r[k + 1]) {
      var i := |p| - 2 - k;
      assert Adjacent(Reversed(g), p[i], p[i + 1]);
      ReversedAdjacent(g, p[i], p[i + 1]);
    }
  }

  lemma {:induction false} ReversedAcyclic(g: Graph)
    requires Acyclic(g)
    ensures Acyclic(Reversed(g))
  {
    forall p | Walk(Reversed(g), p) && |p| >= 2 ensures p[0] != p[|p| - 1] {
      ReversedWalk(g, p);
      assert Walk(g, Backwards(p));
    }
  }

  lemma {:induction false} ReversedSources(g: Graph)
    ensures Sources(Reversed(g)) == Sinks(g)
  {
    forall v: nat ensures EdgesInto(Reversed(g), v) == EdgesOutOf(g, v) {
    }
  }

  /** Following edges from any node of an acyclic graph leads to a node without outgoing edges. */
  lemma {:induction false} WalkToSink(g: Graph, v: nat) returns (p: seq<nat>)
    requires Acyclic(g) && InRange(g) && v < |g.nodes|
    ensures Walk(g, p) && p[0] == v && |p| <= |g.nodes| && p[|p| - 1] in Sinks(g)
  {
    ReversedAcyclic(g);
    ReversedSources(g);
    var r := WalkFromSource(Reversed(g), v);
    ReversedWalk(g, r);
    p := Backwards(r);
  }

  /** A non-empty acyclic graph with at most one sink has exactly one. */
  lemma {:induction false} UniqueSink(g: Graph) returns (t: nat)
    requires Acyclic(g) && InRange(g) && |g.nodes| >= 1 && |Sinks(g)| <= 1
    ensures Sinks(g) == {t} && t < |g.nodes|
  {
    ReversedAcyclic(g);
    ReversedSources(g);
    t := UniqueSource(Reversed(g));
  }

  ghost predicate Leads(g: Graph, u: nat, v: nat) {
    exists p :: Walk(g, p) && p[0] == u && p[|p| - 1] == v
  }

  ghost predicate OneSource(g: Graph) {
    exists s: nat :: s < |g.nodes| && Sources(g) == {s}
  }

  ghost predicate OneSink(g: Graph) {
    exists t: nat :: t < |g.nodes| && Sinks(g) == {t}
  }

  /** The rules on the graph alone leave the acyclic graphs with one source and one sink. */
  lemma {:induction false} ShapeExact(g: Graph)
    requires InRange(g)
    ensures WeaklyConnected(g) && Acyclic(g) && |Sources(g)| <= 1 && |Sinks(g)| <= 1
      <==> Acyclic(g) && OneSource(g) && OneSink(g)
  {
    if WeaklyConnected(g) && Acyclic(g) && |Sources(g)| <= 1 && |Sinks(g)| <= 1 {
      var s := UniqueSource(g);
      var t := UniqueSink(g);
    }
    if Acyclic(g) && OneSource(g) && OneSink(g) {
      ConnectivityIsImplied(g);
    }
  }

  lemma {:induction false} GraphExact(g: Graph, specs: seq<NodeSpec>)
    ensures ValidateGraph(g, specs) == Accept <==>
      && (WeaklyConnected(g) && Acyclic(g) && |Sources(g)| <= 1 && |Sinks(g)| <= 1)
      && DuplicateFree(specs) && EdgesConnected(g) && OneEdgePerTopic(g)
  {
  }

  /** What the accepted graphs are, in terms of the topics of the nodes. */
  lemma {:induction false} BuiltExact(specs: seq<NodeSpec>)
    ensures ValidateGraph(Build(specs), specs) == Accept <==>
      && Acyclic(Build(specs)) && OneSource(Build(specs)) && OneSink(Build(specs))
      && DuplicateFree(specs) && NoSelfMatch(specs) && Paired(specs)
  {
    BuildInRange(specs);
    GraphExact(Build(specs), specs);
    ShapeExact(Build(specs));
    ValidationExact(specs);
  }

  ghost predicate Registrable(regs: seq<Registration>) {
    && (forall v :: 0 <= v < |regs| ==> regs[v].WellFormed() && regs[v].ArityMatches())
    && (exists v :: 0 <= v < |regs| && !regs[v].kind.PeriodicReactor?)
  }

  lemma {:induction false} RegistrableExact(regs: seq<Registration>)
    ensures Accepted(regs) <==> Registrable(regs) && ValidateGraph(Build(Specs(regs)), Specs(regs)) == Accept
  {
  }

  /**
   A DAG is accepted exactly if every registration is well formed and of matching arity, one of them is not
   periodic, the graph has no cycle, one source and one sink, no node repeats a topic or subscribes to its
   own, and each topic has exactly one publisher and one subscriber.
   */
  lemma {:induction false} AcceptedExact(regs: seq<Registration>)
    ensures Accepted(regs) <==>
      var specs := Specs(regs);
      && Registrable(regs)
      && Acyclic(Build(specs)) && OneSource(Build(specs)) && OneSink(Build(specs))
      && DuplicateFree(specs) && NoSelfMatch(specs) && Paired(specs)
  {
    RegistrableExact(regs);
    BuiltExact(Specs(regs));
  }

  /** A sink that is the only one is reached from every node. */
  lemma {:induction false} SinkIsReached(g: Graph, t: nat)
    requires Acyclic(g) && InRange(g) && Sinks(g) == {t}
    ensures forall v :: 0 <= v < |g.nodes| ==> Leads(g, v, t)
  {
    forall v | 0 <= v < |g.nodes| ensures Leads(g, v, t) {
      var p := WalkToSink(g, v);
    }
  }

  /** The only sink of an accepted DAG is reached from every node. */
  lemma {:induction false} AcceptedSink(regs: seq<Registration>) returns (t: nat)
    requires Accepted(regs)
    ensures t < |regs| && Sinks(Build(Specs(regs))) == {t}
    ensures forall v :: 0 <= v < |regs| ==> Leads(Build(Specs(regs)), v, t)
  {
    AcceptedExact(regs);
    BuildInRange(Specs(regs));
    t :| t < |Build(Specs(regs)).nodes| && Sinks(Build(Specs(regs))) == {t};
    SinkIsReached(Build(Specs(regs)), t);
  }

  /** The rule that a verdict reports as broken. */
  ghost predicate Breaks(regs: seq<Registration>, r: Verdict) {
    var specs := Specs(regs);
    match r
    case Accept => false
    case ArityMismatch => exists v :: 0 <= v < |regs| && !regs[v].ArityMatches()
    case MissingPendingTasks => forall v :: 0 <= v < |regs| ==> regs[v].kind.PeriodicReactor?
    case _ => BreaksGraph(Build(specs), specs, r)
  }

  ghost predicate BreaksGraph(g: Graph, specs: seq<NodeSpec>, r: Verdict) {
    match r
    case NotWeaklyConnected =>
      g.nodes == [] || exists u, v :: 0 <= u < |g.nodes| && 0 <= v < |g.nodes| && !Linked(g, u, v)
    case ContainsCycle => exists p :: Walk(g, p) && |p| >= 2 && p[0] == p[|p| - 1]
    case MultipleSourceNodes => exists u, v :: u in Sources(g) && v in Sources(g) && u != v
    case MultipleSinkNodes => exists u, v :: u in Sinks(g) && v in Sinks(g) && u != v
    case NotConnected => exists v :: 0 <= v < |g.nodes| && !Connected(g, v)
    case DuplicateTopic =>
      exists v :: 0 <= v < |specs| && (!NoDup(specs[v].subs) || !NoDup(specs[v].pubs))
    case TopicHasMultiplePublishers =>
      exists d, e :: 0 <= d < |g.edges| && 0 <= e < |g.edges| && d != e && g.edges[d].topic == g.edges[e].topic
    case _ => false
  }

  /** The place of a rule in the order of checking. */
  function Place(r: Verdict): (k: nat) {
    match r
    case ArityMismatch => 0
    case MissingPendingTasks => 1
    case NotWeaklyConnected => 2
    case ContainsCycle => 3
    case MultipleSourceNodes => 4
    case MultipleSinkNodes => 5
    case NotConnected => 6
    case DuplicateTopic => 7
    case TopicHasMultiplePublishers => 8
    case Accept => 9
  }

  lemma {:induction false} TwoIffMore(s: set<nat>)
    ensures |s| > 1 <==> exists u, v :: u in s && v in s && u != v
  {
    if |s| > 1 {
      var u :| u in s;
      var rest := s - {u};
      assert |rest| == |s| - 1;
      var v :| v in rest;
    }
    if u, v :| u in s && v in s && u != v {
      SubsetCardinality({u, v}, s);
      assert |{u, v}| == 2;
    }
  }

  lemma {:induction false} RulesOfGraph(g: Graph, specs: seq<NodeSpec>)
    ensures BreaksGraph(g, specs, NotWeaklyConnected) <==> !WeaklyConnected(g)
    ensures BreaksGraph(g, specs, ContainsCycle) <==> !Acyclic(g)
    ensures BreaksGraph(g, specs, MultipleSourceNodes) <==> |Sources(g)| > 1
    ensures BreaksGraph(g, specs, MultipleSinkNodes) <==> |Sinks(g)| > 1
    ensures BreaksGraph(g, specs, NotConnected) <==> !EdgesConnected(g)
    ensures BreaksGraph(g, specs, DuplicateTopic) <==> !DuplicateFree(specs)
    ensures BreaksGraph(g, specs, TopicHasMultiplePublishers) <==> !OneEdgePerTopic(g)
  {
    TwoIffMore(Sources(g));
    TwoIffMore(Sinks(g));
  }

  /** Rule `r` is broken and none before it is, or no rule is broken. */
  ghost predicate FirstBroken(regs: seq<Registration>, r: Verdict) {
    && (r == Accept || Breaks(regs, r))
    && forall before: Verdict :: Place(before) < Place(r) ==> !Breaks(regs, before)
  }

  lemma {:induction false} GraphVerdict(g: Graph, specs: seq<NodeSpec>, before: Verdict)
    ensures var r := ValidateGraph(g, specs);
      && Place(r) >= 2 && (r == Accept || BreaksGraph(g, specs, r))
      && (Place(before) < Place(r) ==> !BreaksGraph(g, specs, before))
  {
    RulesOfGraph(g, specs);
    match before case _ =>
  }

  lemma {:induction false} VerdictIsFirst(regs: seq<Registration>)
    ensures FirstBroken(regs, Validate(regs))
  {
    var g, specs, r := Build(Specs(regs)), Specs(regs), Validate(regs);
    forall before: Verdict | Place(before) < Place(r) ensures !Breaks(regs, before) {
      GraphVerdict(g, specs, before);
    }
    GraphVerdict(g, specs, Accept);
  }

  lemma {:induction false} SamePlace(a: Verdict, b: Verdict)
    requires Place(a) == Place(b)
    ensures a == b
  {
  }

  lemma {:induction false} FirstIsUnique(regs: seq<Registration>, a: Verdict, b: Verdict)
    requires FirstBroken(regs, a) && FirstBroken(regs, b)
    ensures a == b
  {
    assert Place(a) < Place(b) ==> a != Accept && !Breaks(regs, a);
    assert Place(b) < Place(a) ==> b != Accept && !Breaks(regs, b);
    SamePlace(a, b);
  }

  /**
   The verdict is the first rule that is broken, in the order arity, pending tasks, connectivity, cycles,
   sources, sinks, degrees, repeated topics, publishers; and acceptance if none is.
   */
  lemma {:induction false} VerdictExact(regs: seq<Registration>, r: Verdict)
    ensures Validate(regs) == r <==> FirstBroken(regs, r)
  {
    VerdictIsFirst(regs);
    if FirstBroken(regs, r) {
      FirstIsUnique(regs, r, Validate(regs));
    }
  }
}
