/** From an accepted registration to the topology on which a DAG runs. */
module DagTopology {
  import opened Common
  import opened DagGraph
  import opened DagAccept
  import DagRun
  import DagLag
  import DagProgress

  ghost predicate Adjacent(g: Graph, u: nat, v: nat) {
    exists e :: 0 <= e < |g.edges| && g.edges[e].from == u && g.edges[e].to == v
  }

  ghost predicate Walk(g: Graph, p: seq<nat>) {
    && |p| >= 1
    && (forall k :: 0 <= k < |p| ==> p[k] < |g.nodes|)
    && (forall k :: 0 <= k < |p| - 1 ==> Adjacent(g, p[k], p[k + 1]))
  }

  /** No directed cycle. */
  ghost predicate Acyclic(g: Graph) {
    forall p {:trigger Walk(g, p)} :: Walk(g, p) && |p| >= 2 ==> p[0] != p[|p| - 1]
  }

  /** Nodes without incoming, or without outgoing, edges. */
  ghost function Sources(g: Graph): set<nat> {
    set v: nat | v < |g.nodes| && EdgesInto(g, v) == {}
  }

  ghost function Sinks(g: Graph): set<nat> {
    set v: nat | v < |g.nodes| && EdgesOutOf(g, v) == {}
  }

  ghost predicate UndirectedWalk(g: Graph, p: seq<nat>) {
    && |p| >= 1
    && (forall k :: 0 <= k < |p| ==> p[k] < |g.nodes|)
    && (forall k :: 0 <= k < |p| - 1 ==> Adjacent(g, p[k], p[k + 1]) || Adjacent(g, p[k + 1], p[k]))
  }

  ghost predicate Linked(g: Graph, u: nat, v: nat) {
    exists p {:trigger UndirectedWalk(g, p)} :: UndirectedWalk(g, p) && p[0] == u && p[|p| - 1] == v
  }

  /** There is exactly one weakly connected component. */
  ghost predicate WeaklyConnected(g: Graph) {
    |g.nodes| >= 1 && forall u, v :: 0 <= u < |g.nodes| && 0 <= v < |g.nodes| ==> Linked(g, u, v)
  }

  /** Without cycles a walk never meets a node twice. */
  lemma {:induction false} WalkDistinct(g: Graph, p: seq<nat>)
    requires Acyclic(g) && Walk(g, p)
    ensures NoDup(p)
  {
    forall i, j | 0 <= i < j < |p| ensures p[i] != p[j] {
      var c := p[i..j + 1];
      assert Walk(g, c) by {
        forall k | 0 <= k < |c| - 1 ensures Adjacent(g, c[k], c[k + 1]) {
          assert Adjacent(g, p[i + k], p[i + k + 1]);
        }
      }
    }
  }

  lemma {:induction false} WalkShort(g: Graph, p: seq<nat>)
    requires Acyclic(g) && Walk(g, p)
    ensures |p| <= |g.nodes|
  {
    WalkDistinct(g, p);
    DupCardinality(p);
    BoundedSetCardinality(set x | x in p, 0, |g.nodes|);
  }

  /** Some walk with `k` nodes ends at `v`. */
  ghost predicate WalkTo(g: Graph, v: nat, k: nat) {
    exists p {:trigger Walk(g, p)} :: Walk(g, p) && |p| == k && p[|p| - 1] == v
  }

  lemma {:induction false} LongestExists(g: Graph, v: nat, k: nat)
    requires v < |g.nodes| && k >= 1
    requires forall j :: j > k ==> !WalkTo(g, v, j)
    ensures exists r :: WalkTo(g, v, r) && forall j :: j > r ==> !WalkTo(g, v, j)
  {
    if !WalkTo(g, v, k) {
      if k == 1 {
        assert Walk(g, [v]);
        assert false;
      } else {
        LongestExists(g, v, k - 1);
      }
    }
  }

  lemma {:induction false} WalksBounded(g: Graph, v: nat)
    requires Acyclic(g)
    ensures forall j :: j > |g.nodes| ==> !WalkTo(g, v, j)
  {
    forall j | j > |g.nodes| ensures !WalkTo(g, v, j) {
      if WalkTo(g, v, j) {
        var p :| Walk(g, p) && |p| == j && p[|p| - 1] == v;
        WalkShort(g, p);
      }
    }
  }

  /** The number of nodes on the longest walk to `v`. */
  ghost function Longest(g: Graph, v: nat): (r: nat)
    requires Acyclic(g) && v < |g.nodes|
    ensures WalkTo(g, v, r) && forall j :: j > r ==> !WalkTo(g, v, j)
  {
    WalksBounded(g, v);
    LongestExists(g, v, |g.nodes|);
    var r :| WalkTo(g, v, r) && forall j :: j > r ==> !WalkTo(g, v, j);
    r
  }

  lemma {:induction false} LongestGrows(g: Graph, u: nat, v: nat)
    requires Acyclic(g) && u < |g.nodes| && v < |g.nodes| && Adjacent(g, u, v)
    ensures Longest(g, u) < Longest(g, v)
  {
    assert WalkTo(g, u, Longest(g, u));
    var p :| Walk(g, p) && |p| == Longest(g, u) && p[|p| - 1] == u;
    var p' := p + [v];
    assert Walk(g, p') by {
      forall k | 0 <= k < |p'| - 1 ensures Adjacent(g, p'[k], p'[k + 1]) {
        if k < |p| - 1 { assert Adjacent(g, p[k], p[k + 1]); }
      }
    }
    assert WalkTo(g, v, |p'|);
  }

  /** Following edges backwards from any node leads to a node without incoming edges. */
  lemma {:induction false} WalkFromSource(g: Graph, v: nat) returns (p: seq<nat>)
    requires Acyclic(g) && InRange(g) && v < |g.nodes|
    ensures Walk(g, p) && p[|p| - 1] == v && |p| <= |g.nodes| && p[0] in Sources(g)
  {
    assert WalkTo(g, v, Longest(g, v));
    p :| Walk(g, p) && |p| == Longest(g, v) && p[|p| - 1] == v;
    WalkShort(g, p);
    if EdgesInto(g, p[0]) != {} {
      var e :| e in EdgesInto(g, p[0]);
      var u := g.edges[e].from;
      var p' := [u] + p;
      assert Adjacent(g, u, p[0]);
      assert Walk(g, p') by {
        forall k | 0 <= k < |p'| - 1 ensures Adjacent(g, p'[k], p'[k + 1]) {
          if k > 0 { assert Adjacent(g, p[k - 1], p[k - 1 + 1]); }
        }
      }
      assert WalkTo(g, v, |p'|);
      assert false;
    }
  }

  /** A non-empty acyclic graph with at most one source has exactly one, and it reaches every node. */
  lemma {:induction false} UniqueSource(g: Graph) returns (s: nat)
    requires Acyclic(g) && InRange(g) && |g.nodes| >= 1 && |Sources(g)| <= 1
    ensures Sources(g) == {s} && s < |g.nodes|
  {
    var p := WalkFromSource(g, 0);
    s := p[0];
    assert {s} <= Sources(g);
    SubsetCardinality({s}, Sources(g));
  }

  /** Two walks from the same node join their ends: the first backwards, then the second. */
  lemma {:induction false} JoinWalks(g: Graph, p: seq<nat>, q: seq<nat>)
    requires Walk(g, p) && Walk(g, q) && p[0] == q[0]
    ensures Linked(g, p[|p| - 1], q[|q| - 1])
  {
    var r := seq(|p|, k requires 0 <= k < |p| => p[|p| - 1 - k]);
    var w := r + q[1..];
    forall k | 0 <= k < |w| - 1 ensures Adjacent(g, w[k], w[k + 1]) || Adjacent(g, w[k + 1], w[k]) {
      if k + 1 < |p| {
        var i := |p| - 2 - k;
        assert Adjacent(g, p[i], p[i + 1]);
      } else {
        var i := k + 1 - |p|;
        assert Adjacent(g, q[i], q[i + 1]);
        assert w[k + 1] == q[i + 1];
        assert w[k] == q[i];
      }
    }
    assert w[0] == p[|p| - 1] && w[|w| - 1] == q[|q| - 1];
    assert UndirectedWalk(g, w);
  }

  /** For such graphs the connectivity check is implied by the others. */
  lemma {:induction false} ConnectivityIsImplied(g: Graph)
    requires Acyclic(g) && InRange(g) && |g.nodes| >= 1 && |Sources(g)| <= 1
    ensures WeaklyConnected(g)
  {
    var s := UniqueSource(g);
    forall u, v | 0 <= u < |g.nodes| && 0 <= v < |g.nodes| ensures Linked(g, u, v) {
      var p := WalkFromSource(g, u);
      var q := WalkFromSource(g, v);
      JoinWalks(g, p, q);
    }
  }

  /**
   How a reactor was registered; `args` and `rets` are the sizes of its function's tuples, and `edf`
   says whether its scheduler is one of the two deadline schedulers.
   */
  datatype Kind = PeriodicReactor | PlainReactor | SinkReactor

  datatype Registration = Registration(kind: Kind, spec: NodeSpec, args: nat, rets: nat, edf: bool) {
    /** A periodic reactor takes no topics to subscribe to, and a sink none to publish. */
    predicate WellFormed() {
      (kind.PeriodicReactor? ==> spec.subs == []) && (kind.SinkReactor? ==> spec.pubs == [])
    }

    predicate ArityMatches() {
      (kind.PeriodicReactor? || args == |spec.subs|) && (kind.SinkReactor? || rets == |spec.pubs|)
    }
  }

  function Specs(regs: seq<Registration>): (r: seq<NodeSpec>)
    ensures |r| == |regs| && forall v :: 0 <= v < |regs| ==> r[v] == regs[v].spec
  {
    seq(|regs|, v requires 0 <= v < |regs| => regs[v].spec)
  }

  datatype Verdict =
    | Accept
    | ArityMismatch
    | MissingPendingTasks
    | NotWeaklyConnected
    | ContainsCycle
    | MultipleSourceNodes
    | MultipleSinkNodes
    | NotConnected
    | DuplicateTopic
    | TopicHasMultiplePublishers

  /** The rules for one DAG, in the order in which they are checked. */
  ghost function Validate(regs: seq<Registration>): (r: Verdict) {
    if exists v :: 0 <= v < |regs| && !regs[v].ArityMatches() then ArityMismatch
    else if forall v :: 0 <= v < |regs| ==> regs[v].kind.PeriodicReactor? then MissingPendingTasks
    else ValidateGraph(Build(Specs(regs)), Specs(regs))
  }

  ghost function ValidateGraph(g: Graph, specs: seq<NodeSpec>): (r: Verdict) {
    if !WeaklyConnected(g) then NotWeaklyConnected
    else if !Acyclic(g) then ContainsCycle
    else if |Sources(g)| > 1 then MultipleSourceNodes
    else if |Sinks(g)| > 1 then MultipleSinkNodes
    else if !EdgesConnected(g) then NotConnected
    else if !DuplicateFree(specs) then DuplicateTopic
    else if !OneEdgePerTopic(g) then TopicHasMultiplePublishers
    else Accept
  }

  ghost predicate Accepted(regs: seq<Registration>) {
    (forall v :: 0 <= v < |regs| ==> regs[v].WellFormed()) && Validate(regs) == Accept
  }

  /** Some edge with topic `t`; there is only one when the DAG is accepted. */
  ghost function EdgeWith(g: Graph, t: Topic): (e: nat)
    ensures (exists d: nat :: d < |g.edges| && g.edges[d].topic == t) ==> e < |g.edges| && g.edges[e].topic == t
  {
    if exists d: nat :: d < |g.edges| && g.edges[d].topic == t then
      var d: nat :| d < |g.edges| && g.edges[d].topic == t; d
    else 0
  }

  /** A position of `t` in `topics`. */
  ghost function Position(topics: seq<Topic>, t: Topic): (i: nat)
    ensures t in topics ==> i < |topics| && topics[i] == t
  {
    if t in topics then var i: nat :| i < |topics| && topics[i] == t; i else 0
  }

  ghost function LinkOf(specs: seq<NodeSpec>, x: Edge): DagRun.Link {
    DagRun.Link(
      x.from, if x.from < |specs| then Position(specs[x.from].pubs, x.topic) else 0,
      x.to, if x.to < |specs| then Position(specs[x.to].subs, x.topic) else 0)
  }

  ghost function EdgeList(g: Graph, topics: seq<Topic>): (r: seq<nat>)
    ensures |r| == |topics| && forall i :: 0 <= i < |topics| ==> r[i] == EdgeWith(g, topics[i])
  {
    seq(|topics|, i requires 0 <= i < |topics| => EdgeWith(g, topics[i]))
  }

  /** The links of the built graph, listed for each node in the order of its topics. */
  ghost function TopologyOf(specs: seq<NodeSpec>, source: nat): (r: DagRun.Topology)
    ensures r.Nodes() == |specs| && r.source == source
  {
    var g := Build(specs);
    DagRun.Topology(
      seq(|g.edges|, e requires 0 <= e < |g.edges| => LinkOf(specs, g.edges[e])),
      seq(|specs|, v requires 0 <= v < |specs| => EdgeList(g, specs[v].subs)),
      seq(|specs|, v requires 0 <= v < |specs| => EdgeList(g, specs[v].pubs)),
      source)
  }

  ghost predicate Wired(specs: seq<NodeSpec>) {
    DuplicateFree(specs) && OneEdgePerTopic(Build(specs)) && EdgesConnected(Build(specs))
  }

  lemma {:induction false} InputAt(specs: seq<NodeSpec>, source: nat, v: nat, i: nat)
    requires Wired(specs) && v < |specs| && i < |specs[v].subs|
    ensures TopologyOf(specs, source).InputAt(v, i)
  {
    var g := Build(specs);
    var t := specs[v].subs[i];
    var e := InputEdge(specs, v, t);
    assert EdgeWith(g, t) == e;
    assert Position(specs[v].subs, t) == i;
  }

  lemma {:induction false} OutputAt(specs: seq<NodeSpec>, source: nat, v: nat, i: nat)
    requires Wired(specs) && v < |specs| && i < |specs[v].pubs|
    ensures TopologyOf(specs, source).OutputAt(v, i)
  {
    var g := Build(specs);
    var t := specs[v].pubs[i];
    var e := OutputEdge(specs, v, t);
    assert EdgeWith(g, t) == e;
    assert Position(specs[v].pubs, t) == i;
  }

  /** The reader of an output subscribes to its topic. */
  lemma {:induction false} OutputReader(specs: seq<NodeSpec>, source: nat, v: nat, i: nat)
    requires Wired(specs) && v < |specs| && i < |specs[v].pubs|
    ensures var t := TopologyOf(specs, source);
      && i < |t.outs[v]| && t.outs[v][i] < |t.links| && t.links[t.outs[v][i]].dst < |specs|
      && specs[v].pubs[i] in specs[t.links[t.outs[v][i]].dst].subs
  {
    var g := Build(specs);
    var topic := specs[v].pubs[i];
    var e := OutputEdge(specs, v, topic);
    assert EdgeWith(g, topic) == e;
    BuiltEdge(specs, e);
  }

  lemma {:induction false} OnlyEdge(g: Graph, e: nat)
    requires OneEdgePerTopic(g) && e < |g.edges|
    ensures EdgeWith(g, g.edges[e].topic) == e
  {
  }

  lemma {:induction false} LinkAt(specs: seq<NodeSpec>, source: nat, e: nat)
    requires Wired(specs) && e < |Build(specs).edges|
    ensures TopologyOf(specs, source).LinkAt(e)
  {
    var g := Build(specs);
    var x := g.edges[e];
    BuiltEdge(specs, e);
    OnlyEdge(g, e);
    var l := LinkOf(specs, x);
    assert l.src == x.from && l.outPos < |specs[x.from].pubs| && specs[x.from].pubs[l.outPos] == x.topic;
    assert l.dst == x.to && l.inPos < |specs[x.to].subs| && specs[x.to].subs[l.inPos] == x.topic;
    assert EdgeList(g, specs[x.from].pubs)[l.outPos] == e && EdgeList(g, specs[x.to].subs)[l.inPos] == e;
  }

  /** Nodes without incoming edges are those without subscriptions. */
  lemma {:induction false} SourceIffNoInput(specs: seq<NodeSpec>, v: nat)
    requires Wired(specs) && v < |specs|
    ensures v in Sources(Build(specs)) <==> specs[v].subs == []
  {
    var g := Build(specs);
    Covered(specs, v);
    if specs[v].subs != [] {
      assert specs[v].subs[0] in TopicsOn(g, EdgesInto(g, v));
    }
    if EdgesInto(g, v) != {} {
      var e :| e in EdgesInto(g, v);
      assert g.edges[e].topic in TopicsOn(g, EdgesInto(g, v));
    }
  }

  lemma {:induction false} TopologyValid(specs: seq<NodeSpec>, source: nat)
    requires Wired(specs) && Sources(Build(specs)) == {source}
    ensures TopologyOf(specs, source).Valid()
  {
    var t := TopologyOf(specs, source);
    assert source in Sources(Build(specs));
    forall v | 0 <= v < |t.ins| ensures t.ins[v] == [] <==> v == source {
      SourceIffNoInput(specs, v);
    }
    forall v, i | 0 <= v < |t.ins| && 0 <= i < |t.ins[v]| ensures t.InputAt(v, i) {
      InputAt(specs, source, v, i);
    }
    forall v, i | 0 <= v < |t.outs| && 0 <= i < |t.outs[v]| ensures t.OutputAt(v, i) {
      OutputAt(specs, source, v, i);
    }
    forall e | 0 <= e < |t.links| ensures t.LinkAt(e) {
      LinkAt(specs, source, e);
    }
  }

  lemma {:induction false} TopologyRooted(specs: seq<NodeSpec>, source: nat)
    requires Sources(Build(specs)) == {source} && Acyclic(Build(specs))
    ensures DagLag.Rooted(TopologyOf(specs, source))
  {
    var g := Build(specs);
    var t := TopologyOf(specs, source);
    BuildInRange(specs);
    forall v | 0 <= v < t.Nodes() ensures DagLag.Reachable(t, v) {
      var p := WalkFromSource(g, v);
      forall k | 0 <= k < |p| - 1 ensures DagLag.Joined(t, p[k], p[k + 1]) {
        assert Adjacent(g, p[k], p[k + 1]);
        var e :| 0 <= e < |g.edges| && g.edges[e].from == p[k] && g.edges[e].to == p[k + 1];
        assert DagLag.IsLink(t, e, p[k], p[k + 1]);
      }
      assert DagLag.Reaches(t, p, v);
    }
  }

  ghost function Ranks(g: Graph): (r: seq<nat>)
    requires Acyclic(g)
    ensures |r| == |g.nodes| && forall v :: 0 <= v < |g.nodes| ==> r[v] == Longest(g, v)
  {
    seq(|g.nodes|, v requires 0 <= v < |g.nodes| => Longest(g, v))
  }

  lemma {:induction false} TopologyRanked(specs: seq<NodeSpec>, source: nat)
    requires Acyclic(Build(specs))
    ensures DagProgress.Ranked(TopologyOf(specs, source), Ranks(Build(specs)))
  {
    var g := Build(specs);
    var t := TopologyOf(specs, source);
    BuildInRange(specs);
    forall e | 0 <= e < |t.links|
      ensures t.links[e].src < |g.nodes| && t.links[e].dst < |g.nodes|
      ensures Ranks(g)[t.links[e].src] < Ranks(g)[t.links[e].dst]
    {
      var x := g.edges[e];
      assert Adjacent(g, x.from, x.to);
      LongestGrows(g, x.from, x.to);
    }
  }

  lemma {:induction false} ValidGraph(g: Graph, specs: seq<NodeSpec>)
    requires ValidateGraph(g, specs) == Accept
    ensures |g.nodes| > 0 && Acyclic(g) && |Sources(g)| <= 1
    ensures EdgesConnected(g) && DuplicateFree(specs) && OneEdgePerTopic(g)
  {
  }

  /** What acceptance says about the built graph. */
  lemma {:induction false} AcceptedFacts(regs: seq<Registration>)
    requires Accepted(regs)
    ensures |regs| > 0 && Wired(Specs(regs))
    ensures Acyclic(Build(Specs(regs))) && |Sources(Build(Specs(regs)))| <= 1
  {
    ValidGraph(Build(Specs(regs)), Specs(regs));
  }

  lemma {:induction false} HasSource(specs: seq<NodeSpec>)
    requires |specs| > 0 && Acyclic(Build(specs)) && |Sources(Build(specs))| <= 1
    ensures exists s: nat :: s < |specs| && Sources(Build(specs)) == {s}
  {
    BuildInRange(specs);
    var s := UniqueSource(Build(specs));
  }

  lemma {:induction false} AcceptedHasSource(regs: seq<Registration>)
    requires Accepted(regs)
    ensures exists s: nat :: s < |regs| && Sources(Build(Specs(regs))) == {s}
  {
    AcceptedFacts(regs);
    HasSource(Specs(regs));
  }

  /** The only node of an accepted DAG without inputs. */
  ghost function SourceOf(regs: seq<Registration>): (s: nat)
    requires Accepted(regs)
    ensures s < |regs| && Sources(Build(Specs(regs))) == {s}
  {
    AcceptedHasSource(regs);
    var s: nat :| s < |regs| && Sources(Build(Specs(regs))) == {s};
    s
  }

  function Schedulers(regs: seq<Registration>): (edf: seq<bool>)
    ensures |edf| == |regs| && forall v :: 0 <= v < |regs| ==> edf[v] == regs[v].edf
  {
    seq(|regs|, v requires 0 <= v < |regs| => regs[v].edf)
  }

  /** The configuration on which an accepted DAG runs. */
  ghost function ConfigOf(regs: seq<Registration>, q: nat): (c: DagRun.Config)
    requires Accepted(regs) && q >= 1
    ensures c.Valid() && c.topo.Nodes() == |regs| && c.topo.source == SourceOf(regs) && c.q == q
    ensures c.topo == TopologyOf(Specs(regs), SourceOf(regs))
    ensures c.edf == Schedulers(regs) && (c.free <==> !regs[SourceOf(regs)].kind.PeriodicReactor?)
  {
    AcceptedFacts(regs);
    TopologyValid(Specs(regs), SourceOf(regs));
    DagRun.Config(TopologyOf(Specs(regs), SourceOf(regs)), q, Schedulers(regs),
                  !regs[SourceOf(regs)].kind.PeriodicReactor?)
  }

  lemma {:induction false} TopologySound(specs: seq<NodeSpec>, source: nat, q: nat, edf: seq<bool>, free: bool)
    requires Wired(specs) && Acyclic(Build(specs)) && Sources(Build(specs)) == {source} && q >= 1 && |edf| == |specs|
    ensures DagProgress.Sound(DagRun.Config(TopologyOf(specs, source), q, edf, free))
  {
    TopologyValid(specs, source);
    TopologyRooted(specs, source);
    TopologyRanked(specs, source);
  }

  /** An accepted DAG is rooted at its only source and has no cycles. */
  lemma {:induction false} AcceptedTopology(regs: seq<Registration>, q: nat)
    requires Accepted(regs) && q >= 1
    ensures DagProgress.Sound(ConfigOf(regs, q))
  {
    AcceptedFacts(regs);
    TopologySound(Specs(regs), SourceOf(regs), q, Schedulers(regs), ConfigOf(regs, q).free);
  }

  /** Each topic of an accepted DAG joins one publisher to one subscriber. */
  lemma {:induction false} AcceptedIsPaired(regs: seq<Registration>)
    requires Accepted(regs)
    ensures Paired(Specs(regs))
  {
    AcceptedFacts(regs);
    ChecksImplyPaired(Specs(regs));
  }

  /** The spawned tasks: the last periodic registration is the source task, the others are pending. */
  ghost predicate SpawnSucceeds(regs: seq<Registration>) {
    exists v :: 0 <= v < |regs| && regs[v].kind.PeriodicReactor?
  }

  lemma {:induction false} PeriodicIsSource(regs: seq<Registration>, v: nat)
    requires Wired(Specs(regs)) && v < |regs| && regs[v].WellFormed() && regs[v].kind.PeriodicReactor?
    ensures v in Sources(Build(Specs(regs)))
  {
    SourceIffNoInput(Specs(regs), v);
  }

  /**
   At most one periodic reactor is registered, so no source task was overwritten, and spawning
   an accepted DAG finds its source task exactly when its only source is periodic.
   */
  lemma {:induction false} AcceptedSourceTask(regs: seq<Registration>)
    requires Accepted(regs)
    ensures forall v :: 0 <= v < |regs| && regs[v].kind.PeriodicReactor? ==> v == SourceOf(regs)
    ensures SpawnSucceeds(regs) <==> regs[SourceOf(regs)].kind.PeriodicReactor?
  {
    AcceptedFacts(regs);
    forall v | 0 <= v < |regs| && regs[v].kind.PeriodicReactor? ensures v == SourceOf(regs) {
      PeriodicIsSource(regs, v);
    }
  }

  lemma {:induction false} LoneNode(spec: NodeSpec)
    requires spec == NodeSpec([], [])
    ensures Build([spec]).nodes == [spec] && Build([spec]).edges == []
  {
    assert [spec][..0] == [];
    assert EdgesBetween([spec], 0, 0) == [];
    assert EdgesToAdd([spec], 0, 0) == [];
    assert EdgesToAdd([spec], 0, 1) == [];
    assert Build([spec]) == AddNode(Build([]), spec);
    assert Build([]) == Graph([], []);
    assert [] + [spec] == [spec];
  }

  lemma {:induction false} LoneNodeChecks(g: Graph)
    requires |g.nodes| == 1 && g.nodes[0] == NodeSpec([], []) && g.edges == []
    ensures Acyclic(g) && WeaklyConnected(g) && |Sources(g)| <= 1 && |Sinks(g)| <= 1
    ensures EdgesConnected(g) && OneEdgePerTopic(g) && ValidateGraph(g, g.nodes) == Accept
  {
    forall p | Walk(g, p) ensures |p| < 2 {
      assert 0 < |p| - 1 ==> Adjacent(g, p[0], p[0 + 1]);
    }
    assert Sources(g) == {0} && Sinks(g) == {0};
    ConnectivityIsImplied(g);
  }

  lemma {:induction false} LoneValid(spec: NodeSpec)
    requires spec == NodeSpec([], [])
    ensures ValidateGraph(Build([spec]), [spec]) == Accept
  {
    LoneNode(spec);
    LoneNodeChecks(Build([spec]));
  }

  lemma {:induction false} LoneVerdict(regs: seq<Registration>)
    requires |regs| == 1 && regs[0].ArityMatches() && !regs[0].kind.PeriodicReactor?
    ensures Validate(regs) == ValidateGraph(Build(Specs(regs)), Specs(regs))
  {
    assert !(exists v :: 0 <= v < |regs| && !regs[v].ArityMatches());
    assert !(forall v :: 0 <= v < |regs| ==> regs[v].kind.PeriodicReactor?);
  }

  lemma {:induction false} LoneAccepted(regs: seq<Registration>)
    requires |regs| == 1 && regs[0].WellFormed() && !regs[0].kind.PeriodicReactor? && Validate(regs) == Accept
    ensures Accepted(regs) && !SpawnSucceeds(regs)
  {
  }

  /** A DAG that passes every check and yet has no source task to spawn. */
  lemma {:induction false} AcceptedWithoutSourceTask() returns (regs: seq<Registration>)
    ensures Accepted(regs) && !SpawnSucceeds(regs)
  {
    var spec := NodeSpec([], []);
    regs := [Registration(PlainReactor, spec, 0, 0, false)];
    assert Specs(regs) == [spec];
    LoneValid(spec);
    LoneVerdict(regs);
    LoneAccepted(regs);
  }
}
