/** How registering reactors builds the graph of a DAG: one edge for every topic match. */
module DagGraph {
  import opened Common

  type Topic = string

  datatype NodeSpec = NodeSpec(subs: seq<Topic>, pubs: seq<Topic>)

  datatype Edge = Edge(from: nat, to: nat, topic: Topic)

  datatype Graph = Graph(nodes: seq<NodeSpec>, edges: seq<Edge>)

  /** Edges `(from, to, t)` for each topic `t` of `topics` that is in `wanted`. */
  function MatchEdges(from: nat, to: nat, topics: seq<Topic>, wanted: seq<Topic>): (r: seq<Edge>) {
    if topics == [] then []
    else
      (if topics[0] in wanted then [Edge(from, to, topics[0])] else []) + MatchEdges(from, to, topics[1..], wanted)
  }

  /** The edges between the registered node `u` and the node `v` that is being added. */
  function EdgesBetween(nodes: seq<NodeSpec>, u: nat, v: nat): (r: seq<Edge>)
    requires u < |nodes| && v < |nodes|
  {
    MatchEdges(u, v, nodes[u].pubs, nodes[v].subs) + MatchEdges(v, u, nodes[u].subs, nodes[v].pubs)
  }

  /** The edges that adding node `v` creates with the nodes `0..k`. */
  function EdgesToAdd(nodes: seq<NodeSpec>, v: nat, k: nat): (r: seq<Edge>)
    requires v < |nodes| && k <= |nodes|
  {
    if k == 0 then [] else EdgesToAdd(nodes, v, k - 1) + EdgesBetween(nodes, k - 1, v)
  }

  function AddNode(g: Graph, spec: NodeSpec): (r: Graph) {
    var nodes := g.nodes + [spec];
    Graph(nodes, g.edges + EdgesToAdd(nodes, |g.nodes|, |nodes|))
  }

  /** The graph after registering `specs` in order. */
  function Build(specs: seq<NodeSpec>): (r: Graph)
    ensures r.nodes == specs
  {
    if specs == [] then Graph([], []) else AddNode(Build(specs[..|specs| - 1]), specs[|specs| - 1])
  }

  /**
   How often edge `e` belongs in the graph of `nodes`. For two different nodes it depends on
   the repetitions in the topic list of the one registered first only if that list
   repeats the topic. A node that subscribes to its own publication gets both kinds of edges.
   */
  function Multiplicity(nodes: seq<NodeSpec>, e: Edge): (r: nat)
    requires e.from < |nodes| && e.to < |nodes|
  {
    var pubs, subs := nodes[e.from].pubs, nodes[e.to].subs;
    if e.topic !in pubs || e.topic !in subs then 0
    else if e.from < e.to then Count(pubs, e.topic)
    else if e.from > e.to then Count(subs, e.topic)
    else Count(pubs, e.topic) + Count(subs, e.topic)
  }

  /** How often `x` occurs in `s`. */
  function Count<T(==)>(s: seq<T>, x: T): (r: nat) {
    if s == [] then 0 else (if s[0] == x then 1 else 0) + Count(s[1..], x)
  }

  lemma {:induction false} CountConcat<T>(a: seq<T>, b: seq<T>, x: T)
    ensures Count(a + b, x) == Count(a, x) + Count(b, x)
  {
    if a == [] {
      assert a + b == b;
    } else {
      assert (a + b)[1..] == a[1..] + b;
      CountConcat(a[1..], b, x);
    }
  }

  lemma {:induction false} CountPositive<T>(s: seq<T>, x: T)
    ensures Count(s, x) > 0 <==> x in s
  {
    if s != [] {
      CountPositive(s[1..], x);
    }
  }

  lemma {:induction false} MatchEdgesCount(from: nat, to: nat, topics: seq<Topic>, wanted: seq<Topic>, e: Edge)
    ensures Count(MatchEdges(from, to, topics, wanted), e)
         == if e.from == from && e.to == to && e.topic in wanted then Count(topics, e.topic) else 0
  {
    if topics != [] {
      MatchEdgesCount(from, to, topics[1..], wanted, e);
      var head := if topics[0] in wanted then [Edge(from, to, topics[0])] else [];
      CountConcat(head, MatchEdges(from, to, topics[1..], wanted), e);
    }
  }

  /** Edges that the addition of `v` creates with node `u`. */
  function AddedWith(nodes: seq<NodeSpec>, u: nat, v: nat, e: Edge): (r: nat)
    requires u < |nodes| && v < |nodes|
  {
    (if e.from == u && e.to == v && e.topic in nodes[v].subs then Count(nodes[u].pubs, e.topic) else 0)
    + (if e.from == v && e.to == u && e.topic in nodes[v].pubs then Count(nodes[u].subs, e.topic) else 0)
  }

  lemma {:induction false} EdgesBetweenCount(nodes: seq<NodeSpec>, u: nat, v: nat, e: Edge)
    requires u < |nodes| && v < |nodes|
    ensures Count(EdgesBetween(nodes, u, v), e) == AddedWith(nodes, u, v, e)
  {
    MatchEdgesCount(u, v, nodes[u].pubs, nodes[v].subs, e);
    MatchEdgesCount(v, u, nodes[u].subs, nodes[v].pubs, e);
    CountConcat(MatchEdges(u, v, nodes[u].pubs, nodes[v].subs), MatchEdges(v, u, nodes[u].subs, nodes[v].pubs), e);
  }


  /** The share of node `u` in the edges that adding `v` creates. */
  function Share(nodes: seq<NodeSpec>, v: nat, k: nat, e: Edge): (r: nat)
    requires v < |nodes| && k <= |nodes|
  {
    if e.to == v && e.from < k then AddedWith(nodes, e.from, v, e)
    else if e.from == v && e.to < k then AddedWith(nodes, e.to, v, e)
    else 0
  }

  lemma {:induction false} ShareStep(nodes: seq<NodeSpec>, v: nat, k: nat, e: Edge)
    requires v < |nodes| && 0 < k <= |nodes|
    ensures Share(nodes, v, k, e) == Share(nodes, v, k - 1, e) + AddedWith(nodes, k - 1, v, e)
  {
  }

  /** Among the nodes `0..k` only the other end of `e` contributes. */
  lemma {:induction false} EdgesToAddCount(nodes: seq<NodeSpec>, v: nat, k: nat, e: Edge)
    requires v < |nodes| && k <= |nodes|
    ensures Count(EdgesToAdd(nodes, v, k), e) == Share(nodes, v, k, e)
  {
    if k > 0 {
      EdgesToAddCount(nodes, v, k - 1, e);
      EdgesBetweenCount(nodes, k - 1, v, e);
      CountConcat(EdgesToAdd(nodes, v, k - 1), EdgesBetween(nodes, k - 1, v), e);
      ShareStep(nodes, v, k, e);
    }
  }

  /** Edges only join registered nodes. */
  ghost predicate InRange(g: Graph) {
    forall k :: 0 <= k < |g.edges| ==> g.edges[k].from < |g.nodes| && g.edges[k].to < |g.nodes|
  }

  lemma {:induction false} MatchEdgesRange(from: nat, to: nat, topics: seq<Topic>, wanted: seq<Topic>)
    ensures forall k :: 0 <= k < |MatchEdges(from, to, topics, wanted)| ==>
      var e := MatchEdges(from, to, topics, wanted)[k];
      e.from == from && e.to == to && e.topic in topics && e.topic in wanted
  {
    if topics != [] {
      MatchEdgesRange(from, to, topics[1..], wanted);
    }
  }

  lemma {:induction false} EdgesToAddRange(nodes: seq<NodeSpec>, v: nat, k: nat)
    requires v < |nodes| && k <= |nodes|
    ensures forall i :: 0 <= i < |EdgesToAdd(nodes, v, k)| ==>
      EdgesToAdd(nodes, v, k)[i].from < |nodes| && EdgesToAdd(nodes, v, k)[i].to < |nodes|
  {
    if k > 0 {
      EdgesToAddRange(nodes, v, k - 1);
      MatchEdgesRange(k - 1, v, nodes[k - 1].pubs, nodes[v].subs);
      MatchEdgesRange(v, k - 1, nodes[k - 1].subs, nodes[v].pubs);
    }
  }

  lemma {:induction false} BuildInRange(specs: seq<NodeSpec>)
    ensures InRange(Build(specs))
  {
    if specs != [] {
      BuildInRange(specs[..|specs| - 1]);
      EdgesToAddRange(specs, |specs| - 1, |specs|);
      assert specs[..|specs| - 1] + [specs[|specs| - 1]] == specs;
    }
  }

  lemma {:induction false} NotBuilt(specs: seq<NodeSpec>, e: Edge)
    requires InRange(Build(specs)) && !(e.from < |specs| && e.to < |specs|)
    ensures Count(Build(specs).edges, e) == 0
  {
    CountPositive(Build(specs).edges, e);
  }

  lemma {:induction false} LastShare(specs: seq<NodeSpec>, e: Edge)
    requires e.from < |specs| && e.to < |specs| && (e.from == |specs| - 1 || e.to == |specs| - 1)
    ensures Share(specs, |specs| - 1, |specs|, e) == Multiplicity(specs, e)
  {
    CountPositive(specs[e.from].pubs, e.topic);
    CountPositive(specs[e.to].subs, e.topic);
  }

  /** Exactness of incremental edge building: every edge is present exactly as often as it belongs. */
  lemma {:induction false} BuildExact(specs: seq<NodeSpec>, e: Edge)
    requires e.from < |specs| && e.to < |specs|
    ensures Count(Build(specs).edges, e) == Multiplicity(specs, e)
    decreases |specs|
  {
    var n := |specs| - 1;
    var front := specs[..n];
    assert front + [specs[n]] == specs;
    EdgesToAddCount(specs, n, |specs|, e);
    CountConcat(Build(front).edges, EdgesToAdd(specs, n, |specs|), e);
    BuildInRange(front);
    if e.from < n && e.to < n {
      BuildExact(front, e);
      assert front[e.from] == specs[e.from] && front[e.to] == specs[e.to];
      assert Multiplicity(front, e) == Multiplicity(specs, e);
    } else {
      NotBuilt(front, e);
      LastShare(specs, e);
    }
  }

  /** With duplicate-free topic lists the edges between different nodes are the topic matches, once each. */
  lemma {:induction false} BuildIsTopicMatch(specs: seq<NodeSpec>, e: Edge)
    requires e.from < |specs| && e.to < |specs| && e.from != e.to
    requires NoDup(specs[e.from].pubs) && NoDup(specs[e.to].subs)
    ensures Count(Build(specs).edges, e)
      == if e.topic in specs[e.from].pubs && e.topic in specs[e.to].subs then 1 else 0
  {
    BuildExact(specs, e);
    NoDupCount(specs[e.from].pubs, e.topic);
    NoDupCount(specs[e.to].subs, e.topic);
  }

  lemma {:induction false} NoDupCount(topics: seq<Topic>, t: Topic)
    requires NoDup(topics)
    ensures Count(topics, t) == if t in topics then 1 else 0
  {
    if topics != [] {
      assert NoDup(topics[1..]) by {
        forall i, j | 0 <= i < j < |topics[1..]| ensures topics[1..][i] != topics[1..][j] {
          assert topics[i + 1] != topics[j + 1];
        }
      }
      NoDupCount(topics[1..], t);
    }
  }
}
