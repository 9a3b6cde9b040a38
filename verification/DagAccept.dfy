/** What passing the validation of a DAG means for its graph. */
module DagAccept {
  import opened Common
  import opened DagGraph

  /** Index set of the edges into, out of, or labelled with something. */
  ghost function EdgesInto(g: Graph, v: nat): set<nat> {
    set e: nat | e < |g.edges| && g.edges[e].to == v
  }

  ghost function EdgesOutOf(g: Graph, v: nat): set<nat> {
    set e: nat | e < |g.edges| && g.edges[e].from == v
  }

  /** A node has at least as many incoming (outgoing) edges as subscribed (published) topics. */
  ghost predicate Connected(g: Graph, v: nat)
    requires v < |g.nodes|
  {
    |EdgesInto(g, v)| >= |g.nodes[v].subs| && |EdgesOutOf(g, v)| >= |g.nodes[v].pubs|
  }

  ghost predicate EdgesConnected(g: Graph) {
    forall v :: 0 <= v < |g.nodes| ==> Connected(g, v)
  }

  ghost predicate DuplicateFree(specs: seq<NodeSpec>) {
    forall v :: 0 <= v < |specs| ==> NoDup(specs[v].subs) && NoDup(specs[v].pubs)
  }

  ghost predicate OneEdgePerTopic(g: Graph) {
    forall d, e :: 0 <= d < |g.edges| && 0 <= e < |g.edges| && g.edges[d].topic == g.edges[e].topic ==> d == e
  }

  ghost predicate NoSelfMatch(specs: seq<NodeSpec>) {
    forall v, t :: 0 <= v < |specs| && t in specs[v].pubs ==> t !in specs[v].subs
  }

  ghost predicate Publishes(specs: seq<NodeSpec>, u: nat, t: Topic) {
    u < |specs| && t in specs[u].pubs
  }

  ghost predicate Subscribes(specs: seq<NodeSpec>, u: nat, t: Topic) {
    u < |specs| && t in specs[u].subs
  }

  /** Every topic in use has exactly one publisher and exactly one subscriber. */
  ghost predicate Paired(specs: seq<NodeSpec>) {
    && (forall t, u, v :: Publishes(specs, u, t) && Publishes(specs, v, t) ==> u == v)
    && (forall t, u, v :: Subscribes(specs, u, t) && Subscribes(specs, v, t) ==> u == v)
    && (forall t, v :: Subscribes(specs, v, t) ==> exists u :: Publishes(specs, u, t))
    && (forall t, u :: Publishes(specs, u, t) ==> exists v :: Subscribes(specs, v, t))
  }

  /** An edge of a built graph is a topic match of registered nodes. */
  lemma {:induction false} BuiltEdge(specs: seq<NodeSpec>, e: nat)
    requires e < |Build(specs).edges|
    ensures var x := Build(specs).edges[e]; Publishes(specs, x.from, x.topic) && Subscribes(specs, x.to, x.topic)
  {
    var x := Build(specs).edges[e];
    BuildInRange(specs);
    BuildExact(specs, x);
    CountPositive(Build(specs).edges, x);
  }

  /** Every topic match of two different nodes is an edge. */
  lemma {:induction false} MatchIsEdge(specs: seq<NodeSpec>, u: nat, v: nat, t: Topic) returns (e: nat)
    requires u != v && Publishes(specs, u, t) && Subscribes(specs, v, t)
    ensures e < |Build(specs).edges| && Build(specs).edges[e] == Edge(u, v, t)
  {
    var x := Edge(u, v, t);
    BuildExact(specs, x);
    CountPositive(specs[u].pubs, t);
    CountPositive(specs[v].subs, t);
    CountPositive(Build(specs).edges, x);
    e :| 0 <= e < |Build(specs).edges| && Build(specs).edges[e] == x;
  }

  /** The topics on a set of edges. */
  ghost function TopicsOn(g: Graph, es: set<nat>): set<Topic>
    requires forall e :: e in es ==> e < |g.edges|
  {
    set e | e in es :: g.edges[e].topic
  }

  lemma {:induction false} TopicsOnCardinality(g: Graph, es: set<nat>)
    requires forall e :: e in es ==> e < |g.edges|
    ensures |TopicsOn(g, es)| <= |es|
    ensures OneEdgePerTopic(g) ==> |TopicsOn(g, es)| == |es|
    decreases |es|
  {
    if es != {} {
      var e :| e in es;
      var rest := es - {e};
      TopicsOnCardinality(g, rest);
      assert TopicsOn(g, es) == TopicsOn(g, rest) + {g.edges[e].topic};
      if OneEdgePerTopic(g) {
        assert g.edges[e].topic !in TopicsOn(g, rest);
      }
    }
  }

  lemma {:induction false} SubsetCardinality<T>(a: set<T>, b: set<T>)
    requires a <= b
    ensures |a| <= |b|
    ensures |a| >= |b| ==> a == b
  {
    assert b == a + (b - a);
    assert |b| == |a| + |b - a|;
    if |a| >= |b| {
      assert |b - a| == 0;
    }
  }

  /** Pigeonhole: with one edge per topic, enough edges cover every topic of the node. */
  lemma {:induction false} Covered(specs: seq<NodeSpec>, v: nat)
    requires v < |specs| && DuplicateFree(specs) && OneEdgePerTopic(Build(specs)) && Connected(Build(specs), v)
    ensures TopicsOn(Build(specs), EdgesInto(Build(specs), v)) == set t | t in specs[v].subs
    ensures TopicsOn(Build(specs), EdgesOutOf(Build(specs), v)) == set t | t in specs[v].pubs
  {
    var g := Build(specs);
    var ins, outs := EdgesInto(g, v), EdgesOutOf(g, v);
    forall e | 0 <= e < |g.edges|
      ensures Publishes(specs, g.edges[e].from, g.edges[e].topic)
      ensures Subscribes(specs, g.edges[e].to, g.edges[e].topic)
    {
      BuiltEdge(specs, e);
    }
    TopicsOnCardinality(g, ins);
    TopicsOnCardinality(g, outs);
    DupCardinality(specs[v].subs);
    DupCardinality(specs[v].pubs);
    SubsetCardinality(TopicsOn(g, ins), set t | t in specs[v].subs);
    SubsetCardinality(TopicsOn(g, outs), set t | t in specs[v].pubs);
  }

  /** The edge that brings topic `t` to its subscriber `v`. */
  lemma {:induction false} InputEdge(specs: seq<NodeSpec>, v: nat, t: Topic) returns (e: nat)
    requires DuplicateFree(specs) && OneEdgePerTopic(Build(specs)) && EdgesConnected(Build(specs))
    requires Subscribes(specs, v, t)
    ensures e < |Build(specs).edges| && Build(specs).edges[e].to == v && Build(specs).edges[e].topic == t
  {
    assert Connected(Build(specs), v);
    Covered(specs, v);
    assert t in TopicsOn(Build(specs), EdgesInto(Build(specs), v));
    e :| e in EdgesInto(Build(specs), v) && Build(specs).edges[e].topic == t;
  }

  /** The edge that takes topic `t` from its publisher `u`. */
  lemma {:induction false} OutputEdge(specs: seq<NodeSpec>, u: nat, t: Topic) returns (e: nat)
    requires DuplicateFree(specs) && OneEdgePerTopic(Build(specs)) && EdgesConnected(Build(specs))
    requires Publishes(specs, u, t)
    ensures e < |Build(specs).edges| && Build(specs).edges[e].from == u && Build(specs).edges[e].topic == t
  {
    assert Connected(Build(specs), u);
    Covered(specs, u);
    assert t in TopicsOn(Build(specs), EdgesOutOf(Build(specs), u));
    e :| e in EdgesOutOf(Build(specs), u) && Build(specs).edges[e].topic == t;
  }

  lemma {:induction false} ChecksImplyPaired(specs: seq<NodeSpec>)
    requires DuplicateFree(specs) && OneEdgePerTopic(Build(specs)) && EdgesConnected(Build(specs))
    ensures Paired(specs)
  {
    forall t, u, v | Publishes(specs, u, t) && Publishes(specs, v, t) ensures u == v {
      var d := OutputEdge(specs, u, t);
      var e := OutputEdge(specs, v, t);
    }
    forall t, u, v | Subscribes(specs, u, t) && Subscribes(specs, v, t) ensures u == v {
      var d := InputEdge(specs, u, t);
      var e := InputEdge(specs, v, t);
    }
    forall t, v | Subscribes(specs, v, t) ensures exists u :: Publishes(specs, u, t) {
      var e := InputEdge(specs, v, t);
      BuiltEdge(specs, e);
    }
    forall t, u | Publishes(specs, u, t) ensures exists v :: Subscribes(specs, v, t) {
      var e := OutputEdge(specs, u, t);
      BuiltEdge(specs, e);
    }
  }

  lemma {:induction false} PairedImpliesOneEdge(specs: seq<NodeSpec>)
    requires DuplicateFree(specs) && NoSelfMatch(specs) && Paired(specs)
    ensures OneEdgePerTopic(Build(specs))
  {
    var es := Build(specs).edges;
    forall d, e | 0 <= d < |es| && 0 <= e < |es| && es[d].topic == es[e].topic ensures d == e {
      BuiltEdge(specs, d);
      BuiltEdge(specs, e);
      assert es[d] == es[e];
      assert es[d].from != es[d].to;
      BuildIsTopicMatch(specs, es[d]);
      CountOnce(es, d, e);
    }
  }

  /** Two positions of the same element make it occur twice. */
  lemma {:induction false} CountOnce<T>(s: seq<T>, i: nat, j: nat)
    requires i < |s| && j < |s| && s[i] == s[j] && Count(s, s[i]) <= 1
    ensures i == j
  {
    if i > 0 && j > 0 {
      CountOnce(s[1..], i - 1, j - 1);
    } else {
      CountPositive(s[1..], s[0]);
      assert forall k :: 0 < k < |s| && s[k] == s[0] ==> s[1..][k - 1] == s[0];
    }
  }

  lemma {:induction false} PairedImpliesConnected(specs: seq<NodeSpec>, v: nat)
    requires DuplicateFree(specs) && NoSelfMatch(specs) && Paired(specs) && v < |specs|
    ensures Connected(Build(specs), v)
  {
    var g := Build(specs);
    var ins, outs := EdgesInto(g, v), EdgesOutOf(g, v);
    forall t | t in specs[v].subs ensures t in TopicsOn(g, ins) {
      assert Subscribes(specs, v, t);
      var u :| Publishes(specs, u, t);
      var e := MatchIsEdge(specs, u, v, t);
      assert e in ins;
    }
    forall t | t in specs[v].pubs ensures t in TopicsOn(g, outs) {
      assert Publishes(specs, v, t);
      var w :| Subscribes(specs, w, t);
      var e := MatchIsEdge(specs, v, w, t);
      assert e in outs;
    }
    TopicsOnCardinality(g, ins);
    TopicsOnCardinality(g, outs);
    DupCardinality(specs[v].subs);
    DupCardinality(specs[v].pubs);
    SubsetCardinality((set t | t in specs[v].subs), TopicsOn(g, ins));
    SubsetCardinality((set t | t in specs[v].pubs), TopicsOn(g, outs));
  }

  /** An element that stands at one position at most occurs once at most. */
  lemma {:induction false} AtMostOnce<T>(s: seq<T>, x: T)
    requires forall i, j :: 0 <= i < |s| && 0 <= j < |s| && s[i] == x && s[j] == x ==> i == j
    ensures Count(s, x) <= 1
  {
    if s != [] {
      var rest := s[1..];
      assert forall i :: 0 <= i < |rest| ==> rest[i] == s[i + 1];
      if s[0] == x {
        assert x !in rest;
        CountPositive(rest, x);
      } else {
        AtMostOnce(rest, x);
      }
    }
  }

  /** A node that subscribes to its own publication gets two edges for the topic. */
  lemma {:induction false} OneEdgeImpliesNoSelfMatch(specs: seq<NodeSpec>)
    requires OneEdgePerTopic(Build(specs))
    ensures NoSelfMatch(specs)
  {
    forall v, t | 0 <= v < |specs| && t in specs[v].pubs ensures t !in specs[v].subs {
      var x := Edge(v, v, t);
      BuildExact(specs, x);
      AtMostOnce(Build(specs).edges, x);
      CountPositive(specs[v].pubs, t);
      CountPositive(specs[v].subs, t);
    }
  }

  /**
   Validation exactness: the duplicate check, the degree check and the per-topic edge count pass together
   exactly when no node repeats a topic or subscribes to its own, and each topic has one publisher
   and one subscriber.
   */
  lemma {:induction false} ValidationExact(specs: seq<NodeSpec>)
    ensures DuplicateFree(specs) && EdgesConnected(Build(specs)) && OneEdgePerTopic(Build(specs))
      <==> DuplicateFree(specs) && NoSelfMatch(specs) && Paired(specs)
  {
    if DuplicateFree(specs) && EdgesConnected(Build(specs)) && OneEdgePerTopic(Build(specs)) {
      ChecksImplyPaired(specs);
      OneEdgeImpliesNoSelfMatch(specs);
    }
    if DuplicateFree(specs) && NoSelfMatch(specs) && Paired(specs) {
      PairedImpliesOneEdge(specs);
      forall v | 0 <= v < |specs| ensures Connected(Build(specs), v) {
        PairedImpliesConnected(specs, v);
      }
    }
  }
}
