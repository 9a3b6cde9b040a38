/** The validators that walk over the nodes and edges of a graph. */
module DagValidate {
  import opened Common
  import opened DagGraph
  import opened DagAccept

  ghost function Upto(es: set<nat>, k: nat): set<nat> {
    set e | e in es && e < k
  }

  lemma {:induction false} UptoNext(es: set<nat>, k: nat)
    ensures |Upto(es, k + 1)| == |Upto(es, k)| + (if k in es then 1 else 0)
  {
    assert Upto(es, k + 1) == if k in es then Upto(es, k) + {k} else Upto(es, k);
  }

  /** Number of edges into (`incoming`) or out of node `v`. */
  method CountNeighbors(g: Graph, v: nat, incoming: bool) returns (n: nat)
    ensures n == |if incoming then EdgesInto(g, v) else EdgesOutOf(g, v)|
  {
    ghost var es := if incoming then EdgesInto(g, v) else EdgesOutOf(g, v);
    n := 0;
    for k := 0 to |g.edges|
      invariant n == |Upto(es, k)|
    {
      UptoNext(es, k);
      if (if incoming then g.edges[k].to else g.edges[k].from) == v {
        n := n + 1;
      }
    }
    assert Upto(es, |g.edges|) == es;
  }

  datatype Missing = NoPublisherFound(v: nat) | NoSubscriberFound(v: nat)

  /** Node `v` alone passes the degree check in the given direction. */
  ghost predicate Fed(g: Graph, v: nat)
    requires v < |g.nodes|
  {
    |EdgesInto(g, v)| >= |g.nodes[v].subs|
  }

  /** The first node with fewer edges than topics, incoming before outgoing, if there is one. */
  method ValidateEdgeConnect(g: Graph) returns (err: Option<Missing>)
    ensures err.None? <==> EdgesConnected(g)
    ensures err.Some? ==>
      && err.value.v < |g.nodes|
      && (forall u :: 0 <= u < err.value.v ==> Connected(g, u))
      && (err.value.NoPublisherFound? <==> !Fed(g, err.value.v))
      && !Connected(g, err.value.v)
  {
    for v := 0 to |g.nodes|
      invariant forall u :: 0 <= u < v ==> Connected(g, u)
    {
      var i := CountNeighbors(g, v, true);
      if i < |g.nodes[v].subs| {
        assert !Connected(g, v);
        return Some(NoPublisherFound(v));
      }
      var o := CountNeighbors(g, v, false);
      if o < |g.nodes[v].pubs| {
        assert !Connected(g, v);
        return Some(NoSubscriberFound(v));
      }
    }
    return None;
  }

  ghost function EdgesOn(g: Graph, t: Topic): set<nat> {
    set e: nat | e < |g.edges| && g.edges[e].topic == t
  }

  /** How many of the first `k` edges carry each topic. */
  ghost predicate CountsUpto(g: Graph, counts: map<Topic, nat>, k: nat) {
    forall t :: (if t in counts then counts[t] else 0) == |Upto(EdgesOn(g, t), k)|
  }

  lemma {:induction false} CountNext(g: Graph, k: nat, t: Topic)
    requires k < |g.edges|
    ensures |Upto(EdgesOn(g, t), k + 1)| == |Upto(EdgesOn(g, t), k)| + (if g.edges[k].topic == t then 1 else 0)
  {
    UptoNext(EdgesOn(g, t), k);
  }

  /** The topics carried by more than one edge. */
  method ValidateSinglePublisherPerTopic(g: Graph) returns (multiple: set<Topic>)
    ensures forall t :: t in multiple <==> |EdgesOn(g, t)| > 1
    ensures multiple == {} <==> OneEdgePerTopic(g)
  {
    var counts: map<Topic, nat> := map[];
    assert CountsUpto(g, counts, 0) by {
      forall t ensures Upto(EdgesOn(g, t), 0) == {} {}
    }
    for k := 0 to |g.edges|
      invariant CountsUpto(g, counts, k)
    {
      var t := g.edges[k].topic;
      forall u ensures |Upto(EdgesOn(g, u), k + 1)| == |Upto(EdgesOn(g, u), k)| + (if t == u then 1 else 0) {
        CountNext(g, k, u);
      }
      counts := counts[t := (if t in counts then counts[t] else 0) + 1];
    }
    multiple := set t | t in counts && counts[t] > 1;
    forall t ensures t in multiple <==> |EdgesOn(g, t)| > 1 {
      assert Upto(EdgesOn(g, t), |g.edges|) == EdgesOn(g, t);
    }
    OneEdgeIff(g, multiple);
  }

  lemma {:induction false} OneEdgeIff(g: Graph, multiple: set<Topic>)
    requires forall t :: t in multiple <==> |EdgesOn(g, t)| > 1
    ensures multiple == {} <==> OneEdgePerTopic(g)
  {
    if multiple == {} {
      forall d, e | 0 <= d < |g.edges| && 0 <= e < |g.edges| && g.edges[d].topic == g.edges[e].topic ensures d == e {
        var es := EdgesOn(g, g.edges[d].topic);
        assert {d, e} <= es;
        SubsetCardinality({d, e}, es);
      }
    }
    if OneEdgePerTopic(g) {
      forall t ensures t !in multiple {
        var es := EdgesOn(g, t);
        if es != {} {
          var e :| e in es;
          assert es == {e};
        }
      }
    }
  }
}
