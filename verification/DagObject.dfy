/** The `Dag` object whose graph, counters and deadlines are updated in place. */
module DagObject {
  import opened Common
  import opened DagDeadlines
  import opened DagGraph
  import opened DagAccept

  /** Queue size of the default channel attribute. */
  const DEFAULT_QUEUE_SIZE: nat := 10

  /** The smallest key of a non-empty map. */
  method FindFirstKey(m: map<nat, nat>) returns (k: nat)
    requires |m| > 0
    ensures k == FirstKey(m)
  {
    var rest := m.Keys;
    assert rest != {};
    k :| k in rest;
    rest := rest - {k};
    while rest != {}
      invariant rest <= m.Keys && k in m
      invariant forall j :: j in m && j !in rest ==> k <= j
      decreases |rest|
    {
      var j :| j in rest;
      if j < k { k := j; }
      rest := rest - {j};
    }
  }

  /** Removes the oldest deadlines until at most `cap` are left. */
  method PopBeyondCap(deadlines: map<nat, nat>, cap: nat) returns (m: map<nat, nat>)
    ensures m == Evict(deadlines, cap)
  {
    m := deadlines;
    while |m| > cap
      invariant Evict(m, cap) == Evict(deadlines, cap)
      decreases |m|
    {
      var k := FindFirstKey(m);
      assert m == (m - {k})[k := m[k]];
      assert |m - {k}| == |m| - 1;
      m := m - {k};
    }
  }

  /** The smallest number of finished jobs among all nodes. */
  method OldestUnfinished(infos: seq<NodeInfo>) returns (oldest: nat)
    requires |infos| > 0
    ensures oldest == MinFinished(infos)
  {
    oldest := infos[0].numFinished;
    for k := 1 to |infos|
      invariant oldest == MinFinished(infos[..k])
    {
      assert infos[..k + 1][..k] == infos[..k];
      if infos[k].numFinished < oldest { oldest := infos[k].numFinished; }
    }
    assert infos[..|infos|] == infos;
  }

  /** All edges between node `idx` and the nodes of the graph, itself included. */
  method CollectEdges(nodes: seq<NodeSpec>, idx: nat) returns (toAdd: seq<Edge>)
    requires idx < |nodes|
    ensures toAdd == EdgesToAdd(nodes, idx, |nodes|)
  {
    toAdd := [];
    for k := 0 to |nodes|
      invariant toAdd == EdgesToAdd(nodes, idx, k)
    {
      toAdd := toAdd + EdgesBetween(nodes, k, idx);
    }
  }

  /** The counters and deadlines after node `v` finishes its job. */
  method ComputeFinish(infos: seq<NodeInfo>, deadlines: map<nat, nat>, v: nat)
    returns (infos': seq<NodeInfo>, deadlines': map<nat, nat>)
    requires v < |infos|
    ensures |infos'| == |infos|
    ensures DagState(infos', deadlines') == FinishJob(DagState(infos, deadlines), v, DEFAULT_QUEUE_SIZE)
  {
    infos' := infos[v := infos[v].(numFinished := infos[v].numFinished + 1)];
    var oldest := OldestUnfinished(infos');
    deadlines' := PopBeyondCap(Retain(deadlines, oldest), Cap(|infos'|, DEFAULT_QUEUE_SIZE));
  }

  /** A topic list repeats a topic when it is longer than its set of topics. */
  predicate RepeatsTopic(topics: seq<Topic>) {
    |topics| != |set t | t in topics|
  }

  /** `dup` holds exactly the nodes whose topic list repeats a topic. */
  ghost predicate Records(dup: seq<nat>, lists: seq<seq<Topic>>) {
    forall v: nat :: v in dup <==> v < |lists| && RepeatsTopic(lists[v])
  }

  ghost function SubLists(specs: seq<NodeSpec>): seq<seq<Topic>> {
    seq(|specs|, v requires 0 <= v < |specs| => specs[v].subs)
  }

  ghost function PubLists(specs: seq<NodeSpec>): seq<seq<Topic>> {
    seq(|specs|, v requires 0 <= v < |specs| => specs[v].pubs)
  }

  lemma {:induction false} RecordsAppend(dup: seq<nat>, lists: seq<seq<Topic>>, topics: seq<Topic>)
    requires Records(dup, lists)
    ensures Records(if RepeatsTopic(topics) then dup + [|lists|] else dup, lists + [topics])
  {
    var dup' := if RepeatsTopic(topics) then dup + [|lists|] else dup;
    forall v: nat ensures v in dup' <==> v < |lists + [topics]| && RepeatsTopic((lists + [topics])[v]) {
      assert v in dup <==> v < |lists| && RepeatsTopic(lists[v]);
    }
  }

  /** The graph is the one built from the nodes, and the nodes that repeat a topic are on record. */
  ghost predicate Recorded(specs: seq<NodeSpec>, edges: seq<Edge>, dupSubs: seq<nat>, dupPubs: seq<nat>) {
    Graph(specs, edges) == Build(specs) && Records(dupSubs, SubLists(specs)) && Records(dupPubs, PubLists(specs))
  }

  lemma {:induction false} RecordedAppend(
      specs: seq<NodeSpec>, edges: seq<Edge>, dupSubs: seq<nat>, dupPubs: seq<nat>, spec: NodeSpec)
    requires Recorded(specs, edges, dupSubs, dupPubs)
    ensures Recorded(specs + [spec], AddNode(Graph(specs, edges), spec).edges,
                     if RepeatsTopic(spec.subs) then dupSubs + [|specs|] else dupSubs,
                     if RepeatsTopic(spec.pubs) then dupPubs + [|specs|] else dupPubs)
    ensures AddNode(Graph(specs, edges), spec)
      == Graph(specs + [spec], edges + EdgesToAdd(specs + [spec], |specs|, |specs| + 1))
  {
    var nodes := specs + [spec];
    assert nodes[..|nodes| - 1] == specs;
    RecordsAppend(dupSubs, SubLists(specs), spec.subs);
    RecordsAppend(dupPubs, PubLists(specs), spec.pubs);
    assert SubLists(nodes) == SubLists(specs) + [spec.subs] && PubLists(nodes) == PubLists(specs) + [spec.pubs];
  }

  class Dag {
    var specs: seq<NodeSpec>
    var edges: seq<Edge>
    var infos: seq<NodeInfo>
    var absoluteDeadlines: map<nat, nat>
    var duplicateSubscribe: seq<nat>
    var duplicatePublish: seq<nat>

    /** The graph is the one built from the registered nodes, and repeated topics are on record. */
    ghost predicate Registered()
      reads `specs, `edges, `duplicateSubscribe, `duplicatePublish
    {
      Recorded(specs, edges, duplicateSubscribe, duplicatePublish)
    }

    ghost predicate Valid()
      reads this
    {
      |infos| == |specs| && Registered()
    }

    ghost function State(): DagState
      reads `infos, `absoluteDeadlines
    {
      DagState(infos, absoluteDeadlines)
    }

    constructor ()
      ensures Valid() && specs == [] && infos == [] && absoluteDeadlines == map[]
    {
      specs, edges, infos, absoluteDeadlines := [], [], [], map[];
      duplicateSubscribe, duplicatePublish := [], [];
    }

    /** Adds a node, one edge for each topic match, and a record of repeated topics. */
    method AddNodeWithTopicEdges(subs: seq<Topic>, pubs: seq<Topic>) returns (idx: nat)
      requires Valid()
      modifies this
      ensures Valid()
      ensures idx == |old(specs)| && specs == old(specs) + [NodeSpec(subs, pubs)]
      ensures Graph(specs, edges) == AddNode(Graph(old(specs), old(edges)), NodeSpec(subs, pubs))
      ensures infos == old(infos) + [NodeInfo(0, None)] && absoluteDeadlines == old(absoluteDeadlines)
    {
      idx := |specs|;
      var nodes := specs + [NodeSpec(subs, pubs)];
      RecordedAppend(specs, edges, duplicateSubscribe, duplicatePublish, NodeSpec(subs, pubs));
      if RepeatsTopic(subs) { duplicateSubscribe := duplicateSubscribe + [idx]; }
      if RepeatsTopic(pubs) { duplicatePublish := duplicatePublish + [idx]; }
      var toAdd := CollectEdges(nodes, idx);
      specs, infos, edges := nodes, infos + [NodeInfo(0, None)], edges + toAdd;
    }

    /** The deadline of the job that node `v` processes next; the source may release it. */
    method GetOrReleaseAbsoluteDeadline(v: nat, release: bool, releaseDeadline: nat) returns (deadline: nat)
      requires Valid() && v < |specs|
      modifies this`infos, this`absoluteDeadlines
      ensures Valid()
      ensures (State(), deadline) ==
        GetOrRelease(old(State()), v, EdgesInto(Graph(specs, edges), v) == {}, release, releaseDeadline)
      ensures
        var job, known := old(infos)[v].numFinished, old(absoluteDeadlines);
        var releases := release && EdgesInto(Graph(specs, edges), v) == {};
        && deadline == (if job in known then known[job] else releaseDeadline)
        && absoluteDeadlines == (if releases && job !in known then known[job := releaseDeadline] else known)
        && infos[v].deadlineJob == (if job in absoluteDeadlines then Some(job) else None)
        && infos == old(infos)[v := NodeInfo(job, infos[v].deadlineJob)]
    {
      var isSource := forall e | 0 <= e < |edges| :: edges[e].to != v;
      assert isSource <==> EdgesInto(Graph(specs, edges), v) == {} by {
        if EdgesInto(Graph(specs, edges), v) == {} {
          forall e | 0 <= e < |edges| ensures edges[e].to != v { assert e !in EdgesInto(Graph(specs, edges), v); }
        }
      }
      var job := infos[v].numFinished;
      var rel := release && isSource;
      infos := infos[v := infos[v].(deadlineJob := if rel || job in absoluteDeadlines then Some(job) else None)];
      if job in absoluteDeadlines {
        return absoluteDeadlines[job];
      }
      if rel {
        absoluteDeadlines := absoluteDeadlines[job := releaseDeadline];
      }
      return releaseDeadline;
    }

    method CheckStaleDeadline(v: nat) returns (stale: bool)
      requires Valid() && v < |specs|
      ensures stale == HasStaleDeadline(State(), v)
      ensures stale <==> infos[v].numFinished in absoluteDeadlines && infos[v].deadlineJob != Some(infos[v].numFinished)
    {
      var job := infos[v].numFinished;
      stale := infos[v].deadlineJob != Some(job) && job in absoluteDeadlines;
    }

    /** Counts the job as finished, drops the deadlines below the slowest node, and enforces the cap. */
    method FinishJobOf(v: nat)
      requires v < |infos|
      modifies `infos, `absoluteDeadlines
      ensures |infos| == old(|infos|)
      ensures State() == FinishJob(old(State()), v, DEFAULT_QUEUE_SIZE)
      ensures infos == old(infos)[v := NodeInfo(old(infos)[v].numFinished + 1, old(infos)[v].deadlineJob)]
      ensures forall j :: j in absoluteDeadlines ==>
        j in old(absoluteDeadlines) && absoluteDeadlines[j] == old(absoluteDeadlines)[j] && MinFinished(infos) <= j
      ensures forall j, k ::
        j in old(absoluteDeadlines) && j !in absoluteDeadlines && MinFinished(infos) <= j && k in absoluteDeadlines ==>
          j < k && |absoluteDeadlines| == |infos| * (DEFAULT_QUEUE_SIZE + 1) + 1
      ensures |absoluteDeadlines| <= |infos| * (DEFAULT_QUEUE_SIZE + 1) + 1
    {
      infos, absoluteDeadlines := ComputeFinish(infos, absoluteDeadlines, v);
    }

    /** The duplicate check passes exactly when every topic list is duplicate-free. */
    method CheckForDuplicates() returns (ok: bool)
      requires Valid()
      ensures ok <==> DuplicateFree(specs)
    {
      ok := duplicateSubscribe == [] && duplicatePublish == [];
      forall v | 0 <= v < |specs|
        ensures RepeatsTopic(specs[v].subs) <==> v in duplicateSubscribe
        ensures RepeatsTopic(specs[v].pubs) <==> v in duplicatePublish
        ensures NoDup(specs[v].subs) <==> !RepeatsTopic(specs[v].subs)
        ensures NoDup(specs[v].pubs) <==> !RepeatsTopic(specs[v].pubs)
      {
        assert SubLists(specs)[v] == specs[v].subs && PubLists(specs)[v] == specs[v].pubs;
        DupCardinality(specs[v].subs);
        DupCardinality(specs[v].pubs);
      }
      if duplicateSubscribe != [] { assert duplicateSubscribe[0] in duplicateSubscribe; }
      if duplicatePublish != [] { assert duplicatePublish[0] in duplicatePublish; }
    }
  }
}
