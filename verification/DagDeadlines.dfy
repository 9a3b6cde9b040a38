/**
 The deadline bookkeeping of one DAG: how many jobs each node finished, which job's
 deadline its last wake obtained, and the shared map from job number to absolute deadline.
 */
module DagDeadlines {
  import opened Common

  datatype NodeInfo = NodeInfo(numFinished: nat, deadlineJob: Option<nat>)

  datatype DagState = DagState(infos: seq<NodeInfo>, deadlines: map<nat, nat>)

  /** The number of jobs finished by the slowest node. */
  function MinFinished(infos: seq<NodeInfo>): (r: nat)
    requires |infos| > 0
    ensures forall v :: 0 <= v < |infos| ==> r <= infos[v].numFinished
    ensures exists v :: 0 <= v < |infos| && infos[v].numFinished == r
  {
    if |infos| == 1 then infos[0].numFinished
    else
      var init := infos[..|infos| - 1];
      var r0 := MinFinished(init);
      var last := infos[|infos| - 1].numFinished;
      assert exists v :: 0 <= v < |init| && init[v].numFinished == r0 && infos[v] == init[v];
      if r0 <= last then r0 else last
  }

  /** The smallest key of a non-empty map. */
  ghost function FirstKey(m: map<nat, nat>): (k: nat)
    requires |m| > 0
    ensures k in m && forall j :: j in m ==> k <= j
  {
    KeyMinimumExists(m.Keys);
    var k :| k in m && forall j :: j in m ==> k <= j;
    k
  }

  lemma {:induction false} KeyMinimumExists(s: set<nat>)
    requires |s| > 0
    ensures exists k :: k in s && forall j :: j in s ==> k <= j
  {
    var k := Minimum(s);
    assert k in s && forall j :: j in s ==> k <= j;
  }

  lemma {:induction false} Minimum(s: set<nat>) returns (k: nat)
    requires s != {}
    ensures k in s && forall j :: j in s ==> k <= j
    decreases |s|
  {
    var x :| x in s;
    var t := s - {x};
    k := x;
    if t != {} {
      var m := Minimum(t);
      if m < x { k := m; }
    }
    forall j | j in s ensures k <= j {
      assert j == x || j in t;
    }
  }

  /** Keeps the `cap` largest keys of `m`. */
  ghost function Evict(m: map<nat, nat>, cap: nat): (r: map<nat, nat>)
    ensures |m| <= cap ==> r == m
    ensures |r| == Min(|m|, cap)
    ensures forall j :: j in r ==> j in m && r[j] == m[j]
    ensures forall j, k :: j in r && k in m && k !in r ==> k < j
    decreases |m|
  {
    if |m| <= cap then m
    else
      var k := FirstKey(m);
      var rest := m - {k};
      assert m == rest[k := m[k]];
      assert |rest| == |m| - 1;
      Evict(rest, cap)
  }

  /** The wake of node `v`: the deadline handed back and the new bookkeeping. */
  function GetOrRelease(s: DagState, v: nat, isSource: bool, release: bool, deadline: nat): (r: (DagState, nat))
    requires v < |s.infos|
  {
    var job := s.infos[v].numFinished;
    var rel := release && isSource;
    var known := job in s.deadlines;
    var infos' := s.infos[v := s.infos[v].(deadlineJob := if rel || known then Some(job) else None)];
    if known then (DagState(infos', s.deadlines), s.deadlines[job])
    else if rel then (DagState(infos', s.deadlines[job := deadline]), deadline)
    else (DagState(infos', s.deadlines), deadline)
  }

  /** The job of node `v` is released, but the last wake of `v` did not obtain its deadline. */
  predicate HasStaleDeadline(s: DagState, v: nat)
    requires v < |s.infos|
  {
    s.infos[v].deadlineJob != Some(s.infos[v].numFinished) && s.infos[v].numFinished in s.deadlines
  }

  /** Upper bound on the number of retained deadlines. */
  function Cap(nodes: nat, queueSize: nat): (r: nat) {
    nodes * (queueSize + 1) + 1
  }

  /** What remains of the deadlines once every job below `oldest` is finished by all nodes. */
  function Retain(deadlines: map<nat, nat>, oldest: nat): (r: map<nat, nat>)
    ensures forall j :: j in r <==> j in deadlines && j >= oldest
    ensures forall j :: j in r ==> r[j] == deadlines[j]
  {
    map j | j in deadlines && j >= oldest :: deadlines[j]
  }

  /** Node `v` finishes its current job. */
  ghost function FinishJob(s: DagState, v: nat, queueSize: nat): (r: DagState)
    requires v < |s.infos|
  {
    var infos' := s.infos[v := s.infos[v].(numFinished := s.infos[v].numFinished + 1)];
    var kept := Retain(s.deadlines, MinFinished(infos'));
    DagState(infos', Evict(kept, Cap(|infos'|, queueSize)))
  }
}
