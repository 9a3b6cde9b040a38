/**
 A DAG of three reactors without a periodic source in which every reactor sleeps for ever: the source
 feeds a fork and a join, and loses messages to the fork while the join already holds it back.
 */
module DagStall {
  import opened Common
  import opened Subscriber
  import opened DagDeadlines
  import opened DagRun
  import opened DagLag
  import opened DagProgress
  import opened DagSpawn
  import opened DagBoot

  /** Reactor 0 sends to reactors 2 and 1, and reactor 1 joins reactors 2 and 0. */
  function Diamond(): (c: Config) {
    Config(
      Topology([Link(0, 0, 2, 0), Link(0, 1, 1, 1), Link(2, 0, 1, 0)], [[], [2, 1], [0]], [[0, 1], [], [2]], 0),
      1, [false, false, false], true)
  }

  lemma {:induction false} DiamondLinks()
    ensures var t := Diamond().topo;
      && t.InputAt(1, 0) && t.InputAt(1, 1) && t.InputAt(2, 0)
      && t.OutputAt(0, 0) && t.OutputAt(0, 1) && t.OutputAt(2, 0)
      && t.LinkAt(0) && t.LinkAt(1) && t.LinkAt(2)
  {
  }

  lemma {:induction false} DiamondValid()
    ensures Diamond().Valid()
  {
    var t := Diamond().topo;
    DiamondLinks();
    assert |t.ins| == 3 && t.ins[0] == [] && t.ins[1] == [2, 1] && t.ins[2] == [0];
    assert |t.outs| == 3 && t.outs[0] == [0, 1] && t.outs[1] == [] && t.outs[2] == [2];
    forall v, i | 0 <= v < |t.ins| && 0 <= i < |t.ins[v]| ensures t.InputAt(v, i) {
      assert (v == 1 && (i == 0 || i == 1)) || (v == 2 && i == 0);
    }
    forall v, i | 0 <= v < |t.outs| && 0 <= i < |t.outs[v]| ensures t.OutputAt(v, i) {
      assert (v == 0 && (i == 0 || i == 1)) || (v == 2 && i == 0);
    }
    forall e | 0 <= e < |t.links| ensures t.LinkAt(e) {
      assert e == 0 || e == 1 || e == 2;
    }
  }

  lemma {:induction false} DiamondRooted()
    ensures Rooted(Diamond().topo)
  {
    var t := Diamond().topo;
    assert IsLink(t, 0, 0, 2) && IsLink(t, 1, 0, 1);
    assert Joined(t, 0, 2) && Joined(t, 0, 1);
    forall v | 0 <= v < t.Nodes() ensures Reachable(t, v) {
      var p: seq<nat> := if v == 0 then [0] else [0, v];
      assert v == 0 || v == 1 || v == 2;
      assert Walk(t, p);
      assert Reaches(t, p, v);
    }
  }

  lemma {:induction false} DiamondSound()
    ensures Sound(Diamond())
  {
    DiamondValid();
    DiamondRooted();
    assert Ranked(Diamond().topo, [0, 2, 1]);
  }

  lemma {:induction false} DiamondOrder()
    ensures Diamond().Valid() && Order(Diamond(), [0, 1, 2])
  {
    DiamondValid();
    forall v | 0 <= v < 3 ensures v in [0, 1, 2] {
      assert [0, 1, 2][v] == v;
    }
  }

  /** Reactors 1 and 2 are at their first receive. */
  function Idle(asleep: bool): (r: Reactor) {
    Reactor(Recv(0), asleep, None, false, false)
  }

  function Source(pc: Pc, asleep: bool, job: nat): (r: Reactor) {
    Reactor(pc, asleep, if pc == AwaitTick(false) then None else Some(job), false, false)
  }

  /** The source is at `pc` of its job `job`; `fork`, `direct` and `join` are the three links. */
  function At(pc: Pc, asleep: bool, job: nat, sleeps1: bool, sleeps2: bool,
              fork: Inner<nat>, direct: Inner<nat>, join: Inner<nat>): (s: State)
  {
    State([Source(pc, asleep, job), Idle(sleeps1), Idle(sleeps2)], [fork, direct, join],
          DagState([NodeInfo(job, None), NodeInfo(0, None), NodeInfo(0, None)], map[]), job, map[])
  }

  /** The source awake, the others not begun, and only the direct link in use. */
  function Early(pc: Pc, job: nat, direct: Inner<nat>): (s: State) {
    At(pc, false, job, false, false, NewInner(), direct, NewInner())
  }

  lemma {:induction false} InitIs()
    ensures Diamond().Valid() && Init(Diamond()) == Early(AwaitTick(false), 0, NewInner())
  {
    DiamondValid();
  }

  /** The source moves through a step that is its own. */
  lemma {:induction false} OwnStep(pc: Pc, pc': Pc, job: nat, direct: Inner<nat>, lost: nat, ev: Event)
    requires |direct.queue| <= 1
    requires (pc == AwaitTick(false) && pc' == Exec && ev == BeginEvent)
      || (pc == Exec && pc' == Send(0) && ev == AdvanceEvent(0))
    ensures Diamond().Valid() && BootNext(Diamond(), [0, 1, 2], Boot(Early(pc, job, direct), 2, lost), Move(ev),
                     Boot(Early(pc', job, direct), 2, lost))
  {
    DiamondValid();
    var s, t := Early(pc, job, direct), Early(pc', job, direct);
    assert [0, 1, 2][..2] == [0, 1];
    if pc == Exec {
      assert s.reactors[0 := s.reactors[0].(pc := Send(0))] == t.reactors;
    } else {
      assert Begin(Diamond(), s).reactors == t.reactors;
    }
  }

  /** The message to reactor 2 is lost. */
  lemma {:induction false} LostStep(job: nat, direct: Inner<nat>, lost: nat)
    requires |direct.queue| <= 1
    ensures Diamond().Valid() && BootNext(Diamond(), [0, 1, 2], Boot(Early(Send(0), job, direct), 2, lost),
                     Move(AdvanceEvent(0)), Boot(Early(Send(1), job, direct), 2, lost + 1))
  {
    DiamondValid();
    DiamondLinks();
    assert [0, 1, 2][..2] == [0, 1];
    var s := Early(Send(0), job, direct);
    assert s.reactors[0 := s.reactors[0].(pc := Send(1))] == Early(Send(1), job, direct).reactors;
  }

  /** The direct link with its only slot taken, and then with the source parked on it. */
  function Full(): (x: Inner<nat>) {
    NewInner().(queue := [0])
  }

  function Blocked(): (x: Inner<nat>) {
    Full().(wakerPublishers := [0])
  }

  lemma {:induction false} DirectSends()
    ensures SendOrRegisterWaker<nat>(1, true, NewInner(), 0, 0) == Sent(Full(), Pushed, [])
    ensures SendOrRegisterWaker<nat>(1, true, Full(), 1, 0) == Sent(Blocked(), Parked, [])
  {
    assert [] + [0] == [0];
  }

  lemma {:induction false} PushStep(lost: nat)
    ensures Diamond().Valid() && BootNext(Diamond(), [0, 1, 2], Boot(Early(Send(1), 0, NewInner()), 2, lost),
                     Move(AdvanceEvent(0)), Boot(Early(Send(2), 0, Full()), 2, lost))
  {
    DiamondValid();
    DiamondLinks();
    assert [0, 1, 2][..2] == [0, 1];
    DirectSends();
    var c, s, t := Diamond(), Early(Send(1), 0, NewInner()), Early(Send(2), 0, Full());
    assert StepSend(c, s, 0, 1).reactors == t.reactors && StepSend(c, s, 0, 1).inners == t.inners;
  }

  lemma {:induction false} FinishStep(lost: nat)
    ensures Diamond().Valid() && BootNext(Diamond(), [0, 1, 2], Boot(Early(Send(2), 0, Full()), 2, lost),
                     Move(AdvanceEvent(0)), Boot(Early(AwaitTick(false), 1, Full()), 2, lost))
  {
    DiamondValid();
    assert [0, 1, 2][..2] == [0, 1];
    var c, s, t := Diamond(), Early(Send(2), 0, Full()), Early(AwaitTick(false), 1, Full());
    var f := StepFinish(c, s, 0);
    assert f.reactors == t.reactors && f.dag.infos == t.dag.infos;
    assert f.dag.deadlines == map[];
  }

  lemma {:induction false} ParkStep(lost: nat)
    ensures Diamond().Valid() && BootNext(Diamond(), [0, 1, 2], Boot(Early(Send(1), 1, Full()), 2, lost),
                     Move(AdvanceEvent(0)),
                     Boot(At(Send(1), true, 1, false, false, NewInner(), Blocked(), NewInner()), 2, lost))
  {
    DiamondValid();
    DiamondLinks();
    assert [0, 1, 2][..2] == [0, 1];
    DirectSends();
    var c, s := Diamond(), Early(Send(1), 1, Full());
    var t := At(Send(1), true, 1, false, false, NewInner(), Blocked(), NewInner());
    assert StepSend(c, s, 0, 1).reactors == t.reactors && StepSend(c, s, 0, 1).inners == t.inners;
  }

  /** A link on whose first message reactor `w` sleeps. */
  function Awaited(w: nat): (x: Inner<nat>) {
    NewInner().(wakerSubscriber := Some(w))
  }

  lemma {:induction false} JoinSleeps(lost: nat)
    ensures Diamond().Valid() && BootNext(Diamond(), [0, 1, 2],
                     Boot(At(Send(1), true, 1, false, false, NewInner(), Blocked(), NewInner()), 2, lost),
                     Move(AdvanceEvent(1)),
                     Boot(At(Send(1), true, 1, true, false, NewInner(), Blocked(), Awaited(1)), 2, lost))
  {
    DiamondValid();
    DiamondLinks();
    assert [0, 1, 2][..2] == [0, 1] && [0, 1][1] == 1;
    var c, s := Diamond(), At(Send(1), true, 1, false, false, NewInner(), Blocked(), NewInner());
    var t := At(Send(1), true, 1, true, false, NewInner(), Blocked(), Awaited(1));
    assert StepRecv(c, s, 1, 0).reactors == t.reactors && StepRecv(c, s, 1, 0).inners == t.inners;
  }

  lemma {:induction false} ForkSleeps(lost: nat)
    ensures Diamond().Valid() && BootNext(Diamond(), [0, 1, 2],
                     Boot(At(Send(1), true, 1, true, false, NewInner(), Blocked(), Awaited(1)), 3, lost),
                     Move(AdvanceEvent(2)),
                     Boot(At(Send(1), true, 1, true, true, Awaited(2), Blocked(), Awaited(1)), 3, lost))
  {
    DiamondValid();
    DiamondLinks();
    assert [0, 1, 2][..3] == [0, 1, 2] && [0, 1, 2][2] == 2;
    var c, s := Diamond(), At(Send(1), true, 1, true, false, NewInner(), Blocked(), Awaited(1));
    var t := At(Send(1), true, 1, true, true, Awaited(2), Blocked(), Awaited(1));
    assert StepRecv(c, s, 2, 0).reactors == t.reactors && StepRecv(c, s, 2, 0).inners == t.inners;
  }

  /** The first job of the source and its second up to the send that parks it. */
  lemma {:induction false} SourceBlocks() returns (bs: seq<Boot>, es: seq<BootEvent>)
    ensures Diamond().Valid() && BootRun(Diamond(), [0, 1, 2], bs, es)
    ensures bs[|es|] == Boot(At(Send(1), true, 1, false, false, NewInner(), Blocked(), NewInner()), 2, 2)
  {
    InitIs();
    bs, es := SpawnFirst(Diamond(), [0, 1, 2], 2);
    bs, es := SendsFirst(bs, es, 0, NewInner(), 0);
    PushStep(1);
    bs, es := Extended(bs, es, AdvanceEvent(0), Boot(Early(Send(2), 0, Full()), 2, 1));
    FinishStep(1);
    bs, es := Extended(bs, es, AdvanceEvent(0), Boot(Early(AwaitTick(false), 1, Full()), 2, 1));
    bs, es := SendsFirst(bs, es, 1, Full(), 1);
    ParkStep(2);
    bs, es := Extended(bs, es, AdvanceEvent(0),
                       Boot(At(Send(1), true, 1, false, false, NewInner(), Blocked(), NewInner()), 2, 2));
  }

  lemma {:induction false} Extended(bs: seq<Boot>, es: seq<BootEvent>, ev: Event, b: Boot)
    returns (bs': seq<Boot>, es': seq<BootEvent>)
    requires Diamond().Valid() && BootRun(Diamond(), [0, 1, 2], bs, es)
    requires BootNext(Diamond(), [0, 1, 2], bs[|es|], Move(ev), b)
    ensures BootRun(Diamond(), [0, 1, 2], bs', es') && bs'[|es'|] == b
  {
    BootExtend(Diamond(), [0, 1, 2], bs, es, Move(ev), b);
    bs', es' := bs + [b], es + [Move(ev)];
  }

  /** The source begins a job and loses its message to reactor 2. */
  lemma {:induction false} SendsFirst(bs: seq<Boot>, es: seq<BootEvent>, job: nat, direct: Inner<nat>, lost: nat)
    returns (bs': seq<Boot>, es': seq<BootEvent>)
    requires Diamond().Valid() && BootRun(Diamond(), [0, 1, 2], bs, es) && |direct.queue| <= 1
    requires bs[|es|] == Boot(Early(AwaitTick(false), job, direct), 2, lost)
    ensures BootRun(Diamond(), [0, 1, 2], bs', es')
    ensures bs'[|es'|] == Boot(Early(Send(1), job, direct), 2, lost + 1)
  {
    OwnStep(AwaitTick(false), Exec, job, direct, lost, BeginEvent);
    bs', es' := Extended(bs, es, BeginEvent, Boot(Early(Exec, job, direct), 2, lost));
    OwnStep(Exec, Send(0), job, direct, lost, AdvanceEvent(0));
    bs', es' := Extended(bs', es', AdvanceEvent(0), Boot(Early(Send(0), job, direct), 2, lost));
    LostStep(job, direct, lost);
    bs', es' := Extended(bs', es', AdvanceEvent(0), Boot(Early(Send(1), job, direct), 2, lost + 1));
  }

  /** All reactors are spawned and asleep, each waiting for the next. */
  lemma {:induction false} Stalls() returns (bs: seq<Boot>, es: seq<BootEvent>)
    ensures Sound(Diamond()) && Order(Diamond(), [0, 1, 2]) && BootRun(Diamond(), [0, 1, 2], bs, es)
    ensures bs[|es|].count == 3 && Shape(Diamond(), bs[|es|].inner) && AllAsleep(Diamond(), bs[|es|].inner)
  {
    DiamondSound();
    DiamondOrder();
    bs, es := SourceBlocks();
    JoinSleeps(2);
    var joined := At(Send(1), true, 1, true, false, NewInner(), Blocked(), Awaited(1));
    bs, es := Extended(bs, es, AdvanceEvent(1), Boot(joined, 2, 2));
    ForkSleeps(2);
    BootExtend(Diamond(), [0, 1, 2], bs, es, Spawn, Boot(joined, 3, 2));
    bs, es := bs + [Boot(joined, 3, 2)], es + [Spawn];
    bs, es := Extended(bs, es, AdvanceEvent(2),
                       Boot(At(Send(1), true, 1, true, true, Awaited(2), Blocked(), Awaited(1)), 3, 2));
  }
}
