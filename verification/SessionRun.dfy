/** What holds in every run of a session channel, however its endpoints interleave. */
module SessionRun {
  import opened Common
  import opened SessionTypes

  datatype Move = Move(first: bool, act: Action)

  /** `states[k + 1]` results from `states[k]` by `moves[k]`. */
  ghost predicate Run(p: Proto, states: seq<Session>, moves: seq<Move>) {
    && |states| == |moves| + 1
    && states[0] == SessionChannel(p)
    && (forall k :: 0 <= k < |moves| ==> RunStep(states, moves, k))
  }

  ghost predicate RunStep(states: seq<Session>, moves: seq<Move>, k: nat)
    requires k < |moves| && |states| == |moves| + 1
  {
    Step(states[k], moves[k].first, moves[k].act) == Some(states[k + 1])
  }

  lemma {:induction false} RunInv(p: Proto, states: seq<Session>, moves: seq<Move>, k: nat)
    requires Run(p, states, moves) && k < |states|
    ensures Inv(states[k])
    decreases k
  {
    if k == 0 {
      InitInv(p);
    } else {
      RunInv(p, states, moves, k - 1);
      assert RunStep(states, moves, k - 1);
      StepInv(states[k - 1], moves[k - 1].first, moves[k - 1].act);
    }
  }

  /** What the first endpoint would get from an action. */
  function FirstOutcome(s: Session, act: Action): (r: Outcome) {
    Act(s.a, s.aClosed, s.ab, s.ba, act)
  }

  lemma {:induction false} FirstIsSafe(s: Session, act: Action)
    requires Inv(s)
    ensures !FirstOutcome(s, act).Mistyped? && !FirstOutcome(s, act).Panics?
    ensures FirstOutcome(s, act).Waits? ==>
      s.b.proto.Send? || s.b.proto.Choose? || Silent(s.b.proto) || s.ab.queue != []
  {
    if SecondBehind(s) {
      var n: nat :| Follows(s.b, s.ab.queue, DualChan(s.a), n);
      if n == 0 { DualChanInvolutive(s.a); }
    } else {
      var n: nat :| Follows(s.a, s.ba.queue, DualChan(s.b), n);
      if n == 0 { DualChanInvolutive(s.b); }
    }
  }

  /**
   Session fidelity: whatever the protocol and the interleaving, a message is read at exactly the
   type or label at which it was written, no write or read ever meets a closed peer, and
   messages are in flight in one direction at most.
   */
  lemma {:induction false} Fidelity(p: Proto, states: seq<Session>, moves: seq<Move>, k: nat, first: bool, act: Action)
    requires Run(p, states, moves) && k < |states|
    ensures var s := if first then states[k] else Swap(states[k]);
      !FirstOutcome(s, act).Mistyped? && !FirstOutcome(s, act).Panics?
    ensures states[k].ab.queue == [] || states[k].ba.queue == []
  {
    RunInv(p, states, moves, k);
    SwapInv(states[k]);
    FirstIsSafe(if first then states[k] else Swap(states[k]), act);
  }

  /** Every message is read once, in the order of writing, and those not yet read are queued. */
  lemma {:induction false} ReadOnceInOrder(p: Proto, states: seq<Session>, moves: seq<Move>, k: nat)
    requires Run(p, states, moves) && k < |states|
    ensures states[k].written == (states[k].read.0 + states[k].ab.queue, states[k].read.1 + states[k].ba.queue)
  {
    RunInv(p, states, moves, k);
  }

  /** Two endpoints never wait for each other. */
  lemma {:induction false} NeverBothWaiting(p: Proto, states: seq<Session>, moves: seq<Move>, k: nat)
    requires Run(p, states, moves) && k < |states|
    ensures !(FirstOutcome(states[k], DoRead).Waits? && FirstOutcome(Swap(states[k]), DoRead).Waits?)
  {
    RunInv(p, states, moves, k);
    FirstIsSafe(states[k], DoRead);
  }

  lemma {:induction false} ClosedReadsAll(s: Session)
    requires Inv(s) && s.aClosed
    ensures s.ba.queue == []
  {
    if !SecondBehind(s) {
      var n: nat :| Follows(s.a, s.ba.queue, DualChan(s.b), n);
    }
  }

  /** Clean close: an endpoint that has closed has read everything, and after both close nothing is left. */
  lemma {:induction false} CleanClose(p: Proto, states: seq<Session>, moves: seq<Move>, k: nat)
    requires Run(p, states, moves) && k < |states|
    ensures states[k].aClosed ==> states[k].read.1 == states[k].written.1
    ensures states[k].bClosed ==> states[k].read.0 == states[k].written.0
    ensures states[k].aClosed && states[k].bClosed ==> states[k].ab.queue == [] && states[k].ba.queue == []
  {
    RunInv(p, states, moves, k);
    SwapInv(states[k]);
    if states[k].aClosed { ClosedReadsAll(states[k]); }
    if states[k].bClosed { ClosedReadsAll(Swap(states[k])); }
  }

  /** All recursion variables of `p` are bound by the `d` enclosing layers or by `p` itself. */
  predicate VarsBelow(p: Proto, d: nat) {
    match p
    case Eps => true
    case Send(_, n) => VarsBelow(n, d)
    case Recv(_, n) => VarsBelow(n, d)
    case Choose(l, r) => VarsBelow(l, d) && VarsBelow(r, d)
    case Offer(l, r) => VarsBelow(l, d) && VarsBelow(r, d)
    case Rec(b) => VarsBelow(b, d + 1)
    case Var(n) => n < d
  }

  /** `p` does not start by recurring to one of the `k` innermost layers. */
  predicate HeadFree(p: Proto, k: nat) {
    match p
    case Rec(b) => HeadFree(b, k + 1)
    case Var(n) => n >= k
    case _ => true
  }

  /** No recursion is reached again before something is communicated. */
  predicate Contractive(p: Proto) {
    match p
    case Eps => true
    case Send(_, n) => Contractive(n)
    case Recv(_, n) => Contractive(n)
    case Choose(l, r) => Contractive(l) && Contractive(r)
    case Offer(l, r) => Contractive(l) && Contractive(r)
    case Rec(b) => HeadFree(b, 1) && Contractive(b)
    case Var(n) => true
  }

  ghost predicate GoodLayer(env: seq<Proto>, i: nat)
    requires i < |env|
  {
    VarsBelow(env[i], |env| - i) && Contractive(env[i]) && HeadFree(env[i], 1)
  }

  ghost predicate Good(c: Chan) {
    && VarsBelow(c.proto, |c.env|) && Contractive(c.proto)
    && (forall i :: 0 <= i < |c.env| ==> GoodLayer(c.env, i))
  }

  lemma {:induction false} DualVarsBelow(p: Proto, d: nat)
    ensures VarsBelow(Dual(p), d) == VarsBelow(p, d)
  {
    match p
    case Eps =>
    case Var(_) =>
    case Send(_, n) => DualVarsBelow(n, d);
    case Recv(_, n) => DualVarsBelow(n, d);
    case Rec(b) => DualVarsBelow(b, d + 1);
    case Choose(l, r) => DualVarsBelow(l, d); DualVarsBelow(r, d);
    case Offer(l, r) => DualVarsBelow(l, d); DualVarsBelow(r, d);
  }

  lemma {:induction false} DualHeadFree(p: Proto, k: nat)
    ensures HeadFree(Dual(p), k) == HeadFree(p, k)
  {
    if p.Rec? { DualHeadFree(p.body, k + 1); }
  }

  lemma {:induction false} DualContractive(p: Proto)
    ensures Contractive(Dual(p)) == Contractive(p)
  {
    match p
    case Eps =>
    case Var(_) =>
    case Send(_, n) => DualContractive(n);
    case Recv(_, n) => DualContractive(n);
    case Rec(b) => DualContractive(b); DualHeadFree(b, 1);
    case Choose(l, r) => DualContractive(l); DualContractive(r);
    case Offer(l, r) => DualContractive(l); DualContractive(r);
  }

  lemma {:induction false} UnfoldGood(c: Chan)
    requires Good(c) && Silent(c.proto)
    ensures Unfold(c).Some? && Good(Unfold(c).value)
  {
    var d := Unfold(c).value;
    forall i | 0 <= i < |d.env| ensures GoodLayer(d.env, i) {
      if c.proto.Rec? {
        if i > 0 { assert GoodLayer(c.env, i - 1); }
      } else if c.proto.n > 0 {
        assert GoodLayer(c.env, i + 1);
      } else {
        assert GoodLayer(c.env, i);
      }
    }
    if c.proto == Var(0) { assert GoodLayer(c.env, 0); }
  }

  lemma {:induction false} StepGood(s: Session, first: bool, act: Action)
    requires Good(s.a) && Good(s.b) && Step(s, first, act).Some?
    ensures Good(Step(s, first, act).value.a) && Good(Step(s, first, act).value.b)
  {
    var c := if first then s.a else s.b;
    if act.DoUnfold? { UnfoldGood(c); }
  }

  lemma {:induction false} RunGood(p: Proto, states: seq<Session>, moves: seq<Move>, k: nat)
    requires VarsBelow(p, 0) && Contractive(p) && Run(p, states, moves) && k < |states|
    ensures Good(states[k].a) && Good(states[k].b)
    decreases k
  {
    if k == 0 {
      DualVarsBelow(p, 0);
      DualContractive(p);
    } else {
      RunGood(p, states, moves, k - 1);
      assert RunStep(states, moves, k - 1);
      StepGood(states[k - 1], moves[k - 1].first, moves[k - 1].act);
    }
  }

  /** `c` after `k` unfoldings, if all of them are possible. */
  function Unfolds(c: Chan, k: nat): (r: Option<Chan>)
    decreases k
  {
    if k == 0 then Some(c)
    else if Silent(c.proto) && Unfold(c).Some? then Unfolds(Unfold(c).value, k - 1)
    else None
  }

  function LeadingRecs(p: Proto): (r: nat) {
    if p.Rec? then 1 + LeadingRecs(p.body) else 0
  }

  /** Contractive recursion unfolds to a communication, or to the end, after finitely many steps. */
  lemma {:induction false} Normalizes(c: Chan, k: nat) returns (steps: nat, d: Chan)
    requires Good(c) && k <= |c.env| && HeadFree(c.proto, k)
    ensures Unfolds(c, steps) == Some(d) && Good(d) && !Silent(d.proto)
    decreases |c.env| - k, LeadingRecs(c.proto), if c.proto.Var? then c.proto.n else 0
  {
    match c.proto
    case Rec(b) =>
      UnfoldGood(c);
      steps, d := Normalizes(Chan([b] + c.env, b), k + 1);
      steps := steps + 1;
    case Var(n) =>
      UnfoldGood(c);
      if n == 0 {
        assert GoodLayer(c.env, 0);
        steps, d := Normalizes(Chan(c.env, c.env[0]), 1);
      } else {
        steps, d := Normalizes(Chan(c.env[1..], Var(n - 1)), if k == 0 then 0 else k - 1);
      }
      steps := steps + 1;
    case _ =>
      steps, d := 0, c;
  }

  /** The session after the first endpoint unfolds `i` times and the second `j` times. */
  ghost predicate Unfolded(s: Session, i: nat, j: nat, t: Session) {
    Unfolds(s.a, i).Some? && Unfolds(s.b, j).Some? && t == s.(a := Unfolds(s.a, i).value, b := Unfolds(s.b, j).value)
  }

  /** Unfolding is a sequence of steps that an open endpoint can take, so it keeps the invariant. */
  lemma {:induction false} UnfoldFirst(s: Session, i: nat)
    requires Inv(s) && Unfolds(s.a, i).Some?
    ensures Inv(s.(a := Unfolds(s.a, i).value))
    decreases i
  {
    if i > 0 {
      assert StepFirst(s, DoUnfold) == Some(s.(a := Unfold(s.a).value));
      StepInv(s, true, DoUnfold);
      UnfoldFirst(s.(a := Unfold(s.a).value), i - 1);
    }
  }

  lemma {:induction false} UnfoldBoth(s: Session, i: nat, j: nat, t: Session)
    requires Inv(s) && Unfolded(s, i, j, t)
    ensures Inv(t)
  {
    var r := s.(a := Unfolds(s.a, i).value);
    UnfoldFirst(s, i);
    SwapInv(r);
    UnfoldFirst(Swap(r), j);
    SwapInv(Swap(r).(a := t.b));
    assert Swap(Swap(r).(a := t.b)) == t;
  }

  /** The first endpoint can write some message, read one, or close. */
  ghost predicate FirstCanMove(s: Session) {
    || (exists m :: FirstOutcome(s, DoWrite(m)).Done?)
    || FirstOutcome(s, DoRead).Done?
    || FirstOutcome(s, DoClose).Done?
  }

  lemma {:induction false} WriterCanMove(s: Session)
    requires Inv(s) && !s.aClosed && (s.a.proto.Send? || s.a.proto.Choose? || s.a.proto.Eps?)
    ensures FirstCanMove(s)
  {
    if s.a.proto.Send? {
      FirstIsSafe(s, DoWrite(Value(s.a.proto.ty, 0)));
      assert FirstOutcome(s, DoWrite(Value(s.a.proto.ty, 0))).Done?;
    } else if s.a.proto.Choose? {
      FirstIsSafe(s, DoWrite(Label(true)));
      assert FirstOutcome(s, DoWrite(Label(true))).Done?;
    } else {
      assert FirstOutcome(s, DoClose).Done?;
    }
  }

  lemma {:induction false} SomeoneCanMove(s: Session)
    requires Inv(s) && !Silent(s.a.proto) && !Silent(s.b.proto) && !(s.aClosed && s.bClosed)
    ensures FirstCanMove(s) || FirstCanMove(Swap(s))
  {
    SwapInv(s);
    FirstIsSafe(s, DoRead);
    FirstIsSafe(Swap(s), DoRead);
    if !s.aClosed && !s.a.proto.Recv? && !s.a.proto.Offer? {
      WriterCanMove(s);
    } else if !s.bClosed && !s.b.proto.Recv? && !s.b.proto.Offer? {
      WriterCanMove(Swap(s));
    }
  }

  /**
   Session progress: with contractive recursion and no unbound variable, as long as not both endpoints have
   closed, finitely many unfoldings lead to a state in which one of them can write, read or close.
   */
  lemma {:induction false} Progress(p: Proto, states: seq<Session>, moves: seq<Move>, k: nat)
    returns (i: nat, j: nat, t: Session)
    requires VarsBelow(p, 0) && Contractive(p) && Run(p, states, moves) && k < |states|
    requires !(states[k].aClosed && states[k].bClosed)
    ensures Unfolded(states[k], i, j, t)
    ensures FirstCanMove(t) || FirstCanMove(Swap(t))
  {
    var s := states[k];
    RunInv(p, states, moves, k);
    RunGood(p, states, moves, k);
    var c, d;
    i, c := Normalizes(s.a, 0);
    j, d := Normalizes(s.b, 0);
    t := s.(a := c, b := d);
    UnfoldBoth(s, i, j, t);
    SomeoneCanMove(t);
  }

  /**
   The unfolding of `c` never ends: its leading variable is bound by a leading recursion of its own,
   or refers to a layer for which this is so.
   */
  ghost predicate Doomed(c: Chan) {
    Silent(c.proto) && (!HeadFree(c.proto, 0) || (exists i: nat :: HeadsTo(c, i)))
  }

  /** The leading variable of `c` refers to layer `i`, which recurs to itself without communicating. */
  ghost predicate HeadsTo(c: Chan, i: nat) {
    i < |c.env| && HeadFree(c.proto, i) && !HeadFree(c.proto, i + 1) && !HeadFree(c.env[i], 1)
  }

  lemma {:induction false} DoomedUnfolds(c: Chan)
    requires Doomed(c)
    ensures Unfold(c).Some? && Doomed(Unfold(c).value)
  {
    if HeadFree(c.proto, 0) {
      var i: nat :| HeadsTo(c, i);
      var d := Unfold(c).value;
      if c.proto.Rec? {
        assert HeadsTo(d, i + 1);
      } else if c.proto.n > 0 {
        assert HeadsTo(d, i - 1);
      } else {
        assert HeadsTo(d, 0) || !HeadFree(d.proto, 0);
      }
    } else {
      var d := Unfold(c).value;
      assert HeadsTo(d, 0) || !HeadFree(d.proto, 0);
    }
  }

  lemma {:induction false} DoomedForever(c: Chan, k: nat)
    requires Doomed(c)
    ensures Unfolds(c, k).Some? && Doomed(Unfolds(c, k).value)
    decreases k
  {
    if k > 0 {
      DoomedUnfolds(c);
      DoomedForever(Unfold(c).value, k - 1);
    }
  }

  /** The session after `moves`, if all of them are possible. */
  function Exec(s: Session, moves: seq<Move>): (r: Option<Session>)
    decreases |moves|
  {
    if moves == [] then Some(s)
    else match Step(s, moves[0].first, moves[0].act)
      case None => None
      case Some(t) => Exec(t, moves[1..])
  }

  lemma {:induction false} ExecIsRun(p: Proto, s: Session, moves: seq<Move>) returns (states: seq<Session>)
    requires Exec(s, moves).Some?
    ensures |states| == |moves| + 1 && states[0] == s && states[|moves|] == Exec(s, moves).value
    ensures forall k :: 0 <= k < |moves| ==> RunStep(states, moves, k)
    decreases |moves|
  {
    if moves == [] {
      states := [s];
    } else {
      var t := Step(s, moves[0].first, moves[0].act).value;
      var rest := ExecIsRun(p, t, moves[1..]);
      states := [s] + rest;
      forall k | 0 <= k < |moves| ensures RunStep(states, moves, k) {
        if k > 0 {
          assert RunStep(rest, moves[1..], k - 1);
        }
      }
    }
  }

  /** Both endpoints are open, level with each other, and nothing is in flight. */
  ghost predicate Level(s: Session) {
    && !s.aClosed && !s.bClosed && s.b == DualChan(s.a)
    && s.ab == Wire([], false) && s.ba == Wire([], false)
  }

  /** Both endpoints unfold, or one writes a message that the other reads. */
  lemma {:induction false} LevelStep(s: Session, m: Msg) returns (moves: seq<Move>, t: Session)
    requires Level(s)
    requires Unfold(s.a).Some? || WriteAs(s.a, m).Some? || ReadAs(s.a, m).Some?
    ensures Exec(s, moves) == Some(t) && Level(t)
    ensures Unfold(s.a).Some? ==> Some(t.a) == Unfold(s.a)
    ensures Unfold(s.a).None? && WriteAs(s.a, m).Some? ==> Some(t.a) == WriteAs(s.a, m)
    ensures Unfold(s.a).None? && ReadAs(s.a, m).Some? ==> Some(t.a) == ReadAs(s.a, m)
  {
    DualChanInvolutive(s.a);
    var m1, m2;
    if Unfold(s.a).Some? {
      DualUnfold(s.a);
      m1, m2 := Move(true, DoUnfold), Move(false, DoUnfold);
    } else if WriteAs(s.a, m).Some? {
      DualWrite(s.a, m);
      m1, m2 := Move(true, DoWrite(m)), Move(false, DoRead);
    } else {
      assert WriteAs(s.b, m).Some?;
      DualWrite(s.b, m);
      m1, m2 := Move(false, DoWrite(m)), Move(true, DoRead);
    }
    moves := [m1, m2];
    var r := Step(s, m1.first, m1.act).value;
    t := Step(r, m2.first, m2.act).value;
    assert moves[1..] == [m2] && [m2][1..] == [];
    assert Exec(r, [m2]) == Exec(t, []);
  }

  lemma {:induction false} ExecConcat(s: Session, xs: seq<Move>, ys: seq<Move>)
    requires Exec(s, xs).Some?
    ensures Exec(s, xs + ys) == Exec(Exec(s, xs).value, ys)
    decreases |xs|
  {
    if xs == [] {
      assert xs + ys == ys;
    } else {
      assert (xs + ys)[1..] == xs[1..] + ys;
      ExecConcat(Step(s, xs[0].first, xs[0].act).value, xs[1..], ys);
    }
  }

  /** From a level session some run leads to the recursion that is not contractive. */
  lemma {:induction false} ReachesDoom(s: Session) returns (moves: seq<Move>, t: Session)
    requires Level(s) && !Contractive(s.a.proto)
    ensures Exec(s, moves) == Some(t) && Level(t) && Doomed(t.a)
    decreases s.a.proto
  {
    var p := s.a.proto;
    if p.Rec? && !HeadFree(p.body, 1) {
      moves, t := [], s;
    } else {
      var m := match p
        case Send(ty, _) => Value(ty, 0)
        case Recv(ty, _) => Value(ty, 0)
        case Choose(l, _) => Label(!Contractive(l))
        case Offer(l, _) => Label(!Contractive(l))
        case _ => Label(true);
      var m1, r := LevelStep(s, m);
      var m2;
      m2, t := ReachesDoom(r);
      ExecConcat(s, m1, m2);
      moves := m1 + m2;
    }
  }

  /** Finitely many unfoldings let one of the endpoints write, read or close. */
  ghost predicate CanProgress(s: Session) {
    exists i: nat, j: nat, t: Session :: Unfolded(s, i, j, t) && (FirstCanMove(t) || FirstCanMove(Swap(t)))
  }

  /**
   Progress needs contractive recursion: for every other protocol there is a run to a state with both
   endpoints open from which no number of unfoldings lets either of them write, read or close.
   */
  lemma {:induction false} ProgressNeedsContractive(p: Proto) returns (states: seq<Session>, moves: seq<Move>)
    requires !Contractive(p)
    ensures Run(p, states, moves) && !states[|moves|].aClosed && !states[|moves|].bClosed
    ensures !CanProgress(states[|moves|])
  {
    var s := SessionChannel(p);
    assert DualEnv([]) == [];
    var d;
    moves, d := ReachesDoom(s);
    states := ExecIsRun(p, s, moves);
    DoomedDual(d.a);
    forall i: nat, j: nat, t | Unfolded(d, i, j, t) ensures !FirstCanMove(t) && !FirstCanMove(Swap(t)) {
      DoomedForever(d.a, i);
      DoomedForever(d.b, j);
    }
  }

  /** The protocol has come to a recursion variable that no layer binds. */
  predicate Unbound(c: Chan) {
    c.proto.Var? && c.proto.n >= |c.env|
  }

  lemma {:induction false} UnboundForever(c: Chan, k: nat)
    requires Unbound(c) && Unfolds(c, k).Some?
    ensures Unbound(Unfolds(c, k).value)
    decreases k
  {
    if k > 0 {
      UnboundForever(Unfold(c).value, k - 1);
    }
  }

  /** From a level session some run leads to a recursion variable that is not bound. */
  lemma {:induction false} ReachesUnbound(s: Session) returns (moves: seq<Move>, t: Session)
    requires Level(s) && !VarsBelow(s.a.proto, |s.a.env|)
    ensures Exec(s, moves) == Some(t) && Level(t) && Unbound(t.a)
    decreases s.a.proto
  {
    var p, d := s.a.proto, |s.a.env|;
    if p.Var? {
      moves, t := [], s;
    } else {
      var m := match p
        case Send(ty, _) => Value(ty, 0)
        case Recv(ty, _) => Value(ty, 0)
        case Choose(l, _) => Label(!VarsBelow(l, d))
        case Offer(l, _) => Label(!VarsBelow(l, d))
        case _ => Label(true);
      var m1, r := LevelStep(s, m);
      var m2;
      m2, t := ReachesUnbound(r);
      ExecConcat(s, m1, m2);
      moves := m1 + m2;
    }
  }

  /** Progress needs every recursion variable bound: for every other protocol some run gets stuck likewise. */
  lemma {:induction false} ProgressNeedsBound(p: Proto) returns (states: seq<Session>, moves: seq<Move>)
    requires !VarsBelow(p, 0)
    ensures Run(p, states, moves) && !states[|moves|].aClosed && !states[|moves|].bClosed
    ensures !CanProgress(states[|moves|])
  {
    var s := SessionChannel(p);
    assert DualEnv([]) == [];
    var d;
    moves, d := ReachesUnbound(s);
    states := ExecIsRun(p, s, moves);
    forall i: nat, j: nat, t | Unfolded(d, i, j, t) ensures !FirstCanMove(t) && !FirstCanMove(Swap(t)) {
      UnboundForever(d.a, i);
      UnboundForever(d.b, j);
    }
  }

  /** In every run, as long as not both endpoints have closed, one of them can go on. */
  ghost predicate AlwaysProgresses(p: Proto) {
    forall states: seq<Session>, moves: seq<Move>, k: nat :: Run(p, states, moves) && k < |states| ==>
      (states[k].aClosed && states[k].bClosed) || CanProgress(states[k])
  }

  /** Session progress holds exactly for protocols whose recursion is contractive and bound. */
  lemma {:induction false} ProgressExact(p: Proto)
    ensures AlwaysProgresses(p) <==> VarsBelow(p, 0) && Contractive(p)
  {
    if VarsBelow(p, 0) && Contractive(p) {
      forall states: seq<Session>, moves: seq<Move>, k: nat
        | Run(p, states, moves) && k < |states| && !(states[k].aClosed && states[k].bClosed)
        ensures CanProgress(states[k])
      {
        var i, j, t := Progress(p, states, moves, k);
      }
    } else {
      var states, moves;
      if !Contractive(p) {
        states, moves := ProgressNeedsContractive(p);
      } else {
        states, moves := ProgressNeedsBound(p);
      }
      assert !CanProgress(states[|moves|]);
    }
  }

  lemma {:induction false} DoomedDual(c: Chan)
    requires Doomed(c)
    ensures Doomed(DualChan(c))
  {
    DualHeadFree(c.proto, 0);
    if HeadFree(c.proto, 0) {
      var i: nat :| HeadsTo(c, i);
      DualHeadFree(c.proto, i);
      DualHeadFree(c.proto, i + 1);
      DualHeadFree(c.env[i], 1);
      assert HeadsTo(DualChan(c), i);
    }
  }

  /** The server side of an action, over the types of goals, responses, attributes, feedback and results. */
  function ActionServer(goal: nat, response: nat, attribute: nat, feedback: nat, result: nat): (r: Proto) {
    Rec(Offer(Eps, Recv(goal,
      Choose(Var(0), Send(response, Recv(attribute, Send(feedback, Send(result, Var(0)))))))))
  }

  /** Both sides of an action always make progress until they close. */
  lemma {:induction false} ActionProgress(
      goal: nat, response: nat, attribute: nat, feedback: nat, result: nat,
      states: seq<Session>, moves: seq<Move>, k: nat)
    returns (i: nat, j: nat, t: Session)
    requires Run(ActionServer(goal, response, attribute, feedback, result), states, moves) && k < |states|
    requires !(states[k].aClosed && states[k].bClosed)
    ensures Unfolded(states[k], i, j, t)
    ensures FirstCanMove(t) || FirstCanMove(Swap(t))
  {
    var p := ActionServer(goal, response, attribute, feedback, result);
    var tail := Send(response, Recv(attribute, Send(feedback, Send(result, Var(0)))));
    var last := Send(feedback, Send(result, Var(0)));
    assert VarsBelow(last, 1) && Contractive(last);
    assert VarsBelow(tail, 1) && Contractive(tail);
    assert VarsBelow(Recv(goal, Choose(Var(0), tail)), 1) && Contractive(Recv(goal, Choose(Var(0), tail)));
    i, j, t := Progress(p, states, moves, k);
  }
}
