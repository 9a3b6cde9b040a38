/** Binary session types: protocols, duality, and the two endpoints of a session channel. */
module SessionTypes {
  import opened Common

  /** `Send` and `Recv` carry the type of the value; `Var(n)` recurs out of `n` layers. */
  datatype Proto =
    | Eps
    | Send(ty: nat, next: Proto)
    | Recv(ty: nat, next: Proto)
    | Choose(left: Proto, right: Proto)
    | Offer(left: Proto, right: Proto)
    | Rec(body: Proto)
    | Var(n: nat)

  function Dual(p: Proto): (r: Proto)
    ensures p.Rec? <==> r.Rec?
    ensures p.Var? ==> r == p
  {
    match p
    case Eps => Eps
    case Send(t, n) => Recv(t, Dual(n))
    case Recv(t, n) => Send(t, Dual(n))
    case Choose(l, r) => Offer(Dual(l), Dual(r))
    case Offer(l, r) => Choose(Dual(l), Dual(r))
    case Rec(b) => Rec(Dual(b))
    case Var(n) => Var(n)
  }

  lemma {:induction false} DualInvolutive(p: Proto)
    ensures Dual(Dual(p)) == p
  {
    match p
    case Eps =>
    case Var(_) =>
    case Send(_, n) => DualInvolutive(n);
    case Recv(_, n) => DualInvolutive(n);
    case Rec(b) => DualInvolutive(b);
    case Choose(l, r) => DualInvolutive(l); DualInvolutive(r);
    case Offer(l, r) => DualInvolutive(l); DualInvolutive(r);
  }

  /** The type of a channel: the environment stack of recursion targets and the protocol. */
  datatype Chan = Chan(env: seq<Proto>, proto: Proto)

  function DualEnv(env: seq<Proto>): (r: seq<Proto>)
    ensures |r| == |env| && forall i :: 0 <= i < |env| ==> r[i] == Dual(env[i])
  {
    seq(|env|, i requires 0 <= i < |env| => Dual(env[i]))
  }

  function DualChan(c: Chan): (r: Chan) {
    Chan(DualEnv(c.env), Dual(c.proto))
  }

  lemma {:induction false} DualChanInvolutive(c: Chan)
    ensures DualChan(DualChan(c)) == c
  {
    DualInvolutive(c.proto);
    forall i | 0 <= i < |c.env| ensures Dual(Dual(c.env[i])) == c.env[i] {
      DualInvolutive(c.env[i]);
    }
    assert DualEnv(DualEnv(c.env)) == c.env;
  }

  /** What is written to a channel: a boxed value with its type, or the label of a choice. */
  datatype Msg = Value(ty: nat, v: nat) | Label(first: bool)

  /** `enter`, `zero` and `succ` only retype the channel. */
  predicate Silent(p: Proto) { p.Rec? || p.Var? }

  function Unfold(c: Chan): (r: Option<Chan>) {
    match c.proto
    case Rec(b) => Some(Chan([b] + c.env, b))
    case Var(n) =>
      if c.env == [] then None
      else if n == 0 then Some(Chan(c.env, c.env[0]))
      else Some(Chan(c.env[1..], Var(n - 1)))
    case _ => None
  }

  /** The type of the channel after reading `m`, if `m` is what its reader expects. */
  function ReadAs(c: Chan, m: Msg): (r: Option<Chan>) {
    match (c.proto, m)
    case (Recv(t, p), Value(t', _)) => if t == t' then Some(Chan(c.env, p)) else None
    case (Offer(l, r), Label(first)) => Some(Chan(c.env, if first then l else r))
    case _ => None
  }

  /** The type of the channel after writing `m`, if its protocol allows that. */
  function WriteAs(c: Chan, m: Msg): (r: Option<Chan>) {
    match (c.proto, m)
    case (Send(t, p), Value(t', _)) => if t == t' then Some(Chan(c.env, p)) else None
    case (Choose(l, r), Label(first)) => Some(Chan(c.env, if first then l else r))
    case _ => None
  }

  lemma {:induction false} DualUnfold(c: Chan)
    requires Unfold(c).Some?
    ensures Unfold(DualChan(c)) == Some(DualChan(Unfold(c).value))
  {
    var d := Unfold(c).value;
    match c.proto
    case Rec(b) => assert DualEnv([b] + c.env) == [Dual(b)] + DualEnv(c.env);
    case Var(n) => if n > 0 { assert DualEnv(c.env[1..]) == DualEnv(c.env)[1..]; }
  }

  /** A dual reader expects exactly what its writer writes. */
  lemma {:induction false} DualWrite(c: Chan, m: Msg)
    requires WriteAs(c, m).Some?
    ensures ReadAs(DualChan(c), m) == Some(DualChan(WriteAs(c, m).value))
  {
  }

  /** A channel of type `c` reads all of `q`, unfolding as needed, in `n` moves and arrives at `d`. */
  ghost predicate Follows(c: Chan, q: seq<Msg>, d: Chan, n: nat)
    decreases n
  {
    if n == 0 then c == d && q == []
    else if Silent(c.proto) then Unfold(c).Some? && Follows(Unfold(c).value, q, d, n - 1)
    else q != [] && ReadAs(c, q[0]).Some? && Follows(ReadAs(c, q[0]).value, q[1..], d, n - 1)
  }

  ghost predicate CatchesUp(c: Chan, q: seq<Msg>, d: Chan) {
    exists n: nat :: Follows(c, q, d, n)
  }

  lemma {:induction false} FollowsUnfold(c: Chan, q: seq<Msg>, d: Chan, n: nat)
    requires Follows(c, q, d, n) && Unfold(d).Some?
    ensures Follows(c, q, Unfold(d).value, n + 1)
    decreases n
  {
    if n == 0 {
      assert Follows(Unfold(d).value, q, Unfold(d).value, 0);
    } else if Silent(c.proto) {
      FollowsUnfold(Unfold(c).value, q, d, n - 1);
    } else {
      FollowsUnfold(ReadAs(c, q[0]).value, q[1..], d, n - 1);
    }
  }

  lemma {:induction false} FollowsRead(c: Chan, q: seq<Msg>, d: Chan, n: nat, m: Msg)
    requires Follows(c, q, d, n) && ReadAs(d, m).Some?
    ensures Follows(c, q + [m], ReadAs(d, m).value, n + 1)
    decreases n
  {
    if n == 0 {
      assert q + [m] == [m] && [m][1..] == [];
      assert Follows(ReadAs(d, m).value, [], ReadAs(d, m).value, 0);
    } else if Silent(c.proto) {
      FollowsRead(Unfold(c).value, q, d, n - 1, m);
    } else {
      assert (q + [m])[1..] == q[1..] + [m];
      FollowsRead(ReadAs(c, q[0]).value, q[1..], d, n - 1, m);
    }
  }

  /** One direction of the session: an unbounded first-in first-out queue. */
  datatype Wire = Wire(queue: seq<Msg>, terminated: bool)

  datatype Action = DoWrite(m: Msg) | DoRead | DoTryRead | DoUnfold | DoClose

  /** The outcome of an action of one endpoint on its two wires. */
  datatype Outcome =
    | Done(chan: Chan, closed: bool, out: Wire, inc: Wire)
    | Waits
    | Mistyped
    | Panics
    | NotOffered

  /**
   An endpoint may only use the methods that its type offers. A write to a terminated wire
   and a blocking read from a terminated empty one panic; a message of another type than
   expected would be reinterpreted, which is recorded as `Mistyped`.
   */
  function Act(c: Chan, closed: bool, out: Wire, inc: Wire, act: Action): (r: Outcome) {
    if closed then NotOffered else
    match act
    case DoWrite(m) =>
      if WriteAs(c, m).None? then NotOffered
      else if out.terminated then Panics
      else Done(WriteAs(c, m).value, false, out.(queue := out.queue + [m]), inc)
    case DoRead =>
      if !(c.proto.Recv? || c.proto.Offer?) then NotOffered
      else if inc.queue == [] then (if inc.terminated then Panics else Waits)
      else if ReadAs(c, inc.queue[0]).None? then Mistyped
      else Done(ReadAs(c, inc.queue[0]).value, false, out, inc.(queue := inc.queue[1..]))
    case DoTryRead =>
      if !(c.proto.Recv? || c.proto.Offer?) then NotOffered
      else if inc.queue == [] then Done(c, false, out, inc)
      else if ReadAs(c, inc.queue[0]).None? then Mistyped
      else Done(ReadAs(c, inc.queue[0]).value, false, out, inc.(queue := inc.queue[1..]))
    case DoUnfold =>
      if Unfold(c).None? then NotOffered else Done(Unfold(c).value, false, out, inc)
    case DoClose =>
      if !c.proto.Eps? then NotOffered
      else Done(c, true, out.(terminated := true), inc.(terminated := true))
  }

  /**
   A read that does not wait does what a waiting one does as soon as a message is there, and hands the same
   channel back over unchanged wires when none is, where the waiting one waits or panics.
   */
  lemma {:induction false} TryReadExact(c: Chan, closed: bool, out: Wire, inc: Wire)
    ensures var waits, tries := Act(c, closed, out, inc, DoRead), Act(c, closed, out, inc, DoTryRead);
      && (tries.NotOffered? <==> waits.NotOffered?)
      && (inc.queue != [] ==> tries == waits)
      && (inc.queue == [] && !tries.NotOffered? ==>
            tries == Done(c, false, out, inc) && waits == if inc.terminated then Panics else Waits)
  {
  }

  /** Both endpoints, the wire from the first to the second and the wire back, and what was written and read on each. */
  datatype Session = Session(
    a: Chan, aClosed: bool, b: Chan, bClosed: bool,
    ab: Wire, ba: Wire,
    written: (seq<Msg>, seq<Msg>), read: (seq<Msg>, seq<Msg>))

  function SessionChannel(p: Proto): (s: Session) {
    Session(Chan([], p), false, Chan([], Dual(p)), false, Wire([], false), Wire([], false), ([], []), ([], []))
  }

  /** The two endpoints and wires exchanged. */
  function Swap(s: Session): (r: Session) {
    Session(s.b, s.bClosed, s.a, s.aClosed, s.ba, s.ab, (s.written.1, s.written.0), (s.read.1, s.read.0))
  }

  /** A step of the first endpoint. */
  function StepFirst(s: Session, act: Action): (r: Option<Session>) {
    match Act(s.a, s.aClosed, s.ab, s.ba, act)
    case Done(c, closed, out, inc) =>
      Some(s.(a := c, aClosed := closed, ab := out, ba := inc,
              written := (if act.DoWrite? then s.written.0 + [act.m] else s.written.0, s.written.1),
              read := (s.read.0, if |inc.queue| < |s.ba.queue| then s.read.1 + [s.ba.queue[0]] else s.read.1)))
    case _ => None
  }

  function Step(s: Session, first: bool, act: Action): (r: Option<Session>) {
    if first then StepFirst(s, act)
    else match StepFirst(Swap(s), act)
      case Some(t) => Some(Swap(t))
      case None => None
  }

  /** The second endpoint is behind: it still has to read what the first one wrote. */
  ghost predicate SecondBehind(s: Session) {
    s.ba.queue == [] && CatchesUp(s.b, s.ab.queue, DualChan(s.a))
  }

  /** The order of events is kept, and a closed endpoint is at the end of its protocol. */
  ghost predicate Plumbing(s: Session) {
    && (s.aClosed ==> s.a.proto.Eps?) && (s.bClosed ==> s.b.proto.Eps?)
    && s.ab.terminated == s.ba.terminated == (s.aClosed || s.bClosed)
    && s.written.0 == s.read.0 + s.ab.queue && s.written.1 == s.read.1 + s.ba.queue
  }

  ghost predicate Inv(s: Session) {
    Plumbing(s) && (SecondBehind(s) || SecondBehind(Swap(s)))
  }

  lemma {:induction false} InitInv(p: Proto)
    ensures Inv(SessionChannel(p))
  {
    var s := SessionChannel(p);
    assert DualChan(s.a) == s.b by { assert DualEnv([]) == []; }
    assert Follows(s.b, [], DualChan(s.a), 0);
  }

  lemma {:induction false} SwapInv(s: Session)
    ensures Swap(Swap(s)) == s
    ensures Inv(s) ==> Inv(Swap(s))
  {
  }

  /** A level session is level from both sides. */
  lemma {:induction false} LevelBothWays(s: Session)
    requires s.ab.queue == [] && s.ba.queue == [] && s.b == DualChan(s.a)
    ensures SecondBehind(s) && SecondBehind(Swap(s))
  {
    DualChanInvolutive(s.a);
    assert Follows(s.b, [], DualChan(s.a), 0);
    assert Follows(s.a, [], DualChan(s.b), 0);
  }

  /** The endpoint that is ahead moves: the other one has more to catch up with. */
  lemma {:induction false} AheadMoves(s: Session, act: Action)
    requires Plumbing(s) && SecondBehind(s) && StepFirst(s, act).Some?
    ensures Inv(StepFirst(s, act).value)
  {
    var s' := StepFirst(s, act).value;
    var n: nat :| Follows(s.b, s.ab.queue, DualChan(s.a), n);
    if act.DoWrite? {
      DualWrite(s.a, act.m);
      FollowsRead(s.b, s.ab.queue, DualChan(s.a), n, act.m);
    } else if act.DoUnfold? {
      DualUnfold(s.a);
      FollowsUnfold(s.b, s.ab.queue, DualChan(s.a), n);
    } else {
      assert Follows(s'.b, s'.ab.queue, DualChan(s'.a), n);
    }
  }

  /** The endpoint that is behind moves: it catches up, or both were level and it takes the lead. */
  lemma {:induction false} BehindMoves(s: Session, act: Action)
    requires Plumbing(s) && SecondBehind(Swap(s)) && StepFirst(s, act).Some?
    ensures Inv(StepFirst(s, act).value)
  {
    var s' := StepFirst(s, act).value;
    var n: nat :| Follows(s.a, s.ba.queue, DualChan(s.b), n);
    if n == 0 {
      DualChanInvolutive(s.b);
      LevelBothWays(s);
      AheadMoves(s, act);
    } else if Silent(s.a.proto) {
      assert Follows(Unfold(s.a).value, s.ba.queue, DualChan(s.b), n - 1);
      assert Follows(s'.a, s'.ba.queue, DualChan(s'.b), n - 1);
    } else if act.DoRead? || act.DoTryRead? {
      assert s'.ba.queue == s.ba.queue[1..];
      assert Follows(s'.a, s'.ba.queue, DualChan(s'.b), n - 1);
      assert s.ba.queue == [s.ba.queue[0]] + s.ba.queue[1..];
    } else {
      assert false;
    }
  }

  lemma {:induction false} StepInv(s: Session, first: bool, act: Action)
    requires Inv(s) && Step(s, first, act).Some?
    ensures Inv(Step(s, first, act).value)
  {
    var t := if first then s else Swap(s);
    SwapInv(s);
    if SecondBehind(t) { AheadMoves(t, act); } else { BehindMoves(t, act); }
    SwapInv(StepFirst(t, act).value);
  }
}
