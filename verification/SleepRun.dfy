/**
 Sleeps and intervals over the list of sleeping tasks: whole runs in which sleeps are created,
 polled, cancelled and dropped, intervals are polled, and wake calls fire the timers.
 */
module SleepRun {
  import opened Common
  import opened Timers
  import opened TimeInterval
  import T = TimersRun

  /**
   A sleep: its state, the time it asks for, whether an interval owns it, the arrival number of the
   timer it has set, and how often it has woken its task.
   */
  datatype Slept = Slept(state: SleepState, dur: nat, owned: bool, timer: Option<nat>, wakes: nat)

  /** A reported tick, and whether its timer was set in time. */
  datatype Tick = Tick(target: nat, timely: bool)

  /** An interval, the sleep it waits for, and the ticks it has reported. */
  datatype Ticker = Ticker(
    target: nat, period: nat, behavior: MissedTick, delay: Option<nat>, timely: bool, ticks: seq<Tick>)

  /** `owner` gives the sleep that set each timer. */
  datatype State = State(timers: T.State, sleeps: seq<Slept>, owner: seq<nat>, tickers: seq<Ticker>)

  datatype Event =
    | NewSleep(dur: nat)
    | PollSleep(i: nat, now: nat)
    | CancelSleep(i: nat)
    | DropSleep(i: nat)
    | WakeCall(readings: seq<nat>)
    | PollTicker(j: nat, before: nat, now: nat, after: nat)

  ghost predicate Initial(s: State) {
    && s.timers == T.Init() && s.sleeps == [] && s.owner == []
    && forall j :: 0 <= j < |s.tickers| ==>
         s.tickers[j].period > 0 && s.tickers[j].delay == None && s.tickers[j].ticks == []
  }

  predicate Ended(x: Slept) {
    x.state == Canceled || x.state == Finished
  }

  /** The first poll of a sleep sets its timer at the reading `now`; later polls change nothing. */
  ghost function Poll(s: State, i: nat, now: nat): (r: State)
    requires i < |s.sleeps|
  {
    var x := s.sleeps[i];
    if x.state != Ready then s
    else
      s.(timers := T.Next(s.timers, T.Sleep(now, x.dur)),
         sleeps := s.sleeps[i := x.(state := Wait, timer := Some(|s.timers.due|))],
         owner := s.owner + [i])
  }

  /** What the handler of a timer does to its sleep. */
  function Handled(x: Slept): (r: Slept) {
    if x.state == Wait then x.(state := Finished, wakes := x.wakes + 1) else x
  }

  /** The handlers of the timers that fired, one after the other. */
  function HandleAll(sleeps: seq<Slept>, owner: seq<nat>, fired: seq<Entry<nat>>): (r: seq<Slept>)
    ensures |r| == |sleeps|
    decreases |fired|
  {
    if fired == [] then sleeps
    else
      var a := fired[0].data;
      HandleAll(if a < |owner| && owner[a] < |sleeps| then sleeps[owner[a] := Handled(sleeps[owner[a]])] else sleeps,
                owner, fired[1..])
  }

  /** The times by which an interval's timer is measured fit in 64 bits. */
  predicate Fits(q: Queue<nat>, target: nat, before: nat, now: nat) {
    var base := Rebase(q, now).base;
    target < before + U64 && Max(base, now) - base + Since(target, before) < U64
  }

  /** The reading that measured the time to the target, or the target, is not past the time of setting. */
  predicate Timely(q: Queue<nat>, target: nat, before: nat, now: nat) {
    var from := Max(Rebase(q, now).base, now);
    Fits(q, target, before, now) && (before <= from || target <= from)
  }

  /** A poll of an interval: it makes its sleep if it has none, polls it, and reports a tick at its end. */
  ghost function TickerStep(s: State, j: nat, before: nat, now: nat, after: nat): (r: State)
    requires j < |s.tickers| && s.tickers[j].period > 0
    requires s.tickers[j].delay.Some? ==> s.tickers[j].delay.value < |s.sleeps|
  {
    var x := s.tickers[j];
    var added := Slept(Ready, Since(x.target, before), true, None, 0);
    var s1 := if x.delay == None then s.(sleeps := s.sleeps + [added]) else s;
    var x1 := if x.delay == None
      then x.(delay := Some(|s.sleeps|), timely := Timely(s.timers.queue, x.target, before, now)) else x;
    var i := x1.delay.value;
    var x2 := if !Ended(s1.sleeps[i]) then x1
      else x1.(target := NextTarget(x.behavior, x.target, x.period, after), delay := None,
               ticks := x.ticks + [Tick(x.target, x.timely)]);
    Poll(s1, i, now).(tickers := s.tickers[j := x2])
  }

  ghost predicate Enabled(s: State, e: Event) {
    match e
    case NewSleep(_) => true
    case PollSleep(i, _) => i < |s.sleeps| && !s.sleeps[i].owned
    case CancelSleep(i) => i < |s.sleeps| && !s.sleeps[i].owned
    case DropSleep(i) => i < |s.sleeps| && !s.sleeps[i].owned
    case WakeCall(readings) => |s.timers.queue.pending| <= |readings|
    case PollTicker(j, _, _, _) =>
      && j < |s.tickers| && s.tickers[j].period > 0
      && (s.tickers[j].delay.Some? ==> s.tickers[j].delay.value < |s.sleeps|)
  }

  ghost function Next(s: State, e: Event): (r: State)
    requires Enabled(s, e)
  {
    match e
    case NewSleep(dur) => s.(sleeps := s.sleeps + [Slept(Ready, dur, false, None, 0)])
    case PollSleep(i, now) => Poll(s, i, now)
    case CancelSleep(i) =>
      var x := s.sleeps[i];
      s.(sleeps := s.sleeps[i := if x.state == Finished then x else x.(state := Canceled)])
    case DropSleep(i) =>
      var x := s.sleeps[i];
      s.(sleeps := s.sleeps[i := if x.state == Wait then x.(state := Canceled) else x])
    case WakeCall(readings) =>
      s.(timers := T.Next(s.timers, T.Wake(readings)),
         sleeps := HandleAll(s.sleeps, s.owner, WakeTask(s.timers.queue, readings).1))
    case PollTicker(j, before, now, after) => TickerStep(s, j, before, now, after)
  }

  ghost predicate RunStep(s: State, e: Event, t: State) {
    Enabled(s, e) && t == Next(s, e)
  }

  ghost predicate Run(run: seq<State>, events: seq<Event>) {
    && |run| == |events| + 1 && Initial(run[0])
    && forall i :: 0 <= i < |events| ==> RunStep(run[i], events[i], run[i + 1])
  }

  /** A sleep waits exactly until its timer fires, and has woken its task exactly if it finished. */
  ghost predicate SleepInv(s: State, i: nat)
    requires i < |s.sleeps|
  {
    var x := s.sleeps[i];
    && (x.timer.Some? ==> x.timer.value < |s.owner| && s.owner[x.timer.value] == i)
    && (x.state == Ready ==> x.timer == None)
    && (x.state == Wait ==> x.timer.Some? && !T.HasFired(s.timers, x.timer.value))
    && (x.state == Finished ==> x.timer.Some? && T.HasFired(s.timers, x.timer.value))
    && x.wakes == if x.state == Finished then 1 else 0
  }

  /** The sleep of an interval is due no earlier than its target if it is timely, and so were its ticks. */
  ghost predicate TickerInv(s: State, j: nat)
    requires j < |s.tickers|
  {
    var x := s.tickers[j];
    && x.period > 0
    && (x.delay.Some? ==> x.delay.value < |s.sleeps| && Waits(s, x, s.sleeps[x.delay.value]))
    && (forall k :: 0 <= k < |x.ticks| && x.ticks[k].timely ==> x.ticks[k].target <= s.timers.peak)
  }

  ghost predicate Waits(s: State, x: Ticker, y: Slept) {
    && y.owned && (y.state == Wait || y.state == Finished)
    && y.timer.Some? && y.timer.value < |s.timers.due|
    && (x.timely ==> x.target <= s.timers.due[y.timer.value])
  }

  ghost predicate Inv(s: State) {
    && T.Inv(s.timers) && |s.owner| == |s.timers.due|
    && (forall a :: 0 <= a < |s.owner| ==> s.owner[a] < |s.sleeps| && s.sleeps[s.owner[a]].timer == Some(a))
    && (forall i :: 0 <= i < |s.sleeps| ==> SleepInv(s, i))
    && (forall j :: 0 <= j < |s.tickers| ==> TickerInv(s, j))
  }

  /** A timer that has fired was due by the largest reading. */
  lemma {:induction false} FiredByPeak(s: T.State, a: nat)
    requires T.Inv(s) && T.HasFired(s, a)
    ensures s.due[a] <= s.peak
  {
    var k :| 0 <= k < |s.fired| && s.fired[k] == Entry(s.due[a], a);
  }

  /** A timer that is only now set has not fired. */
  lemma {:induction false} NewTimer(s: T.State, now: nat, dur: nat)
    requires T.Inv(s)
    ensures
      var t := T.Next(s, T.Sleep(now, dur));
      && T.Inv(t) && t.due == s.due + [SleepDue(s.queue, now, dur)] && s.peak <= t.peak
      && (forall a: nat :: T.HasFired(t, a) <==> T.HasFired(s, a))
  {
    T.NextInv(s, T.Sleep(now, dur));
    var t := T.Next(s, T.Sleep(now, dur));
    forall a: nat ensures T.HasFired(t, a) <==> T.HasFired(s, a) {
      if T.HasFired(t, a) {
        var k :| 0 <= k < |t.fired| && t.fired[k] == Entry(t.due[a], a);
        assert (s.fired + s.queue.pending)[k] == t.fired[k];
      }
    }
  }

  lemma {:induction false} AddInv(s: State, x: Slept)
    requires Inv(s) && x.state == Ready && x.timer == None && x.wakes == 0
    ensures Inv(s.(sleeps := s.sleeps + [x]))
  {
    var t := s.(sleeps := s.sleeps + [x]);
    forall i | 0 <= i < |t.sleeps| ensures SleepInv(t, i) {
      assert i < |s.sleeps| ==> SleepInv(s, i);
    }
    forall j | 0 <= j < |t.tickers| ensures TickerInv(t, j) {
      assert TickerInv(s, j);
    }
  }

  lemma {:induction false} PollInv(s: State, i: nat, now: nat)
    requires Inv(s) && i < |s.sleeps|
    ensures Inv(Poll(s, i, now))
  {
    var t := Poll(s, i, now);
    assert SleepInv(s, i);
    if s.sleeps[i].state == Ready {
      NewTimer(s.timers, now, s.sleeps[i].dur);
      forall k | 0 <= k < |t.sleeps| ensures SleepInv(t, k) {
        assert SleepInv(s, k);
      }
      forall j | 0 <= j < |t.tickers| ensures TickerInv(t, j) {
        assert TickerInv(s, j);
      }
    }
  }

  /** Ending a sleep early does not touch its timer. */
  lemma {:induction false} CancelInv(s: State, i: nat)
    requires Inv(s) && i < |s.sleeps| && !s.sleeps[i].owned && s.sleeps[i].state != Finished
    ensures Inv(s.(sleeps := s.sleeps[i := s.sleeps[i].(state := Canceled)]))
  {
    var t := s.(sleeps := s.sleeps[i := s.sleeps[i].(state := Canceled)]);
    assert SleepInv(s, i);
    forall k | 0 <= k < |t.sleeps| ensures SleepInv(t, k) {
      assert SleepInv(s, k);
    }
    forall j | 0 <= j < |t.tickers| ensures TickerInv(t, j) {
      assert TickerInv(s, j);
    }
  }

  /** Sleep `i` set one of the timers that fired. */
  ghost predicate Struck(owner: seq<nat>, fired: seq<Entry<nat>>, i: nat) {
    exists k :: 0 <= k < |fired| && fired[k].data < |owner| && owner[fired[k].data] == i
  }

  lemma {:induction false} HandleAt(sleeps: seq<Slept>, owner: seq<nat>, fired: seq<Entry<nat>>, i: nat)
    requires i < |sleeps|
    ensures HandleAll(sleeps, owner, fired)[i] == if Struck(owner, fired, i) then Handled(sleeps[i]) else sleeps[i]
    decreases |fired|
  {
    if fired != [] {
      var a, rest := fired[0].data, fired[1..];
      var next := if a < |owner| && owner[a] < |sleeps| then sleeps[owner[a] := Handled(sleeps[owner[a]])] else sleeps;
      HandleAt(next, owner, rest, i);
      assert forall k :: 0 < k < |fired| ==> fired[k] == rest[k - 1];
      if Struck(owner, rest, i) {
        var k :| 0 <= k < |rest| && rest[k].data < |owner| && owner[rest[k].data] == i;
        assert fired[k + 1] == rest[k];
      }
    }
  }

  /** The timer of sleep `i` fires in a wake call exactly if a handler of the call is its own. */
  lemma {:induction false} StruckIff(s: State, readings: seq<nat>, i: nat)
    requires Inv(s) && |s.timers.queue.pending| <= |readings| && i < |s.sleeps| && s.sleeps[i].timer.Some?
    ensures
      var t := T.Next(s.timers, T.Wake(readings));
      var a := s.sleeps[i].timer.value;
      T.HasFired(t, a) <==> T.HasFired(s.timers, a) || Struck(s.owner, WakeTask(s.timers.queue, readings).1, i)
  {
    var fired := WakeTask(s.timers.queue, readings).1;
    var t, a := T.Next(s.timers, T.Wake(readings)), s.sleeps[i].timer.value;
    T.NextInv(s.timers, T.Wake(readings));
    assert SleepInv(s, i);
    var e := Entry(s.timers.due[a], a);
    assert e in t.fired <==> e in s.timers.fired || e in fired;
    if e in fired {
      var k :| 0 <= k < |fired| && fired[k] == e;
      assert Struck(s.owner, fired, i);
    }
    if Struck(s.owner, fired, i) {
      var k :| 0 <= k < |fired| && fired[k].data < |s.owner| && s.owner[fired[k].data] == i;
      assert (t.fired + t.queue.pending)[|s.timers.fired| + k] == fired[k];
      assert fired[k] == e;
    }
  }

  lemma {:induction false} WakeSleep(s: State, readings: seq<nat>, i: nat)
    requires Inv(s) && |s.timers.queue.pending| <= |readings| && i < |s.sleeps|
    ensures SleepInv(Next(s, WakeCall(readings)), i)
    ensures
      var x, y := s.sleeps[i], Next(s, WakeCall(readings)).sleeps[i];
      y == x || (x.state == Wait && y == Handled(x))
  {
    var fired := WakeTask(s.timers.queue, readings).1;
    assert SleepInv(s, i);
    HandleAt(s.sleeps, s.owner, fired, i);
    if s.sleeps[i].timer.Some? {
      StruckIff(s, readings, i);
    }
  }

  lemma {:induction false} WakeCallInv(s: State, readings: seq<nat>)
    requires Inv(s) && |s.timers.queue.pending| <= |readings|
    ensures Inv(Next(s, WakeCall(readings)))
  {
    var t := Next(s, WakeCall(readings));
    T.NextInv(s.timers, T.Wake(readings));
    forall i | 0 <= i < |t.sleeps| ensures SleepInv(t, i) && t.sleeps[i].timer == s.sleeps[i].timer {
      WakeSleep(s, readings, i);
    }
    forall j | 0 <= j < |t.tickers| ensures TickerInv(t, j) {
      assert TickerInv(s, j);
      if s.tickers[j].delay.Some? {
        WakeSleep(s, readings, s.tickers[j].delay.value);
      }
    }
  }

  /** Within 64 bits, the timer an interval sets is due no earlier than its target exactly if it is timely. */
  lemma {:induction false} TimelyExact(q: Queue<nat>, target: nat, before: nat, now: nat)
    requires Fits(q, target, before, now)
    ensures target <= SleepDue(q, now, Since(target, before)) <==> Timely(q, target, before, now)
  {
    SleepDueExact(q, now, Since(target, before));
  }

  lemma {:induction false} TickerStepInv(s: State, j: nat, before: nat, now: nat, after: nat)
    requires Inv(s) && j < |s.tickers|
    requires s.tickers[j].delay.Some? ==> s.tickers[j].delay.value < |s.sleeps|
    ensures s.tickers[j].period > 0 && Inv(TickerStep(s, j, before, now, after))
  {
    var x := s.tickers[j];
    assert TickerInv(s, j);
    var added := Slept(Ready, Since(x.target, before), true, None, 0);
    var s1 := if x.delay == None then s.(sleeps := s.sleeps + [added]) else s;
    if x.delay == None { AddInv(s, added); }
    var i := if x.delay == None then |s.sleeps| else x.delay.value;
    PollInv(s1, i, now);
    var t := TickerStep(s, j, before, now, after);
    assert t.timers == Poll(s1, i, now).timers && t.sleeps == Poll(s1, i, now).sleeps;
    TickerAfter(s, j, before, now, after);
    forall k | 0 <= k < |t.tickers| ensures TickerInv(t, k) {
      assert k != j ==> TickerInv(Poll(s1, i, now), k);
    }
    forall k | 0 <= k < |t.sleeps| ensures SleepInv(t, k) {
      assert SleepInv(Poll(s1, i, now), k);
    }
  }

  /** The polled interval itself. */
  lemma {:induction false} TickerAfter(s: State, j: nat, before: nat, now: nat, after: nat)
    requires Inv(s) && j < |s.tickers| && s.tickers[j].period > 0
    requires s.tickers[j].delay.Some? ==> s.tickers[j].delay.value < |s.sleeps|
    ensures TickerInv(TickerStep(s, j, before, now, after), j)
  {
    var x := s.tickers[j];
    assert TickerInv(s, j);
    if x.delay == None {
      var dur := Since(x.target, before);
      NewTimer(s.timers, now, dur);
      if Timely(s.timers.queue, x.target, before, now) {
        TimelyExact(s.timers.queue, x.target, before, now);
      }
    } else {
      var y := s.sleeps[x.delay.value];
      assert SleepInv(s, x.delay.value);
      if y.state == Finished {
        FiredByPeak(s.timers, y.timer.value);
      }
    }
  }

  lemma {:induction false} NextInv(s: State, e: Event)
    requires Inv(s) && Enabled(s, e)
    ensures Inv(Next(s, e))
  {
    match e
    case NewSleep(dur) => AddInv(s, Slept(Ready, dur, false, None, 0));
    case PollSleep(i, now) => PollInv(s, i, now);
    case CancelSleep(i) =>
      if s.sleeps[i].state != Finished { CancelInv(s, i); } else { assert Next(s, e) == s; }
    case DropSleep(i) =>
      if s.sleeps[i].state == Wait { CancelInv(s, i); } else { assert Next(s, e) == s; }
    case WakeCall(readings) => WakeCallInv(s, readings);
    case PollTicker(j, before, now, after) => TickerStepInv(s, j, before, now, after);
  }

  lemma {:induction false} InitInv(s: State)
    requires Initial(s)
    ensures Inv(s)
  {
    assert T.Inv(T.Init());
  }

  lemma {:induction false} RunInv(run: seq<State>, events: seq<Event>, i: nat)
    requires Run(run, events) && i < |run|
    ensures Inv(run[i])
  {
    if i == 0 {
      InitInv(run[0]);
    } else {
      RunInv(run, events, i - 1);
      assert RunStep(run[i - 1], events[i - 1], run[i - 1 + 1]);
      NextInv(run[i - 1], events[i - 1]);
    }
  }

  /** The poll makes a sleep and reads the clock twice for it, the second time no earlier, within 64 bits. */
  ghost predicate Forward(s: State, e: Event) {
    e.PollTicker? && e.j < |s.tickers| && s.tickers[e.j].delay == None ==>
      e.before <= e.now && Fits(s.timers.queue, s.tickers[e.j].target, e.before, e.now)
  }

  /** All timers of intervals, those that are set and those of the reported ticks, were set in time. */
  ghost predicate AllTimely(s: State) {
    forall j :: 0 <= j < |s.tickers| ==> TickerTimely(s.tickers[j])
  }

  ghost predicate TickerTimely(x: Ticker) {
    (x.delay.Some? ==> x.timely) && forall k :: 0 <= k < |x.ticks| ==> x.ticks[k].timely
  }

  lemma {:induction false} StaysTimely(s: State, e: Event)
    requires Inv(s) && Enabled(s, e) && AllTimely(s) && Forward(s, e)
    ensures AllTimely(Next(s, e))
  {
    if e.PollTicker? {
      assert TickerTimely(s.tickers[e.j]) && TickerInv(s, e.j);
    }
  }

  lemma {:induction false} RunTimely(run: seq<State>, events: seq<Event>, i: nat)
    requires Run(run, events) && i < |run| && forall n :: 0 <= n < i ==> Forward(run[n], events[n])
    ensures AllTimely(run[i])
  {
    if i > 0 {
      RunTimely(run, events, i - 1);
      RunInv(run, events, i - 1);
      assert RunStep(run[i - 1], events[i - 1], run[i]) && Forward(run[i - 1], events[i - 1]);
      StaysTimely(run[i - 1], events[i - 1]);
    }
  }

  /**
   No interval reports a tick before the clock has read its target, as long as the clock did not go back
   between the two readings that measure its sleep and set its timer, and the times fit in 64 bits.
   */
  lemma {:induction false} TicksNeverEarly(run: seq<State>, events: seq<Event>, i: nat, j: nat, k: nat)
    requires Run(run, events) && i < |run| && j < |run[i].tickers| && k < |run[i].tickers[j].ticks|
    requires forall n :: 0 <= n < i ==> Forward(run[n], events[n])
    ensures run[i].tickers[j].ticks[k].target <= run[i].timers.peak
  {
    RunInv(run, events, i);
    RunTimely(run, events, i);
    assert TickerInv(run[i], j) && TickerTimely(run[i].tickers[j]);
  }

  /** The event polls interval `j` when the timer of its sleep has fired. */
  ghost predicate Reports(s: State, e: Event, j: nat) {
    && e.PollTicker? && e.j == j && j < |s.tickers|
    && var delay := s.tickers[j].delay;
       delay.Some? && delay.value < |s.sleeps| && Rung(s, s.sleeps[delay.value])
  }

  ghost predicate Rung(s: State, x: Slept) {
    x.timer.Some? && T.HasFired(s.timers, x.timer.value)
  }

  /** The readings at which the polls of a run found the timer of interval `j` fired. */
  ghost function Seen(run: seq<State>, events: seq<Event>, i: nat, j: nat): (r: seq<nat>)
    requires |run| == |events| + 1 && i < |run|
  {
    if i == 0 then []
    else Seen(run, events, i - 1, j) + if Reports(run[i - 1], events[i - 1], j) then [events[i - 1].after] else []
  }

  /** An interval reports its target, and goes on to the next, exactly if it is polled after its timer fired. */
  lemma {:induction false} ReportsExact(s: State, e: Event, j: nat)
    requires Inv(s) && Enabled(s, e) && j < |s.tickers|
    ensures j < |Next(s, e).tickers|
    ensures var x, y := s.tickers[j], Next(s, e).tickers[j];
      && x.period > 0 && y.period == x.period && y.behavior == x.behavior
      && if Reports(s, e, j) then
           && y.ticks == x.ticks + [Tick(x.target, x.timely)] && y.delay == None
           && y.target == NextTarget(x.behavior, x.target, x.period, e.after)
         else y.ticks == x.ticks && y.target == x.target
  {
    var x := s.tickers[j];
    assert TickerInv(s, j);
    if x.delay.Some? {
      assert SleepInv(s, x.delay.value);
    }
  }

  /** What the ticks of an interval that began as `x` are, once they were seen at `nows`. */
  ghost predicate Follows(x: Ticker, y: Ticker, nows: seq<nat>)
    requires x.period > 0
  {
    var targets := Targets(x.behavior, x.target, x.period, nows);
    && y.period == x.period && y.behavior == x.behavior
    && |y.ticks| == |nows| && y.target == targets[|nows|]
    && forall k :: 0 <= k < |nows| ==> y.ticks[k].target == targets[k]
  }

  lemma {:induction false} FollowsPush(x: Ticker, y: Ticker, z: Ticker, nows: seq<nat>, now: nat)
    requires x.period > 0 && Follows(x, y, nows) && z.period == y.period && z.behavior == y.behavior
    requires z.ticks == y.ticks + [Tick(y.target, y.timely)]
    requires z.target == NextTarget(y.behavior, y.target, y.period, now)
    ensures Follows(x, z, nows + [now])
  {
    TargetsPush(x.behavior, x.target, x.period, nows, now);
  }

  /**
   In every run an interval reports one tick for each poll that finds its timer fired, and no other, and the
   targets of its ticks are those that its missed-tick behaviour gives for the readings of these polls.
   */
  lemma {:induction false} TicksExact(run: seq<State>, events: seq<Event>, i: nat, j: nat)
    requires Run(run, events) && i < |run| && j < |run[0].tickers|
    ensures run[0].tickers[j].period > 0 && j < |run[i].tickers|
    ensures Follows(run[0].tickers[j], run[i].tickers[j], Seen(run, events, i, j))
  {
    if i > 0 {
      TicksExact(run, events, i - 1, j);
      RunInv(run, events, i - 1);
      assert RunStep(run[i - 1], events[i - 1], run[i]);
      ReportsExact(run[i - 1], events[i - 1], j);
      if Reports(run[i - 1], events[i - 1], j) {
        FollowsPush(run[0].tickers[j], run[i - 1].tickers[j], run[i].tickers[j],
                    Seen(run, events, i - 1, j), events[i - 1].after);
      } else {
        assert Seen(run, events, i, j) == Seen(run, events, i - 1, j);
      }
    }
  }

  /** In every run a bursting interval reports its k-th tick for k periods after the first, however late. */
  lemma {:induction false} BurstTicks(run: seq<State>, events: seq<Event>, i: nat, j: nat, k: nat)
    requires Run(run, events) && i < |run| && j < |run[0].tickers| && run[0].tickers[j].behavior == Burst
    requires j < |run[i].tickers| && k < |run[i].tickers[j].ticks|
    ensures run[i].tickers[j].ticks[k].target == run[0].tickers[j].target + k * run[0].tickers[j].period
  {
    TicksExact(run, events, i, j);
    BurstNeverDrifts(run[0].tickers[j].target, run[0].tickers[j].period, Seen(run, events, i, j), k);
  }

  /**
   In every run a sleep has woken its task once if it finished and never otherwise, it has finished only if
   the clock has read the time it was due, and it waits exactly as long as its timer is set and has not fired.
   */
  lemma {:induction false} SleepExact(run: seq<State>, events: seq<Event>, i: nat, n: nat)
    requires Run(run, events) && i < |run| && n < |run[i].sleeps|
    ensures var x := run[i].sleeps[n];
      && x.wakes == (if x.state == Finished then 1 else 0)
      && (x.timer.Some? ==> x.timer.value < |run[i].timers.due|)
      && (x.state != Canceled ==>
            && (x.state == Ready <==> x.timer == None)
            && (x.state == Finished <==> Rung(run[i], x)))
      && (x.state == Finished ==> run[i].timers.due[x.timer.value] <= run[i].timers.peak)
  {
    RunInv(run, events, i);
    assert SleepInv(run[i], n);
    if run[i].sleeps[n].state == Finished {
      FiredByPeak(run[i].timers, run[i].sleeps[n].timer.value);
    }
  }

  /** One step keeps a cancelled sleep as it is, and any sleep in the list. */
  lemma {:induction false} StaysCanceled(s: State, e: Event, i: nat)
    requires Inv(s) && Enabled(s, e) && i < |s.sleeps|
    ensures i < |Next(s, e).sleeps|
    ensures s.sleeps[i].state == Canceled ==> Next(s, e).sleeps[i] == s.sleeps[i]
  {
    match e
    case WakeCall(readings) => WakeSleep(s, readings, i);
    case PollTicker(j, _, _, _) => assert TickerInv(s, j);
    case _ =>
  }

  /** A sleep that was cancelled, or dropped while it waited, never wakes its task in any run. */
  lemma {:induction false} CanceledNeverWakes(run: seq<State>, events: seq<Event>, i: nat, k: nat, n: nat)
    requires Run(run, events) && i <= k < |run| && n < |run[i].sleeps| && run[i].sleeps[n].state == Canceled
    ensures n < |run[k].sleeps| && run[k].sleeps[n].state == Canceled && run[k].sleeps[n].wakes == 0
    decreases k - i
  {
    RunInv(run, events, i);
    assert SleepInv(run[i], n);
    if i < k {
      assert RunStep(run[i], events[i], run[i + 1]);
      StaysCanceled(run[i], events[i], n);
      CanceledNeverWakes(run, events, i + 1, k, n);
    }
  }

  /** The event ends sleep `n` early. */
  ghost predicate EndsEarly(s: State, e: Event, n: nat) {
    n < |s.sleeps| && ((e == CancelSleep(n) && s.sleeps[n].state != Finished)
                       || (e == DropSleep(n) && s.sleeps[n].state == Wait))
  }

  /** Cancelling a sleep that has not finished, or dropping one that waits, cancels it for good. */
  lemma {:induction false} CancelForGood(run: seq<State>, events: seq<Event>, i: nat, k: nat, n: nat)
    requires Run(run, events) && i < k < |run| && EndsEarly(run[i], events[i], n)
    ensures n < |run[k].sleeps| && run[k].sleeps[n].state == Canceled && run[k].sleeps[n].wakes == 0
  {
    assert RunStep(run[i], events[i], run[i + 1]);
    CanceledNeverWakes(run, events, i + 1, k, n);
  }

  /** A sleep that waits and is due by `t` is finished by a wake call whose readings are at or past `t`. */
  lemma {:induction false} DueSleepFinishes(run: seq<State>, events: seq<Event>, i: nat, n: nat, t: nat)
    requires Run(run, events) && i < |events| && events[i].WakeCall? && n < |run[i].sleeps|
    requires |run[i].timers.queue.pending| <= |events[i].readings|
    requires forall j :: 0 <= j < T.Rounds(run[i].timers.queue, events[i].readings) ==>
      t <= events[i].readings[j] < run[i].timers.queue.base + U64
    requires run[i].sleeps[n].state == Wait && run[i].sleeps[n].timer.Some?
    requires run[i].sleeps[n].timer.value < |run[i].timers.due| && run[i].timers.due[run[i].sleeps[n].timer.value] <= t
    ensures n < |run[i + 1].sleeps| && run[i + 1].sleeps[n].state == Finished && run[i + 1].sleeps[n].wakes == 1
  {
    var s, readings := run[i], events[i].readings;
    RunInv(run, events, i);
    assert RunStep(s, events[i], run[i + 1]);
    T.WakeFires(s.timers, readings, t, s.sleeps[n].timer.value);
    WakeSleep(s, readings, n);
  }

  /** A state with one interval. */
  function Lone(timers: T.State, x: seq<Slept>, owner: seq<nat>, next: Ticker): (s: State) {
    State(timers, x, owner, [next])
  }

  /** The time to the target is measured at 90, and the clock has gone back to 80 when the timer is set. */
  lemma {:induction false} BackwardPoll(s: State, t: State)
    requires s == Lone(T.Init(), [], [], Ticker(100, 1, Burst, None, false, []))
    requires t == Lone(T.State(Queue(80, [Entry(90, 0)]), [90], [], 80), [Slept(Wait, 10, true, Some(0), 0)], [0],
                       Ticker(100, 1, Burst, Some(0), false, []))
    ensures RunStep(s, PollTicker(0, 90, 80, 80), t)
  {
    var r := Next(s, PollTicker(0, 90, 80, 80));
    assert r.timers == t.timers && r.sleeps == t.sleeps && r.tickers == t.tickers;
  }

  lemma {:induction false} BackwardFire(s: State, t: State)
    requires s == Lone(T.State(Queue(80, [Entry(90, 0)]), [90], [], 80), [Slept(Wait, 10, true, Some(0), 0)], [0],
                       Ticker(100, 1, Burst, Some(0), false, []))
    requires t == Lone(T.State(Queue(90, []), [90], [Entry(90, 0)], 90), [Slept(Finished, 10, true, Some(0), 1)], [0],
                       Ticker(100, 1, Burst, Some(0), false, []))
    ensures RunStep(s, WakeCall([90]), t)
  {
    var e: Entry<nat> := Entry(90, 0);
    var q := s.timers.queue;
    var one: seq<nat> := [90];
    assert Elapsed(80, 90) == 10 && q.pending[0].at - q.base <= Elapsed(q.base, one[0]);
    var rest := WakeTask(Queue(q.pending[0].at, q.pending[1..]), one[1..]);
    assert rest.0 == Queue(90, []) && rest.1 == [];
    assert WakeTask(q, one).1 == [q.pending[0]] + rest.1 == [e];
    assert WakeTask(q, one).0 == Queue(90, []);
    assert T.Rounds(q, one) == 1 && one[..1] == one;
    assert HandleAll(s.sleeps, [0], [e]) == HandleAll([Handled(s.sleeps[0])], [0], []);
  }

  lemma {:induction false} BackwardReport(s: State, t: State)
    requires s == Lone(T.State(Queue(90, []), [90], [Entry(90, 0)], 90), [Slept(Finished, 10, true, Some(0), 1)], [0],
                       Ticker(100, 1, Burst, Some(0), false, []))
    requires t == s.(tickers := [Ticker(101, 1, Burst, None, false, [Tick(100, false)])])
    ensures RunStep(s, PollTicker(0, 90, 90, 90), t)
  {
    var r := Next(s, PollTicker(0, 90, 90, 90));
    assert r.tickers[0].ticks == [Tick(100, false)] && r.tickers[0].target == 101;
    assert r.tickers == t.tickers;
  }

  /** With a clock that goes back, an interval reports the tick for 100 when the clock has only read 90. */
  lemma {:induction false} BackwardTick() returns (run: seq<State>, events: seq<Event>)
    ensures Run(run, events) && |run| == 4 && |run[3].tickers| == 1
    ensures run[3].tickers[0].ticks == [Tick(100, false)] && run[3].timers.peak == 90
  {
    var armed := Ticker(100, 1, Burst, Some(0), false, []);
    var s0 := Lone(T.Init(), [], [], Ticker(100, 1, Burst, None, false, []));
    var s1 := Lone(T.State(Queue(80, [Entry(90, 0)]), [90], [], 80), [Slept(Wait, 10, true, Some(0), 0)], [0], armed);
    var s2 := Lone(
      T.State(Queue(90, []), [90], [Entry(90, 0)], 90), [Slept(Finished, 10, true, Some(0), 1)], [0], armed);
    var s3 := s2.(tickers := [Ticker(101, 1, Burst, None, false, [Tick(100, false)])]);
    BackwardPoll(s0, s1);
    BackwardFire(s1, s2);
    BackwardReport(s2, s3);
    run, events := [s0, s1, s2, s3], [PollTicker(0, 90, 80, 80), WakeCall([90]), PollTicker(0, 90, 90, 90)];
  }
}
