/** The future that sleeps once, and the periodic interval that is built on it. */
module TimeInterval {
  import opened Common
  import opened Bits
  import opened Timers

  const U32: nat := 0x1_0000_0000

  datatype SleepState = Ready | Wait | Canceled | Finished

  /** One sleep: its state, how often it has set a timer, and how often it has woken its task. */
  class Sleep {
    var state: SleepState
    ghost var timers: nat
    ghost var wakes: nat

    /** One timer at most, one wake at most, and a wake exactly when the sleep has finished. */
    ghost predicate Valid()
      reads this
    {
      && timers <= 1 && wakes <= timers
      && (state == Ready ==> timers == 0) && (state == Wait ==> timers == 1)
      && (state == Finished <==> wakes == 1)
    }

    constructor ()
      ensures Valid() && state == Ready && timers == 0
    {
      state, timers, wakes := Ready, 0, 0;
    }

    /** The first poll sets the timer; the end of the sleep is reported from then on. */
    method Poll() returns (result: Option<SleepState>)
      requires Valid()
      modifies this
      ensures Valid() && wakes == old(wakes)
      ensures old(state) == Ready ==> state == Wait && timers == 1
      ensures old(state) != Ready ==> state == old(state) && timers == old(timers)
      ensures result == if old(state) == Canceled || old(state) == Finished then Some(old(state)) else None
    {
      match state {
        case Wait => return None;
        case Canceled => return Some(Canceled);
        case Finished => return Some(Finished);
        case Ready =>
          state := Wait;
          timers := timers + 1;
          return None;
      }
    }

    /** The timer runs out: only a sleep that still waits finishes and wakes its task. */
    method Fire()
      requires Valid() && timers == 1
      modifies this
      ensures Valid() && timers == old(timers)
      ensures state == if old(state) == Wait then Finished else old(state)
      ensures wakes == old(wakes) + if old(state) == Wait then 1 else 0
    {
      if state == Wait {
        state := Finished;
        wakes := wakes + 1;
      }
    }

    method Cancel()
      requires Valid()
      modifies this
      ensures Valid() && timers == old(timers) && wakes == old(wakes)
      ensures state == if old(state) == Finished then Finished else Canceled
    {
      if state == Ready || state == Wait {
        state := Canceled;
      }
    }

    /** Dropping a sleep cancels it only if it waits. */
    method Drop()
      requires Valid()
      modifies this
      ensures Valid() && timers == old(timers) && wakes == old(wakes)
      ensures state == if old(state) == Wait then Canceled else old(state)
    {
      if state == Wait {
        state := Canceled;
      }
    }
  }

  datatype MissedTick = Burst | Delay | Skip

  /** The number of ticks to go on after `missed` whole periods, as a 32-bit number. */
  function SkipCount(missed: nat): (k: nat)
    ensures k == (missed + 1) % U32
    ensures missed + 1 < U32 ==> k == missed + 1
    ensures missed + 1 >= U32 ==> k <= missed
  {
    (missed % U32 + 1) % U32
  }

  /** The target after a tick for `tick` that was seen at `now`. */
  function NextTarget(behavior: MissedTick, tick: nat, period: nat, now: nat): (next: nat)
    requires period > 0
  {
    if now > tick then
      match behavior
      case Burst => tick + period
      case Delay => now + period
      case Skip => tick + period * SkipCount(Since(now, tick) / period)
    else tick + period
  }

  /**
   A tick seen in time is followed by the next one of the grid. After a late one skipping goes to the first
   tick of the grid that lies after `now`, exactly when the number of the tick to go to fits in 32 bits;
   otherwise the number is cut to 32 bits and the target is not after `now`.
   */
  lemma {:induction false} SkipExact(tick: nat, period: nat, now: nat)
    requires period > 0 && now < tick + U64
    ensures
      var next := NextTarget(Skip, tick, period, now);
      && (now <= tick ==> next == tick + period)
      && (now > tick ==> (next > now <==> (now - tick) / period + 1 < U32))
      && (now > tick && next > now ==> next - period <= now)
      && (now > tick ==> next == tick + period * SkipCount((now - tick) / period))
      && next >= tick && (next - tick) % period == 0
  {
    if now > tick {
      var m := (now - tick) / period;
      var k := SkipCount(m);
      NextMultiple(now - tick, period);
      Multiple(period, k);
      if m + 1 >= U32 {
        Monotone(period, k, m);
      }
    } else {
      Multiple(period, 1);
    }
  }

  /** Where 32 bits do not suffice: after that many periods skipping goes back to the tick it came from. */
  lemma {:induction false} SkipFallsBehind(tick: nat, period: nat)
    requires 0 < period < U32
    ensures NextTarget(Skip, tick, period, tick + period * (U32 - 1)) == tick
  {
    var late := period * (U32 - 1);
    DivModUnique(late, period, U32 - 1, 0);
    assert Since(tick + late, tick) == late;
  }

  lemma {:induction false} Multiple(p: nat, k: nat)
    requires p > 0
    ensures (p * k) % p == 0
  {
    DivModUnique(p * k, p, k, 0);
  }

  /** The first multiple of `period` after `late`. */
  lemma {:induction false} NextMultiple(late: nat, period: nat)
    requires period > 0
    ensures period * (late / period) <= late < period * (late / period + 1) <= late + period
  {
    var m := late / period;
    assert late == m * period + late % period;
    assert period * (m + 1) == period * m + period;
  }

  lemma {:induction false} Monotone(p: nat, a: nat, b: nat)
    requires a <= b
    ensures p * a <= p * b
  {
  }

  class Interval {
    var nextTickTarget: nat
    /** The time the pending sleep was asked to wait, if there is one. */
    var delay: Option<nat>
    const period: nat
    const behavior: MissedTick

    constructor (start: nat, period: nat, behavior: MissedTick)
      requires period > 0
      ensures nextTickTarget == start && delay == None && this.period == period && this.behavior == behavior
    {
      nextTickTarget, delay, this.period, this.behavior := start, None, period, behavior;
    }

    /** One poll; `slept` says whether the pending sleep has ended, and the clock is read twice. */
    method PollNext(before: nat, slept: bool, now: nat) returns (tick: Option<nat>)
      requires period > 0
      modifies this
      ensures !slept ==>
        && tick == None && nextTickTarget == old(nextTickTarget)
        && delay == Some(if old(delay).Some? then old(delay).value else Since(nextTickTarget, before))
      ensures slept ==>
        && tick == Some(old(nextTickTarget)) && delay == None
        && nextTickTarget == NextTarget(behavior, old(nextTickTarget), period, now)
    {
      if delay == None {
        delay := Some(Since(nextTickTarget, before));
      }
      if !slept {
        return None;
      }
      tick := Some(nextTickTarget);
      nextTickTarget := NextTarget(behavior, nextTickTarget, period, now);
      delay := None;
    }
  }

  /** The targets of the ticks that were seen at the times `nows`, from `start` on. */
  function Targets(behavior: MissedTick, start: nat, period: nat, nows: seq<nat>): (r: seq<nat>)
    requires period > 0
    ensures |r| == |nows| + 1 && r[0] == start
    decreases |nows|
  {
    if nows == [] then [start]
    else [start] + Targets(behavior, NextTarget(behavior, start, period, nows[0]), period, nows[1..])
  }

  /** One more tick adds the target that follows the last one. */
  lemma {:induction false} TargetsPush(behavior: MissedTick, start: nat, period: nat, nows: seq<nat>, now: nat)
    requires period > 0
    ensures var r := Targets(behavior, start, period, nows);
      Targets(behavior, start, period, nows + [now]) == r + [NextTarget(behavior, r[|nows|], period, now)]
    decreases |nows|
  {
    if nows == [] {
      assert [now][1..] == [];
    } else {
      assert (nows + [now])[1..] == nows[1..] + [now];
      TargetsPush(behavior, NextTarget(behavior, start, period, nows[0]), period, nows[1..], now);
    }
  }

  /** Delaying starts each period anew from the time the tick was seen, if that was late. */
  lemma {:induction false} DelayRestarts(start: nat, period: nat, nows: seq<nat>, k: nat)
    requires period > 0 && k < |nows|
    ensures var r := Targets(Delay, start, period, nows); r[k + 1] == Max(nows[k], r[k]) + period
    decreases |nows|
  {
    if k > 0 {
      DelayRestarts(NextTarget(Delay, start, period, nows[0]), period, nows[1..], k - 1);
    }
  }

  /** Bursting never drifts: however late the ticks are seen, the k-th is due k periods after the first. */
  lemma {:induction false} BurstNeverDrifts(start: nat, period: nat, nows: seq<nat>, k: nat)
    requires period > 0 && k <= |nows|
    ensures Targets(Burst, start, period, nows)[k] == start + k * period
    decreases |nows|
  {
    if k > 0 {
      BurstNeverDrifts(start + period, period, nows[1..], k - 1);
      assert k * period == (k - 1) * period + period;
    }
  }

  lemma {:induction false} Distribute(p: nat, a: nat, b: nat)
    ensures p * (a + b) == p * a + p * b
  {
  }

  /** Skipping stays on the grid of the first tick for ever. */
  lemma {:induction false} SkipStaysOnGrid(start: nat, period: nat, nows: seq<nat>, k: nat)
    requires period > 0 && k <= |nows|
    ensures exists j: nat :: Targets(Skip, start, period, nows)[k] == start + period * j
    decreases |nows|
  {
    if k == 0 {
      assert Targets(Skip, start, period, nows)[0] == start + period * 0;
    } else {
      var next := NextTarget(Skip, start, period, nows[0]);
      SkipStaysOnGrid(next, period, nows[1..], k - 1);
      var i := if nows[0] > start then SkipCount(Since(nows[0], start) / period) else 1;
      assert next == start + period * i;
      var j: nat :| Targets(Skip, next, period, nows[1..])[k - 1] == next + period * j;
      Distribute(period, i, j);
      assert Targets(Skip, start, period, nows)[k] == start + period * (i + j);
    }
  }
}
