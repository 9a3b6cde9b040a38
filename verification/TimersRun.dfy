/** Whole runs of the sleeping-task list: sleepers are added and wake calls fire them. */
module TimersRun {
  import opened Common
  import opened Timers

  /**
   The queue, the deadline of every sleeper so far by arrival number, the sleepers fired so
   far in order, and the largest clock reading so far.
   */
  datatype State = State(queue: Queue<nat>, due: seq<nat>, fired: seq<Entry<nat>>, peak: nat)

  datatype Event = Sleep(now: nat, dur: nat) | Until(now: nat, next: nat) | Wake(readings: seq<nat>)

  function Init(): (s: State) {
    State(Queue(0, []), [], [], 0)
  }

  function Highest(peak: nat, readings: seq<nat>): (r: nat)
    ensures peak <= r && forall i :: 0 <= i < |readings| ==> readings[i] <= r
  {
    if readings == [] then peak
    else
      var r := Highest(peak, readings[1..]);
      assert forall i :: 0 < i < |readings| ==> readings[i] == readings[1..][i - 1];
      Max(readings[0], r)
  }

  /** How many readings a wake call makes: one in each round of its loop. */
  function Rounds<T>(q: Queue<T>, readings: seq<nat>): (n: nat)
    requires |q.pending| <= |readings|
    ensures n <= |q.pending|
    decreases |q.pending|
  {
    if q.pending == [] then 0
    else if q.pending[0].at - q.base <= Elapsed(q.base, readings[0]) then
      1 + Rounds(Queue(q.pending[0].at, q.pending[1..]), readings[1..])
    else 1
  }

  ghost predicate Enabled(s: State, e: Event) {
    e.Wake? ==> |s.queue.pending| <= |e.readings|
  }

  /** The largest reading once a wake call has made its own. */
  function PeakAfter(s: State, readings: seq<nat>): (peak: nat)
    requires |s.queue.pending| <= |readings|
  {
    Highest(s.peak, readings[..Rounds(s.queue, readings)])
  }

  ghost function Next(s: State, e: Event): (t: State)
    requires Enabled(s, e)
  {
    match e
    case Sleep(now, dur) =>
      State(SleepTask(s.queue, now, dur, |s.due|), s.due + [SleepDue(s.queue, now, dur)],
            s.fired, Max(s.peak, now))
    case Until(now, next) =>
      State(SleepUntilTask(s.queue, now, next, |s.due|), s.due + [UntilDue(s.queue, now, next)],
            s.fired, Max(s.peak, now))
    case Wake(readings) =>
      var woken := WakeTask(s.queue, readings);
      State(woken.0, s.due, s.fired + woken.1, PeakAfter(s, readings))
  }

  ghost predicate RunStep(s: State, e: Event, t: State) {
    Enabled(s, e) && t == Next(s, e)
  }

  ghost predicate Run(run: seq<State>, events: seq<Event>) {
    && |run| == |events| + 1 && run[0] == Init()
    && forall i :: 0 <= i < |events| ==> RunStep(run[i], events[i], run[i + 1])
  }

  /** Earlier deadlines come first, and among equal ones the earlier arrival. */
  predicate Before(a: Entry<nat>, b: Entry<nat>) {
    a.at < b.at || (a.at == b.at && a.data < b.data)
  }

  ghost predicate InOrder(entries: seq<Entry<nat>>) {
    forall i, j :: 0 <= i < j < |entries| ==> Before(entries[i], entries[j])
  }

  /** Every sleeper that ever arrived stands in `entries` exactly once, with its own deadline. */
  ghost predicate Accounted(due: seq<nat>, entries: seq<Entry<nat>>) {
    && |entries| == |due|
    && (forall i :: 0 <= i < |entries| ==> entries[i].data < |due| && entries[i].at == due[entries[i].data])
    && (forall i, j :: 0 <= i < j < |entries| ==> entries[i].data != entries[j].data)
  }

  ghost predicate Above(base: nat, entries: seq<Entry<nat>>) {
    forall i :: 0 <= i < |entries| ==> base <= entries[i].at
  }

  ghost predicate Reached<T>(peak: nat, entries: seq<Entry<T>>) {
    forall i :: 0 <= i < |entries| ==> entries[i].at <= peak
  }

  ghost predicate Inv(s: State) {
    && InOrder(s.queue.pending) && Above(s.queue.base, s.queue.pending) && s.queue.base <= s.peak
    && Accounted(s.due, s.fired + s.queue.pending)
    && Reached(s.peak, s.fired)
  }

  lemma {:induction false} InOrderSorted(entries: seq<Entry<nat>>)
    requires InOrder(entries)
    ensures Sorted(entries)
  {
    forall i, j | 0 <= i < j < |entries| ensures entries[i].at <= entries[j].at {
      assert Before(entries[i], entries[j]);
    }
  }

  /** Inserting the newest arrival keeps a list in order. */
  lemma {:induction false} InsertInOrder(pending: seq<Entry<nat>>, e: Entry<nat>) returns (k: nat)
    requires InOrder(pending) && forall i :: 0 <= i < |pending| ==> pending[i].data < e.data
    ensures k <= |pending| && Insert(pending, e) == Spliced(pending, k, e)
    ensures InOrder(Insert(pending, e))
  {
    InOrderSorted(pending);
    k := InsertStable(pending, e);
    var r := Spliced(pending, k, e);
    forall i, j | 0 <= i < j < |r| ensures Before(r[i], r[j]) {
      if i != k && j != k {
        var x, y := if i < k then i else i - 1, if j < k then j else j - 1;
        assert Before(pending[x], pending[y]);
      }
    }
  }

  lemma {:induction false} SpliceAccounted(due: seq<nat>, all: seq<Entry<nat>>, at: nat, m: nat)
    requires Accounted(due, all) && m <= |all|
    ensures Accounted(due + [at], Spliced(all, m, Entry(at, |due|)))
  {
    var r := Spliced(all, m, Entry(at, |due|));
    forall i | 0 <= i < |r| ensures r[i].data < |due| + 1 && r[i].at == (due + [at])[r[i].data] {
      assert i != m ==> r[i] == all[if i < m then i else i - 1];
    }
    forall i, j | 0 <= i < j < |r| ensures r[i].data != r[j].data {
      assert i != m ==> r[i] == all[if i < m then i else i - 1];
      assert j != m ==> r[j] == all[if j < m then j else j - 1];
    }
  }

  lemma {:induction false} SpliceTail<T>(a: seq<T>, b: seq<T>, k: nat, e: T)
    requires k <= |b|
    ensures a + Spliced(b, k, e) == Spliced(a + b, |a| + k, e)
  {
  }

  lemma {:induction false} AccountedIds(due: seq<nat>, fired: seq<Entry<nat>>, pending: seq<Entry<nat>>)
    requires Accounted(due, fired + pending)
    ensures forall i :: 0 <= i < |pending| ==> pending[i].data < |due|
  {
    assert forall i :: 0 <= i < |pending| ==> pending[i] == (fired + pending)[|fired| + i];
  }

  lemma {:induction false} AddAccounted(
      due: seq<nat>, fired: seq<Entry<nat>>, pending: seq<Entry<nat>>, at: nat, k: nat)
    requires Accounted(due, fired + pending) && k <= |pending|
    ensures Accounted(due + [at], fired + Spliced(pending, k, Entry(at, |due|)))
  {
    SpliceAccounted(due, fired + pending, at, |fired| + k);
    SpliceTail(fired, pending, k, Entry(at, |due|));
  }

  /** The state after the arrival of a sleeper that is due at `at`. */
  function Arrive(s: State, now: nat, at: nat): (t: State) {
    State(Queue(Rebase(s.queue, now).base, Insert(s.queue.pending, Entry(at, |s.due|))),
          s.due + [at], s.fired, Max(s.peak, now))
  }

  /** A sleeper that arrives is due no earlier than the base time it is measured from. */
  lemma {:induction false} AboveSpliced(base: nat, pending: seq<Entry<nat>>, k: nat, e: Entry<nat>)
    requires k <= |pending| && Above(base, pending) && base <= e.at
    ensures Above(base, Spliced(pending, k, e))
  {
  }

  lemma {:induction false} ArriveInv(s: State, now: nat, at: nat) returns (k: nat)
    requires Inv(s) && Rebase(s.queue, now).base <= at
    ensures Inv(Arrive(s, now, at))
    ensures k <= |s.queue.pending|
    ensures Arrive(s, now, at).queue.pending == Spliced(s.queue.pending, k, Entry(at, |s.due|))
  {
    AccountedIds(s.due, s.fired, s.queue.pending);
    k := InsertInOrder(s.queue.pending, Entry(at, |s.due|));
    AddAccounted(s.due, s.fired, s.queue.pending, at, k);
    AboveSpliced(Rebase(s.queue, now).base, s.queue.pending, k, Entry(at, |s.due|));
  }

  /** A wake call fires a prefix of the pending sleepers and moves the base time to the last of them. */
  lemma {:induction false} WakePrefix<T>(q: Queue<T>, readings: seq<nat>)
    requires |q.pending| <= |readings|
    ensures
      var woken := WakeTask(q, readings);
      && woken.1 + woken.0.pending == q.pending
      && woken.0.base == (if woken.1 == [] then q.base else woken.1[|woken.1| - 1].at)
    decreases |q.pending|
  {
    if q.pending != [] && q.pending[0].at - q.base <= Elapsed(q.base, readings[0]) {
      var later := Queue(q.pending[0].at, q.pending[1..]);
      WakePrefix(later, readings[1..]);
      var rest := WakeTask(later, readings[1..]);
      assert ([q.pending[0]] + rest.1) + rest.0.pending == [q.pending[0]] + (rest.1 + rest.0.pending);
    }
  }

  /** A wake call fires nothing that neither the base time nor a reading it made has reached. */
  lemma {:induction false} WakeReached<T>(q: Queue<T>, readings: seq<nat>, peak: nat)
    requires |q.pending| <= |readings|
    requires q.base <= peak && forall i :: 0 <= i < Rounds(q, readings) ==> readings[i] <= peak
    ensures Reached(peak, WakeTask(q, readings).1)
    ensures WakeTask(q, readings).0.base <= peak
    decreases |q.pending|
  {
    if q.pending != [] && q.pending[0].at - q.base <= Elapsed(q.base, readings[0]) {
      WakeReached(Queue(q.pending[0].at, q.pending[1..]), readings[1..], peak);
    }
  }

  /** The first sleeper a wake call leaves had not timed out at the reading that ended the call. */
  lemma {:induction false} WakeStops<T>(q: Queue<T>, readings: seq<nat>)
    requires |q.pending| <= |readings|
    ensures
      var woken := WakeTask(q, readings);
      woken.0.pending != [] ==>
        && |woken.1| < Rounds(q, readings)
        && woken.0.pending[0].at - woken.0.base > Elapsed(woken.0.base, readings[|woken.1|])
    decreases |q.pending|
  {
    if q.pending != [] && q.pending[0].at - q.base <= Elapsed(q.base, readings[0]) {
      WakeStops(Queue(q.pending[0].at, q.pending[1..]), readings[1..]);
    }
  }

  /** What a wake call leaves pending is in order and due no earlier than the new base time. */
  lemma {:induction false} WakeOrder(q: Queue<nat>, readings: seq<nat>)
    requires |q.pending| <= |readings| && InOrder(q.pending) && Above(q.base, q.pending)
    ensures InOrder(WakeTask(q, readings).0.pending)
    ensures Above(WakeTask(q, readings).0.base, WakeTask(q, readings).0.pending)
    decreases |q.pending|
  {
    if q.pending != [] && q.pending[0].at - q.base <= Elapsed(q.base, readings[0]) {
      var later := Queue(q.pending[0].at, q.pending[1..]);
      forall i, j | 0 <= i < j < |later.pending| ensures Before(later.pending[i], later.pending[j]) {
        assert Before(q.pending[i + 1], q.pending[j + 1]);
      }
      forall i | 0 <= i < |later.pending| ensures later.base <= later.pending[i].at {
        assert Before(q.pending[0], q.pending[i + 1]);
      }
      WakeOrder(later, readings[1..]);
    }
  }

  lemma {:induction false} WakeLog(s: State, readings: seq<nat>)
    requires s.queue.base <= s.peak && Reached(s.peak, s.fired) && |s.queue.pending| <= |readings|
    ensures
      var woken := WakeTask(s.queue, readings);
      && (s.fired + woken.1) + woken.0.pending == s.fired + s.queue.pending
      && woken.0.base <= PeakAfter(s, readings)
      && Reached(PeakAfter(s, readings), s.fired + woken.1)
  {
    var woken := WakeTask(s.queue, readings);
    WakePrefix(s.queue, readings);
    var made := readings[..Rounds(s.queue, readings)];
    assert forall i :: 0 <= i < |made| ==> readings[i] == made[i];
    WakeReached(s.queue, readings, PeakAfter(s, readings));
    assert (s.fired + woken.1) + woken.0.pending == s.fired + (woken.1 + woken.0.pending);
  }

  lemma {:induction false} WakeInv(s: State, readings: seq<nat>)
    requires Inv(s) && |s.queue.pending| <= |readings|
    ensures Inv(Next(s, Wake(readings)))
  {
    WakeLog(s, readings);
    WakeOrder(s.queue, readings);
  }

  lemma {:induction false} NextInv(s: State, e: Event)
    requires Inv(s) && Enabled(s, e)
    ensures Inv(Next(s, e))
  {
    match e
    case Sleep(now, dur) => var _ := ArriveInv(s, now, SleepDue(s.queue, now, dur));
    case Until(now, next) => var _ := ArriveInv(s, now, UntilDue(s.queue, now, next));
    case Wake(readings) => WakeInv(s, readings);
  }

  lemma {:induction false} RunInv(run: seq<State>, events: seq<Event>, i: nat)
    requires Run(run, events) && i < |run|
    ensures Inv(run[i])
  {
    if i > 0 {
      RunInv(run, events, i - 1);
      assert RunStep(run[i - 1], events[i - 1], run[i - 1 + 1]);
      NextInv(run[i - 1], events[i - 1]);
    }
  }

  /**
   In every run, each sleeper that arrived has fired or is pending, exactly once and with its
   own deadline, and none has fired before the clock had read that deadline.
   */
  lemma {:induction false} FiresOnceNeverEarly(run: seq<State>, events: seq<Event>, i: nat)
    requires Run(run, events) && i < |run|
    ensures Accounted(run[i].due, run[i].fired + run[i].queue.pending)
    ensures Reached(run[i].peak, run[i].fired)
    ensures i > 0 ==> run[i - 1].fired <= run[i].fired && run[i - 1].due <= run[i].due
  {
    RunInv(run, events, i);
    if i > 0 {
      assert RunStep(run[i - 1], events[i - 1], run[i - 1 + 1]);
    }
  }

  /** Where the sleeper with arrival number `id` stands. */
  lemma {:induction false} Find(due: seq<nat>, entries: seq<Entry<nat>>, id: nat) returns (k: nat)
    requires Accounted(due, entries) && id < |due|
    ensures k < |entries| && entries[k].data == id && entries[k].at == due[id]
  {
    var ids: seq<nat> := seq(|entries|, i requires 0 <= i < |entries| => entries[i].data);
    var members: set<nat> := set x | x in ids;
    assert NoDup(ids);
    DupCardinality(ids);
    assert id in members by {
      if id !in members {
        BoundedSetCardinality(members + {id}, 0, |due|);
      }
    }
    k :| 0 <= k < |ids| && ids[k] == id;
  }

  /** The sleeper with arrival number `id` has fired. */
  ghost predicate HasFired(s: State, id: nat) {
    id < |s.due| && Entry(s.due[id], id) in s.fired
  }

  lemma {:induction false} WakeFires(s: State, readings: seq<nat>, t: nat, id: nat)
    requires Inv(s) && |s.queue.pending| <= |readings|
    requires forall j :: 0 <= j < Rounds(s.queue, readings) ==> t <= readings[j] < s.queue.base + U64
    requires id < |s.due| && s.due[id] <= t
    ensures HasFired(Next(s, Wake(readings)), id)
  {
    var r := Next(s, Wake(readings));
    WakeInv(s, readings);
    WakeLeavesLater(s.queue, readings, t);
    var k := Find(r.due, r.fired + r.queue.pending, id);
    assert r.fired[k] == Entry(s.due[id], id);
  }

  /**
   A wake call whose readings are all at or past `t` fires every sleeper due by `t`: so each
   fires during the first wake call begun at or after its deadline. The readings must lie
   within 64 bits of the base time.
   */
  lemma {:induction false} WakeServesAllDue(run: seq<State>, events: seq<Event>, i: nat, t: nat, id: nat)
    requires Run(run, events) && i < |events| && events[i].Wake?
    requires |run[i].queue.pending| <= |events[i].readings|
    requires forall j :: 0 <= j < Rounds(run[i].queue, events[i].readings) ==>
      t <= events[i].readings[j] < run[i].queue.base + U64
    requires id < |run[i].due| && run[i].due[id] <= t
    ensures HasFired(run[i + 1], id)
  {
    RunInv(run, events, i);
    assert RunStep(run[i], events[i], run[i + 1]);
    WakeFires(run[i], events[i].readings, t, id);
  }

  lemma {:induction false} WakeBase(q: Queue<nat>, readings: seq<nat>)
    requires |q.pending| <= |readings| && InOrder(q.pending) && Above(q.base, q.pending)
    ensures q.base <= WakeTask(q, readings).0.base
  {
    WakePrefix(q, readings);
    var fired := WakeTask(q, readings).1;
    if fired != [] {
      assert q.pending[|fired| - 1] == fired[|fired| - 1];
    }
  }

  lemma {:induction false} WakeLeavesLater(q: Queue<nat>, readings: seq<nat>, t: nat)
    requires |q.pending| <= |readings| && InOrder(q.pending) && Above(q.base, q.pending)
    requires forall j :: 0 <= j < Rounds(q, readings) ==> t <= readings[j] < q.base + U64
    ensures forall j :: 0 <= j < |WakeTask(q, readings).0.pending| ==> t < WakeTask(q, readings).0.pending[j].at
  {
    WakeBase(q, readings);
    WakeStops(q, readings);
    WakeOrder(q, readings);
    var left := WakeTask(q, readings).0.pending;
    forall j | 0 <= j < |left| ensures t < left[j].at {
      assert j > 0 ==> Before(left[0], left[j]);
    }
  }

  /**
   An arrival keeps the whole history in deadline order, with equal deadlines in order of
   arrival, exactly when it is due no earlier than the last sleeper that fired.
   */
  lemma {:induction false} ArrivalOrderExact(s: State, now: nat, at: nat)
    requires Inv(s) && Rebase(s.queue, now).base <= at && InOrder(s.fired + s.queue.pending)
    ensures InOrder(s.fired + Arrive(s, now, at).queue.pending)
      <==> s.fired == [] || s.fired[|s.fired| - 1].at <= at
  {
    var k := ArriveInv(s, now, at);
    var e: Entry<nat> := Entry(at, |s.due|);
    var pending, m := s.queue.pending, |s.fired|;
    var all, r := s.fired + pending, s.fired + Spliced(pending, k, e);
    assert r[m + k] == e;
    if m > 0 && InOrder(r) {
      assert Before(r[m - 1], r[m + k]) && r[m - 1] == s.fired[m - 1];
    }
    if m == 0 || s.fired[m - 1].at <= at {
      FiredBelow(s, at);
      forall i, j | 0 <= i < j < |r| ensures Before(r[i], r[j]) {
        if i < m && j >= m && j != m + k {
          assert Before(all[i], all[if j < m + k then j else j - 1]);
        } else if j < m {
          assert Before(all[i], all[j]);
        } else if i >= m {
          assert Before(Spliced(pending, k, e)[i - m], Spliced(pending, k, e)[j - m]);
        }
      }
    }
  }

  lemma {:induction false} FiredBelow(s: State, at: nat)
    requires Inv(s) && InOrder(s.fired + s.queue.pending)
    requires s.fired == [] || s.fired[|s.fired| - 1].at <= at
    ensures forall i :: 0 <= i < |s.fired| ==> Before(s.fired[i], Entry(at, |s.due|))
  {
    var all := s.fired + s.queue.pending;
    forall i | 0 <= i < |s.fired| ensures Before(s.fired[i], Entry(at, |s.due|)) {
      assert all[i] == s.fired[i];
      assert i < |s.fired| - 1 ==> Before(all[i], all[|s.fired| - 1]);
    }
  }

  /** Each arrival reads the clock no earlier than every reading before it. */
  ghost predicate ClockForward(run: seq<State>, events: seq<Event>)
    requires |run| == |events| + 1
  {
    forall i :: 0 <= i < |events| && !events[i].Wake? ==> run[i].peak <= events[i].now
  }

  /** While the clock goes forward, the whole history fires in deadline order, ties by arrival. */
  lemma {:induction false} StableDeadlineOrder(run: seq<State>, events: seq<Event>, i: nat)
    requires Run(run, events) && ClockForward(run, events) && i < |run|
    ensures InOrder(run[i].fired + run[i].queue.pending) && Reached(run[i].queue.base, run[i].fired)
  {
    if i > 0 {
      var s, e := run[i - 1], events[i - 1];
      StableDeadlineOrder(run, events, i - 1);
      RunInv(run, events, i - 1);
      assert RunStep(s, e, run[i - 1 + 1]);
      match e
      case Sleep(now, dur) => ArrivalOrderExact(s, now, SleepDue(s.queue, now, dur));
      case Until(now, next) => ArrivalOrderExact(s, now, UntilDue(s.queue, now, next));
      case Wake(readings) => WakeKeepsOrder(s, readings);
    }
  }

  lemma {:induction false} WakeKeepsOrder(s: State, readings: seq<nat>)
    requires Inv(s) && |s.queue.pending| <= |readings|
    requires InOrder(s.fired + s.queue.pending) && Reached(s.queue.base, s.fired)
    ensures var t := Next(s, Wake(readings));
      InOrder(t.fired + t.queue.pending) && Reached(t.queue.base, t.fired)
  {
    WakeLog(s, readings);
    WakePrefix(s.queue, readings);
    WakeBase(s.queue, readings);
    var t := Next(s, Wake(readings));
    var all, n := t.fired + t.queue.pending, |t.fired|;
    forall i | 0 <= i < n ensures t.fired[i].at <= t.queue.base {
      assert all[i] == t.fired[i];
      if |t.fired| > |s.fired| {
        assert i < n - 1 ==> Before(all[i], all[n - 1]);
      }
    }
  }

  /** When the clock goes back while nothing sleeps, a later arrival can be due before one that fired. */
  lemma {:induction false} ClockBackwardReorders()
    ensures exists run: seq<State>, events: seq<Event> ::
      Run(run, events) && |run| > 0 && !InOrder(run[|run| - 1].fired)
  {
    var events := [Sleep(100, 0), Wake([100]), Sleep(50, 10), Wake([60])];
    var s1 := Next(Init(), events[0]);
    assert s1 == State(Queue(100, [Entry(100, 0)]), [100], [], 100);
    var s2 := Next(s1, events[1]);
    assert s2 == State(Queue(100, []), [100], [Entry(100, 0)], 100);
    var s3 := Next(s2, events[2]);
    assert s3 == State(Queue(50, [Entry(60, 1)]), [100, 60], [Entry(100, 0)], 100);
    var s4 := Next(s3, events[3]);
    assert s4.fired == [Entry(100, 0), Entry(60, 1)];
    var run := [Init(), s1, s2, s3, s4];
    assert Run(run, events);
    assert !Before(s4.fired[0], s4.fired[1]);
  }
}
