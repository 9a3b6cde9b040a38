/**
 Sleeping tasks kept in a delta list: each cell holds the time from its predecessor, and the
 first cell the time from the base time. Times are nanoseconds. Clock readings are parameters
 and may run backwards, as the source allows; durations are truncated to 64 bits where it does.
 */
module Timers {
  import opened Common

  const U64: nat := 0x1_0000_0000_0000_0000

  /** The time from `base` to the reading `now`, as a 64-bit number; zero if the clock went back. */
  function Elapsed(base: nat, now: nat): (r: nat)
    ensures r <= Max(0, now - base)
    ensures now < base + U64 ==> r == Max(0, now - base)
  {
    if now > base then (now - base) % U64 else 0
  }

  /** The time from `base` to `next`, at least zero and capped at the largest 64-bit number. */
  function Since(next: nat, base: nat): (r: nat)
    ensures r <= Max(0, next - base)
    ensures next < base + U64 ==> r == Max(0, next - base)
  {
    if next > base then Min(next - base, U64 - 1) else 0
  }

  datatype Cell<T> = Cell(delta: nat, data: T)

  /** A sleeper and the absolute time at which it is due. */
  datatype Entry<T> = Entry(at: nat, data: T)

  /** The absolute times of a delta list that starts at `base`. */
  function Absolute<T>(base: nat, list: seq<Cell<T>>): (r: seq<Entry<T>>)
    ensures |r| == |list|
    decreases |list|
  {
    if list == [] then []
    else
      var at := base + list[0].delta;
      [Entry(at, list[0].data)] + Absolute(at, list[1..])
  }

  function Total<T>(list: seq<Cell<T>>): (r: nat) {
    if list == [] then 0 else list[0].delta + Total(list[1..])
  }

  ghost predicate Sorted<T>(pending: seq<Entry<T>>) {
    forall i, j :: 0 <= i < j < |pending| ==> pending[i].at <= pending[j].at
  }

  /** Puts an entry behind every entry that is not later. */
  function Insert<T>(pending: seq<Entry<T>>, e: Entry<T>): (r: seq<Entry<T>>)
    ensures |r| == |pending| + 1
  {
    if pending == [] || e.at < pending[0].at then [e] + pending
    else [pending[0]] + Insert(pending[1..], e)
  }

  /** `s` with `e` put in at index `k`. */
  function Spliced<T>(s: seq<T>, k: nat, e: T): (r: seq<T>)
    requires k <= |s|
    ensures |r| == |s| + 1
    ensures forall i :: 0 <= i < |r| ==> r[i] == if i < k then s[i] else if i == k then e else s[i - 1]
  {
    s[..k] + ([e] + s[k..])
  }

  lemma {:induction false} AbsoluteSorted<T>(base: nat, list: seq<Cell<T>>)
    ensures Sorted(Absolute(base, list))
    ensures forall i :: 0 <= i < |list| ==> base <= Absolute(base, list)[i].at
    decreases |list|
  {
    if list != [] {
      AbsoluteSorted(base + list[0].delta, list[1..]);
    }
  }

  lemma {:induction false} AbsoluteConcat<T>(base: nat, a: seq<Cell<T>>, b: seq<Cell<T>>)
    ensures Absolute(base, a + b) == Absolute(base, a) + Absolute(base + Total(a), b)
    decreases |a|
  {
    if a == [] {
      assert a + b == b;
    } else {
      AbsoluteConcat(base + a[0].delta, a[1..], b);
      assert (a + b)[1..] == a[1..] + b;
    }
  }

  lemma {:induction false} TotalPush<T>(a: seq<Cell<T>>, c: Cell<T>)
    ensures Total(a + [c]) == Total(a) + c.delta
  {
    if a != [] {
      TotalPush(a[1..], c);
      assert (a + [c])[1..] == a[1..] + [c];
    }
  }

  /** Insertion steps over entries that are not later. */
  lemma {:induction false} InsertSkips<T>(a: seq<Entry<T>>, b: seq<Entry<T>>, e: Entry<T>)
    requires forall i :: 0 <= i < |a| ==> a[i].at <= e.at
    ensures Insert(a + b, e) == a + Insert(b, e)
  {
    if a == [] {
      assert a + b == b;
    } else {
      InsertSkips(a[1..], b, e);
      assert (a + b)[1..] == a[1..] + b;
    }
  }

  /**
   Insertion moves no other entry in time or order: the new entry lands after all that are due
   no later and before all that are due later.
   */
  lemma {:induction false} InsertStable<T>(pending: seq<Entry<T>>, e: Entry<T>) returns (k: nat)
    requires Sorted(pending)
    ensures k <= |pending| && Insert(pending, e) == Spliced(pending, k, e)
    ensures forall i :: 0 <= i < k ==> pending[i].at <= e.at
    ensures forall i :: k <= i < |pending| ==> e.at < pending[i].at
  {
    k := 0;
    while k < |pending| && pending[k].at <= e.at
      invariant k <= |pending| && forall i :: 0 <= i < k ==> pending[i].at <= e.at
    {
      k := k + 1;
    }
    var front, back := pending[..k], pending[k..];
    assert back == [] || e.at < back[0].at;
    InsertSkips(front, back, e);
    assert pending == front + back;
  }

  lemma {:induction false} AbsoluteBelow<T>(base: nat, list: seq<Cell<T>>)
    ensures forall i :: 0 <= i < |list| ==> Absolute(base, list)[i].at <= base + Total(list)
    decreases |list|
  {
    if list != [] {
      AbsoluteBelow(base + list[0].delta, list[1..]);
    }
  }

  /** Walks to the first cell that is later than `dur`, splits its delta and links the new cell in. */
  method InsertDelta<T>(list: seq<Cell<T>>, dur: nat, data: T) returns (r: seq<Cell<T>>)
    ensures forall base: nat :: Absolute(base, r) == Insert(Absolute(base, list), Entry(base + dur, data))
  {
    var delta, i := dur, 0;
    while i < |list| && delta >= list[i].delta
      invariant 0 <= i <= |list| && 0 <= delta && Total(list[..i]) + delta == dur
    {
      TotalPush(list[..i], list[i]);
      assert list[..i + 1] == list[..i] + [list[i]];
      delta := delta - list[i].delta;
      i := i + 1;
    }
    ghost var front, back := list[..i], list[i..];
    assert list == front + back;
    if i == |list| {
      r := list + [Cell(delta, data)];
      assert r == front + [Cell(delta, data)];
    } else {
      r := list[..i] + [Cell(delta, data), Cell(list[i].delta - delta, list[i].data)] + list[i + 1..];
      assert r == front + ([Cell(delta, data), Cell(list[i].delta - delta, list[i].data)] + back[1..]);
    }
    forall base: nat ensures Absolute(base, r) == Insert(Absolute(base, list), Entry(base + dur, data)) {
      SplitInsert(base, front, back, delta, data);
    }
  }

  /** The cells that replace `back` when a cell is linked in before it. */
  function Linked<T>(back: seq<Cell<T>>, delta: nat, data: T): (r: seq<Cell<T>>)
    requires back != [] ==> delta < back[0].delta
  {
    if back == [] then [Cell(delta, data)]
    else [Cell(delta, data), Cell(back[0].delta - delta, back[0].data)] + back[1..]
  }

  lemma {:induction false} LinkedIsInsert<T>(mid: nat, back: seq<Cell<T>>, delta: nat, data: T)
    requires back != [] ==> delta < back[0].delta
    ensures Absolute(mid, Linked(back, delta, data)) == Insert(Absolute(mid, back), Entry(mid + delta, data))
  {
    if back != [] {
      var rest := [Cell(back[0].delta - delta, back[0].data)] + back[1..];
      assert Linked(back, delta, data) == [Cell(delta, data)] + rest;
      assert Absolute(mid + delta, rest) == Absolute(mid, back);
    }
  }

  /** Linking a cell in after `front` inserts its absolute time and shifts no other. */
  lemma {:induction false} SplitInsert<T>(base: nat, front: seq<Cell<T>>, back: seq<Cell<T>>, delta: nat, data: T)
    requires back != [] ==> delta < back[0].delta
    ensures Absolute(base, front + Linked(back, delta, data))
      == Insert(Absolute(base, front + back), Entry(base + Total(front) + delta, data))
  {
    var mid := base + Total(front);
    var a, b, e := Absolute(base, front), Absolute(mid, back), Entry(mid + delta, data);
    calc {
      Absolute(base, front + Linked(back, delta, data));
      { AbsoluteConcat(base, front, Linked(back, delta, data)); }
      a + Absolute(mid, Linked(back, delta, data));
      { LinkedIsInsert(mid, back, delta, data); }
      a + Insert(b, e);
      { AbsoluteBelow(base, front); InsertSkips(a, b, e); }
      Insert(a + b, e);
      { AbsoluteConcat(base, front, back); }
      Insert(Absolute(base, front + back), e);
    }
  }

  /** The sleepers as a queue of absolute deadlines. */
  datatype Queue<T> = Queue(base: nat, pending: seq<Entry<T>>)

  /** Adding to an empty queue restarts the base time at the reading `now`. */
  function Rebase<T>(q: Queue<T>, now: nat): (r: Queue<T>) {
    if q.pending == [] then q.(base := now) else q
  }

  /** When a sleeper that asks for `dur` is due: measured from the base time, cut to 64 bits. */
  function SleepDue<T>(q: Queue<T>, now: nat, dur: nat): (at: nat) {
    if q.pending == [] then now + dur % U64 else q.base + (dur + Elapsed(q.base, now)) % U64
  }

  function SleepTask<T>(q: Queue<T>, now: nat, dur: nat, data: T): (r: Queue<T>) {
    Queue(Rebase(q, now).base, Insert(q.pending, Entry(SleepDue(q, now, dur), data)))
  }

  function UntilDue<T>(q: Queue<T>, now: nat, next: nat): (at: nat) {
    var base := Rebase(q, now).base;
    base + Since(next, base)
  }

  function SleepUntilTask<T>(q: Queue<T>, now: nat, next: nat, data: T): (r: Queue<T>) {
    Queue(Rebase(q, now).base, Insert(q.pending, Entry(UntilDue(q, now, next), data)))
  }

  /** The sleepers that one wake call fires, and the queue it leaves; one clock reading per round. */
  function WakeTask<T>(q: Queue<T>, readings: seq<nat>): (r: (Queue<T>, seq<Entry<T>>))
    requires |q.pending| <= |readings|
    decreases |q.pending|
  {
    if q.pending != [] && q.pending[0].at - q.base <= Elapsed(q.base, readings[0]) then
      var rest := WakeTask(Queue(q.pending[0].at, q.pending[1..]), readings[1..]);
      (rest.0, [q.pending[0]] + rest.1)
    else (q, [])
  }

  /**
   A sleeper is due at the time it asked for exactly when the time from the base to it fits in
   64 bits, of which the lowest are kept otherwise. If the clock went back behind the base time,
   it is due that much later.
   */
  lemma {:induction false} SleepDueExact<T>(q: Queue<T>, now: nat, dur: nat)
    ensures
      var from := Max(Rebase(q, now).base, now);
      && (SleepDue(q, now, dur) == from + dur <==> from - Rebase(q, now).base + dur < U64)
      && SleepDue(q, now, dur) == Rebase(q, now).base + (from - Rebase(q, now).base + dur) % U64
  {
    assert Elapsed(q.base, now) <= Max(0, now - q.base);
  }

  /**
   A sleeper for a given time is due then, or at the base time if that is later, exactly when the
   time from the base to it fits in 64 bits; otherwise it is due at the last time that does.
   */
  lemma {:induction false} UntilDueExact<T>(q: Queue<T>, now: nat, next: nat)
    ensures
      var base := Rebase(q, now).base;
      && (UntilDue(q, now, next) == Max(next, base) <==> next < base + U64)
      && UntilDue(q, now, next) == Max(base, Min(next, base + U64 - 1))
  {
    assert Since(next, Rebase(q, now).base) <= Max(0, next - Rebase(q, now).base);
  }

  /** Where the 64 bits do not suffice: a sleep of that length is due at once, one until then too early. */
  lemma {:induction false} CutShort<T>(q: Queue<T>, now: nat)
    requires q.pending == []
    ensures SleepDue(q, now, U64) == now
    ensures UntilDue(q, now, now + U64) == now + U64 - 1
  {
    assert U64 % U64 == 0;
  }

  /** A wake call that began with `start` has fired `gone` in `i` rounds and left `q`. */
  ghost predicate Resumes<T>(start: Queue<T>, readings: seq<nat>, q: Queue<T>, i: nat, gone: seq<Entry<T>>)
    requires |start.pending| <= |readings|
  {
    && i <= |readings| && |q.pending| <= |readings| - i
    && var rest := WakeTask(q, readings[i..]);
      WakeTask(start, readings).0 == rest.0 && WakeTask(start, readings).1 == gone + rest.1
  }

  lemma {:induction false} ResumeStep<T>(start: Queue<T>, readings: seq<nat>, q: Queue<T>, i: nat, gone: seq<Entry<T>>)
    requires |start.pending| <= |readings| && Resumes(start, readings, q, i, gone)
    requires q.pending != [] && q.pending[0].at - q.base <= Elapsed(q.base, readings[i])
    ensures Resumes(start, readings, Queue(q.pending[0].at, q.pending[1..]), i + 1, gone + [q.pending[0]])
  {
    var rest := WakeTask(Queue(q.pending[0].at, q.pending[1..]), readings[i + 1..]);
    assert readings[i..][1..] == readings[i + 1..];
    assert gone + ([q.pending[0]] + rest.1) == (gone + [q.pending[0]]) + rest.1;
  }

  class SleepingTasks<T> {
    var deltaList: seq<Cell<T>>
    var baseTime: nat

    ghost function View(): (q: Queue<T>)
      reads this
    {
      Queue(baseTime, Absolute(baseTime, deltaList))
    }

    constructor ()
      ensures View() == Queue(0, [])
    {
      deltaList, baseTime := [], 0;
    }

    method Sleep(now: nat, dur: nat, handler: T)
      modifies this
      ensures View() == SleepTask(old(View()), now, dur, handler)
    {
      var long := dur;
      if deltaList == [] {
        baseTime := now;
      } else {
        long := dur + Elapsed(baseTime, now);
      }
      deltaList := InsertDelta(deltaList, long % U64, handler);
    }

    method SleepUntil(now: nat, next: nat, handler: T)
      modifies this
      ensures View() == SleepUntilTask(old(View()), now, next, handler)
    {
      if deltaList == [] {
        baseTime := now;
      }
      deltaList := InsertDelta(deltaList, Since(next, baseTime), handler);
    }

    /** Fires the front of the list for as long as it has timed out. */
    method Wake(readings: seq<nat>) returns (fired: seq<T>)
      requires |deltaList| <= |readings|
      modifies this
      ensures
        var woken := WakeTask(old(View()), readings);
        View() == woken.0 && |fired| == |woken.1| && forall i :: 0 <= i < |fired| ==> fired[i] == woken.1[i].data
    {
      fired := [];
      var i := 0;
      ghost var start, gone: seq<Entry<T>> := View(), [];
      assert readings[0..] == readings && gone + WakeTask(start, readings).1 == WakeTask(start, readings).1;
      while deltaList != [] && deltaList[0].delta <= Elapsed(baseTime, readings[i])
        invariant 0 <= i <= |readings| && |deltaList| <= |readings| - i
        invariant Resumes(start, readings, View(), i, gone)
        invariant |fired| == |gone| && forall j :: 0 <= j < |fired| ==> fired[j] == gone[j].data
        decreases |deltaList|
      {
        var cell := deltaList[0];
        ResumeStep(start, readings, View(), i, gone);
        gone := gone + [View().pending[0]];
        deltaList := deltaList[1..];
        fired := fired + [cell.data];
        baseTime := baseTime + cell.delta;
        i := i + 1;
      }
      assert WakeTask(View(), readings[i..]) == (View(), []);
      assert gone + [] == gone;
    }

    /** How long the caller may wait before the front is due. */
    method TimeToWait(now: nat) returns (wait: Option<nat>)
      ensures wait == None <==> View().pending == []
      ensures wait.Some? ==> wait.value == Max(0, View().pending[0].at - baseTime - Elapsed(baseTime, now))
      ensures wait.Some? && now < baseTime + U64 ==>
        wait.value == Max(0, View().pending[0].at - Max(baseTime, now))
    {
      if deltaList == [] {
        return None;
      }
      var dur, elapsed := deltaList[0].delta, Elapsed(baseTime, now);
      return Some(if elapsed >= dur then 0 else dur - elapsed);
    }
  }
}
