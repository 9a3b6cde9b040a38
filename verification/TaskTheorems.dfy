/** What every run of the wake and poll machine guarantees. */
module TaskTheorems {
  import opened Common
  import opened TaskWake

  /**
   At every moment a task is in the run queues, or on its way to them, or held by one worker,
   and nowhere twice; only its holder can have its future locked. It is there exactly while it is
   runnable or running, so what is taken off a run queue is never over.
   */
  lemma {:induction false} NeverTwice(tasks: nat, workers: nat, run: seq<State>, events: seq<Event>, i: nat)
    requires Run(tasks, workers, run, events) && i < |run|
    ensures NoDup(run[i].queue + run[i].inFlight)
    ensures forall v, w :: 0 <= v < w < |run[i].workers| ==> !SameTask(run[i].workers[v], run[i].workers[w])
    ensures forall w :: 0 <= w < |run[i].workers| && !run[i].workers[w].Idle? ==>
      Holds(run[i].workers[w], run[i].workers[w].task) ==>
        run[i].workers[w].task !in run[i].queue && run[i].workers[w].task !in run[i].inFlight
    ensures forall t :: 0 <= t < |run[i].tasks| && run[i].tasks[t].locked ==> Held(run[i], t)
    ensures forall t :: 0 <= t < |run[i].tasks| ==>
      && (run[i].tasks[t].info.state == Runnable <==> t in run[i].queue + run[i].inFlight)
      && (run[i].tasks[t].info.state == Running <==> Held(run[i], t))
  {
    RunInv(tasks, workers, run, events, i);
    var s := run[i];
    forall w | 0 <= w < |s.workers| && !s.workers[w].Idle? && Holds(s.workers[w], s.workers[w].task)
      ensures s.workers[w].task !in s.queue && s.workers[w].task !in s.inFlight
    {
      SoleHolder(s, w);
      assert TaskInv(s, s.workers[w].task);
    }
    forall t | 0 <= t < |s.tasks|
      ensures s.tasks[t].locked ==> Held(s, t)
      ensures s.tasks[t].info.state == Runnable <==> t in s.queue + s.inFlight
      ensures s.tasks[t].info.state == Running <==> Held(s, t)
    {
      assert TaskInv(s, t);
    }
  }

  /**
   A dispatched task is always polled: its future is never locked by another worker, never
   completed, and the task is never over, so the three ways out before the poll are never taken.
   */
  lemma {:induction false} DispatchLeadsToPoll(
      tasks: nat, workers: nat, run: seq<State>, events: seq<Event>, i: nat, w: nat)
    requires Run(tasks, workers, run, events) && i < |events| && events[i] == Lock(w)
    ensures |run[i + 1].workers| == |run[i].workers| && w < |run[i].workers| && run[i].workers[w].Dispatched?
    ensures run[i + 1].workers[w] == Polling(run[i].workers[w].task)
  {
    RunInv(tasks, workers, run, events, i);
    assert RunStep(run[i], events[i], run[i + 1]);
    LockInv(run[i], w);
  }

  /**
   A task that no worker holds is terminated exactly if its last poll returned ready, and panicked exactly
   if its last poll panicked; a task that is held is neither.
   */
  lemma {:induction false} OverExactly(tasks: nat, workers: nat, run: seq<State>, events: seq<Event>, i: nat, t: nat)
    requires Run(tasks, workers, run, events) && i < |run| && t < |run[i].tasks|
    ensures var task := run[i].tasks[t];
      && (task.info.state == Terminated <==> !Held(run[i], t) && task.last == Some(Ready))
      && (task.info.state == Panicked <==> !Held(run[i], t) && task.last == Some(Panic))
  {
    RunInv(tasks, workers, run, events, i);
    assert TaskInv(run[i], t);
  }

  /** A worker begins to poll task `t`. */
  ghost predicate PollBegins(s: State, e: Event, t: nat) {
    e.Lock? && e.worker < |s.workers| && s.workers[e.worker] == Dispatched(t)
  }

  /** Event `j` wakes task `t`, and no poll of it has begun since. */
  ghost predicate WokenAt(run: seq<State>, events: seq<Event>, i: nat, t: nat, j: nat)
    requires |run| == |events| + 1 && i <= |events|
  {
    j < i && events[j] == Wake(t) && forall k :: j < k < i ==> !PollBegins(run[k], events[k], t)
  }

  ghost predicate WokenSince(run: seq<State>, events: seq<Event>, i: nat, t: nat)
    requires |run| == |events| + 1 && i <= |events|
  {
    exists j: nat :: WokenAt(run, events, i, t, j)
  }

  lemma {:induction false} WokenStep(run: seq<State>, events: seq<Event>, i: nat, t: nat)
    requires |run| == |events| + 1 && 0 < i <= |events|
    ensures WokenSince(run, events, i, t) <==>
      events[i - 1] == Wake(t) || (WokenSince(run, events, i - 1, t) && !PollBegins(run[i - 1], events[i - 1], t))
  {
    if WokenSince(run, events, i, t) {
      var j: nat :| WokenAt(run, events, i, t, j);
      if j < i - 1 {
        assert WokenAt(run, events, i - 1, t, j);
      }
    }
    if events[i - 1] == Wake(t) {
      assert WokenAt(run, events, i, t, i - 1);
    } else if WokenSince(run, events, i - 1, t) && !PollBegins(run[i - 1], events[i - 1], t) {
      var j: nat :| WokenAt(run, events, i - 1, t, j);
      assert WokenAt(run, events, i, t, j);
    }
  }

  predicate PollEnds(s: State, e: Event, t: nat) {
    e.Return? && e.worker < |s.workers| && s.workers[e.worker] == Polling(t)
  }

  /** What the last poll of task `t` that ended returned. */
  function LastResult(run: seq<State>, events: seq<Event>, i: nat, t: nat): (r: Option<PollResult>)
    requires |run| == |events| + 1 && i <= |events|
  {
    if i == 0 then None
    else
      var s, e := run[i - 1], events[i - 1];
      if PollEnds(s, e, t) then Some(e.result) else LastResult(run, events, i - 1, t)
  }

  lemma {:induction false} LedgerStep(s: State, e: Event, r: State, t: nat)
    requires Inv(s) && RunStep(s, e, r) && t < |s.tasks|
    ensures
      && |r.tasks| == |s.tasks|
      && (r.tasks[t].owed <==> e == Wake(t) || (s.tasks[t].owed && !PollBegins(s, e, t)))
      && r.tasks[t].last == if PollEnds(s, e, t) then Some(e.result) else s.tasks[t].last
  {
    if e.Lock? {
      LockInv(s, e.worker);
    }
  }

  /** The record of task `t` after the first `i` events. */
  ghost predicate Ledger(run: seq<State>, events: seq<Event>, i: nat, t: nat)
    requires |run| == |events| + 1 && i <= |events|
  {
    && t < |run[i].tasks| && (run[i].tasks[t].owed <==> WokenSince(run, events, i, t))
    && run[i].tasks[t].last == LastResult(run, events, i, t)
  }

  lemma {:induction false} LedgerNext(run: seq<State>, events: seq<Event>, i: nat, t: nat)
    requires |run| == |events| + 1 && 0 < i <= |events| && Ledger(run, events, i - 1, t)
    requires Inv(run[i - 1]) && RunStep(run[i - 1], events[i - 1], run[i])
    ensures Ledger(run, events, i, t) && |run[i].tasks| == |run[i - 1].tasks|
  {
    LedgerStep(run[i - 1], events[i - 1], run[i], t);
    WokenStep(run, events, i, t);
  }

  /**
   In every run the record of a task tells exactly whether it was woken since the last poll of it began,
   and what the last poll of it that ended returned.
   */
  lemma {:induction false} LedgerExact(tasks: nat, workers: nat, run: seq<State>, events: seq<Event>, i: nat, t: nat)
    requires Run(tasks, workers, run, events) && i < |run| && t < tasks
    ensures |run[i].tasks| == tasks
    ensures run[i].tasks[t].owed <==> WokenSince(run, events, i, t)
    ensures run[i].tasks[t].last == LastResult(run, events, i, t)
  {
    if i > 0 {
      LedgerExact(tasks, workers, run, events, i - 1, t);
      RunInv(tasks, workers, run, events, i - 1);
      assert RunStep(run[i - 1], events[i - 1], run[i - 1 + 1]);
      LedgerNext(run, events, i, t);
    }
  }

  /** Nothing is left to do until the next wake. */
  ghost predicate Quiescent(s: State) {
    s.queue == [] && s.inFlight == [] && forall w :: 0 <= w < |s.workers| ==> s.workers[w].Idle?
  }

  /**
   A wake that came after the last poll of its task began is never forgotten: until the task is
   over it is queued, or about to be queued, polled or woken again, or remembered in the task.
   When nothing is left to do, no such wake is outstanding.
   */
  lemma {:induction false} NoWakeForgotten(
      tasks: nat, workers: nat, run: seq<State>, events: seq<Event>, i: nat, t: nat)
    requires Run(tasks, workers, run, events) && i < |run| && t < |run[i].tasks|
    requires run[i].tasks[t].owed && !Over(run[i].tasks[t].info.state)
    ensures
      || t in run[i].queue || t in run[i].inFlight || Answering(run[i], t)
      || (run[i].tasks[t].info.needSched && Held(run[i], t))
    ensures !Quiescent(run[i])
  {
    RunInv(tasks, workers, run, events, i);
    assert TaskInv(run[i], t);
    if Answering(run[i], t) {
      var w :| 0 <= w < |run[i].workers| && (run[i].workers[w] == Rewake(t) || run[i].workers[w] == Dispatched(t));
    } else if run[i].tasks[t].info.state != Runnable {
      var w :| 0 <= w < |run[i].workers| && Holds(run[i].workers[w], t);
    }
  }

  function WorkerWork(w: Worker): (r: nat) {
    match w
    case Idle => 0
    case Dispatched(_) => 4
    case Polling(_) => 3
    case Polled(_, _) => 2
    case Rewake(_) => 7
  }

  function WorkersWork(ws: seq<Worker>): (r: nat) {
    if ws == [] then 0 else WorkerWork(ws[0]) + WorkersWork(ws[1..])
  }

  function TaskWork(t: Task): (r: nat) {
    if t.info.needSched then 6 else 0
  }

  function TasksWork(ts: seq<Task>): (r: nat) {
    if ts == [] then 0 else TaskWork(ts[0]) + TasksWork(ts[1..])
  }

  /** A bound on the steps that are left until the machine is quiescent, if nobody wakes a task. */
  function Work(s: State): (r: nat) {
    6 * |s.inFlight| + 5 * |s.queue| + WorkersWork(s.workers) + TasksWork(s.tasks)
  }

  lemma {:induction false} WorkersUpdate(ws: seq<Worker>, i: nat, w: Worker)
    requires i < |ws|
    ensures WorkersWork(ws[i := w]) == WorkersWork(ws) - WorkerWork(ws[i]) + WorkerWork(w)
  {
    if i > 0 {
      WorkersUpdate(ws[1..], i - 1, w);
      assert ws[i := w][1..] == ws[1..][i - 1 := w];
    } else {
      assert ws[0 := w][1..] == ws[1..];
    }
  }

  lemma {:induction false} TasksUpdate(ts: seq<Task>, i: nat, t: Task)
    requires i < |ts|
    ensures TasksWork(ts[i := t]) == TasksWork(ts) - TaskWork(ts[i]) + TaskWork(t)
  {
    if i > 0 {
      TasksUpdate(ts[1..], i - 1, t);
      assert ts[i := t][1..] == ts[1..][i - 1 := t];
    } else {
      assert ts[0 := t][1..] == ts[1..];
    }
  }

  /** The work that a step of worker `w` on task `t` adds or takes away. */
  lemma {:induction false} WorkChange(s: State, r: State, w: nat, t: nat)
    requires t < |s.tasks| == |r.tasks| && w < |s.workers| == |r.workers|
    requires r.tasks == s.tasks[t := r.tasks[t]] && r.workers == s.workers[w := r.workers[w]]
    ensures Work(r) - Work(s) ==
      6 * (|r.inFlight| - |s.inFlight|) + 5 * (|r.queue| - |s.queue|)
      + WorkerWork(r.workers[w]) - WorkerWork(s.workers[w]) + TaskWork(r.tasks[t]) - TaskWork(s.tasks[t])
  {
    WorkersUpdate(s.workers, w, r.workers[w]);
    TasksUpdate(s.tasks, t, r.tasks[t]);
  }

  lemma {:induction false} DispatchUsesWork(s: State, w: nat, i: nat)
    requires Inv(s) && Enabled(s, Dispatch(w, i))
    ensures Work(DispatchTask(s, w, i)) < Work(s)
  {
    assert TaskInv(s, s.queue[i]);
    WorkChange(s, DispatchTask(s, w, i), w, s.queue[i]);
  }

  lemma {:induction false} LockUsesWork(s: State, w: nat)
    requires Inv(s) && Enabled(s, Lock(w))
    ensures Work(LockTask(s, w)) < Work(s)
  {
    LockInv(s, w);
    WorkChange(s, LockTask(s, w), w, s.workers[w].task);
  }

  lemma {:induction false} AgainUsesWork(s: State, w: nat)
    requires Inv(s) && Enabled(s, Again(w))
    ensures Work(Next(s, Again(w))) < Work(s)
  {
    WorkChange(s, Next(s, Again(w)), w, s.workers[w].task);
  }

  lemma {:induction false} PollUsesWork(s: State, e: Event)
    requires Inv(s) && Enabled(s, e) && (e.Return? || e.Settle?)
    ensures Work(Next(s, e)) < Work(s)
  {
    WorkChange(s, Next(s, e), e.worker, s.workers[e.worker].task);
  }

  /** Every step but a wake uses up some of the work that is left. */
  lemma {:induction false} StepUsesWork(s: State, e: Event)
    requires Inv(s) && Enabled(s, e) && !e.Wake?
    ensures Work(Next(s, e)) < Work(s)
  {
    match e
    case Push(i) =>
    case Dispatch(w, i) => DispatchUsesWork(s, w, i);
    case Lock(w) => LockUsesWork(s, w);
    case Return(_, _) => PollUsesWork(s, e);
    case Settle(_) => PollUsesWork(s, e);
    case Again(w) => AgainUsesWork(s, w);
  }

  /** A machine that is not quiescent and has a worker can take a step that is not a wake. */
  lemma {:induction false} NotStuck(s: State) returns (e: Event)
    requires Inv(s) && !Quiescent(s) && |s.workers| > 0
    ensures Enabled(s, e) && !e.Wake?
  {
    if s.inFlight != [] {
      e := Push(0);
    } else if w :| 0 <= w < |s.workers| && !s.workers[w].Idle? {
      match s.workers[w] {
        case Dispatched(_) => e := Lock(w);
        case Polling(_) => e := Return(w, Pending);
        case Polled(_, _) => e := Settle(w);
        case Rewake(_) => e := Again(w);
      }
    } else {
      e := Dispatch(0, 0);
    }
  }

  /**
   Once nobody wakes a task any more, the machine takes at most `Work` further steps, and it can
   take one as long as it is not quiescent. When it is, every wake has been answered by a poll
   that began after it, unless its task is over.
   */
  lemma {:induction false} WakesAreAnswered(
      tasks: nat, workers: nat, run: seq<State>, events: seq<Event>, from: nat)
    requires Run(tasks, workers, run, events) && from <= |events| && workers > 0
    requires forall i :: from <= i < |events| ==> !events[i].Wake?
    ensures |events| - from + Work(run[|events|]) <= Work(run[from])
    ensures InRange(run[|events|])
    ensures Quiescent(run[|events|]) || exists e: Event :: Enabled(run[|events|], e) && !e.Wake?
    ensures Quiescent(run[|events|]) ==>
      forall t :: 0 <= t < |run[|events|].tasks| && run[|events|].tasks[t].owed ==>
        Over(run[|events|].tasks[t].info.state)
  {
    var last := run[|events|];
    WorkBound(tasks, workers, run, events, from, |events|);
    RunInv(tasks, workers, run, events, |events|);
    WorkerCount(tasks, workers, run, events, |events|);
    if !Quiescent(last) {
      var e := NotStuck(last);
    }
    forall t | 0 <= t < |last.tasks| && last.tasks[t].owed && !Over(last.tasks[t].info.state)
      ensures !Quiescent(last)
    {
      NoWakeForgotten(tasks, workers, run, events, |events|, t);
    }
  }

  lemma {:induction false} WorkerCount(tasks: nat, workers: nat, run: seq<State>, events: seq<Event>, i: nat)
    requires Run(tasks, workers, run, events) && i < |run|
    ensures |run[i].workers| == workers
  {
    if i > 0 {
      WorkerCount(tasks, workers, run, events, i - 1);
      assert RunStep(run[i - 1], events[i - 1], run[i - 1 + 1]);
    }
  }

  lemma {:induction false} StepBound(s: State, e: Event, t: State)
    requires Inv(s) && RunStep(s, e, t) && !e.Wake?
    ensures 1 + Work(t) <= Work(s)
  {
    StepUsesWork(s, e);
  }

  lemma {:induction false} WorkBound(
      tasks: nat, workers: nat, run: seq<State>, events: seq<Event>, lo: nat, hi: nat)
    requires Run(tasks, workers, run, events) && lo <= hi <= |events|
    requires forall i :: lo <= i < hi ==> !events[i].Wake?
    ensures hi - lo + Work(run[hi]) <= Work(run[lo])
    decreases hi
  {
    if lo < hi {
      WorkBound(tasks, workers, run, events, lo, hi - 1);
      RunInv(tasks, workers, run, events, hi - 1);
      StepBound(run[hi - 1], events[hi - 1], run[hi - 1 + 1]);
    }
  }
}
