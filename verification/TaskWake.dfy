/**
 Waking and polling tasks without preemption. A step is one critical section of the source: a
 waker first marks the task under its lock and later pushes it on a run queue; a worker takes
 a task off a run queue, locks its future, polls it, and settles the outcome under the task's
 lock. The scheduler is any choice of queued task.
 */
module TaskWake {
  import opened Common

  datatype TaskState = Initialized | Runnable | Running | Waiting | Terminated | Panicked

  datatype Info = Info(state: TaskState, needSched: bool)

  predicate Over(s: TaskState) {
    s == Terminated || s == Panicked
  }

  /** A wake under the task's lock: the new information and whether the task must be queued. */
  function Woken(i: Info): (r: (Info, bool)) {
    match i.state
    case Running | Runnable => (i.(needSched := true), false)
    case Terminated | Panicked => (i, false)
    case Initialized | Waiting => (i.(state := Runnable), true)
  }

  datatype PollResult = Pending | Ready | Panic

  /** What a worker does with the task after a poll, and whether it must wake the task again. */
  function Settled(i: Info, result: PollResult): (r: (Info, bool)) {
    match result
    case Pending => (Info(Waiting, false), i.needSched)
    case Ready => (i.(state := Terminated), false)
    case Panic => (i.(state := Panicked), false)
  }

  class TaskInfo {
    var state: TaskState
    var needSched: bool

    function View(): (i: Info)
      reads this
    {
      Info(state, needSched)
    }

    constructor ()
      ensures View() == Info(Initialized, false)
    {
      state, needSched := Initialized, false;
    }

    method Wake() returns (enqueue: bool)
      modifies this
      ensures (View(), enqueue) == Woken(old(View()))
      ensures enqueue <==> old(state) == Initialized || old(state) == Waiting
      ensures state == (if enqueue then Runnable else old(state))
      ensures needSched == (old(needSched) || old(state) == Running || old(state) == Runnable)
    {
      match state {
        case Running | Runnable =>
          needSched := true;
          return false;
        case Terminated | Panicked =>
          return false;
        case Initialized | Waiting =>
          state := Runnable;
          return true;
      }
    }

    method Settle(result: PollResult) returns (rewake: bool)
      modifies this
      ensures (View(), rewake) == Settled(old(View()), result)
      ensures result == Ready ==> state == Terminated && needSched == old(needSched) && !rewake
      ensures result == Panic ==> state == Panicked && needSched == old(needSched) && !rewake
      ensures result == Pending ==> state == Waiting && !needSched && rewake == old(needSched)
    {
      rewake := false;
      match result {
        case Pending =>
          state := Waiting;
          if needSched {
            needSched := false;
            rewake := true;
          }
        case Ready =>
          state := Terminated;
        case Panic =>
          state := Panicked;
      }
    }
  }

  /**
   A task: its information, whether its future is locked by a worker, what the last poll of the future
   returned, and whether a wake has happened since that poll began.
   */
  datatype Task = Task(info: Info, locked: bool, last: Option<PollResult>, owed: bool) {
    predicate Completed() { last.Some? && last.value != Pending }
  }

  /** What a worker is doing. */
  datatype Worker =
    | Idle
    | Dispatched(task: nat)
    | Polling(task: nat)
    | Polled(task: nat, result: PollResult)
    | Rewake(task: nat)

  datatype State = State(tasks: seq<Task>, queue: seq<nat>, inFlight: seq<nat>, workers: seq<Worker>)

  datatype Event =
    | Wake(task: nat)
    | Push(index: nat)
    | Dispatch(worker: nat, index: nat)
    | Lock(worker: nat)
    | Return(worker: nat, result: PollResult)
    | Settle(worker: nat)
    | Again(worker: nat)

  function Init(tasks: nat, workers: nat): (s: State) {
    State(seq(tasks, _ => Task(Info(Initialized, false), false, None, false)), [], [], seq(workers, _ => Idle))
  }

  predicate InRange(s: State) {
    && (forall i :: 0 <= i < |s.queue| ==> s.queue[i] < |s.tasks|)
    && (forall i :: 0 <= i < |s.inFlight| ==> s.inFlight[i] < |s.tasks|)
    && (forall w :: 0 <= w < |s.workers| && !s.workers[w].Idle? ==> s.workers[w].task < |s.tasks|)
  }

  predicate Enabled(s: State, e: Event)
    requires InRange(s)
  {
    match e
    case Wake(t) => t < |s.tasks|
    case Push(i) => i < |s.inFlight|
    case Dispatch(w, i) => w < |s.workers| && s.workers[w].Idle? && i < |s.queue|
    case Lock(w) => w < |s.workers| && s.workers[w].Dispatched?
    case Return(w, _) => w < |s.workers| && s.workers[w].Polling?
    case Settle(w) => w < |s.workers| && s.workers[w].Polled?
    case Again(w) => w < |s.workers| && s.workers[w].Rewake?
  }

  /** A wake of task `t`, whoever calls it. */
  function WakeTask(s: State, t: nat): (r: State)
    requires t < |s.tasks|
  {
    var woken := Woken(s.tasks[t].info);
    s.(tasks := s.tasks[t := s.tasks[t].(info := woken.0)], inFlight := s.inFlight + if woken.1 then [t] else [])
  }

  /** Taking a task off the queue drops it when it is over and makes it running otherwise. */
  function DispatchTask(s: State, w: nat, i: nat): (r: State)
    requires InRange(s) && Enabled(s, Dispatch(w, i))
  {
    var t := s.queue[i];
    var task := s.tasks[t];
    if Over(task.info.state) then s.(queue := Without(s.queue, i))
    else
      s.(tasks := s.tasks[t := task.(info := task.info.(state := Running))],
         queue := Without(s.queue, i), workers := s.workers[w := Dispatched(t)])
  }

  /**
   Locking the future starts the poll. If another worker holds the lock the task is woken again,
   and a completed future or a task that is over is given up.
   */
  function LockTask(s: State, w: nat): (r: State)
    requires InRange(s) && Enabled(s, Lock(w))
  {
    var t := s.workers[w].task;
    var task := s.tasks[t];
    if task.locked then s.(workers := s.workers[w := Rewake(t)])
    else if task.Completed() || Over(task.info.state) then s.(workers := s.workers[w := Idle])
    else s.(tasks := s.tasks[t := task.(locked := true, owed := false)], workers := s.workers[w := Polling(t)])
  }

  function Next(s: State, e: Event): (r: State)
    requires InRange(s) && Enabled(s, e)
  {
    match e
    case Wake(t) => WakeTask(s.(tasks := s.tasks[t := s.tasks[t].(owed := true)]), t)
    case Push(i) => s.(queue := s.queue + [s.inFlight[i]], inFlight := Without(s.inFlight, i))
    case Dispatch(w, i) => DispatchTask(s, w, i)
    case Lock(w) => LockTask(s, w)
    case Return(w, result) =>
      var t := s.workers[w].task;
      s.(tasks := s.tasks[t := s.tasks[t].(locked := false, last := Some(result))],
         workers := s.workers[w := Polled(t, result)])
    case Settle(w) =>
      var t := s.workers[w].task;
      var settled := Settled(s.tasks[t].info, s.workers[w].result);
      s.(tasks := s.tasks[t := s.tasks[t].(info := settled.0)],
         workers := s.workers[w := if settled.1 then Rewake(t) else Idle])
    case Again(w) => WakeTask(s.(workers := s.workers[w := Idle]), s.workers[w].task)
  }

  ghost predicate RunStep(s: State, e: Event, t: State) {
    InRange(s) && Enabled(s, e) && t == Next(s, e)
  }

  ghost predicate Run(tasks: nat, workers: nat, run: seq<State>, events: seq<Event>) {
    && |run| == |events| + 1 && run[0] == Init(tasks, workers)
    && forall i :: 0 <= i < |events| ==> RunStep(run[i], events[i], run[i + 1])
  }

  /** The worker holds task `t` between taking it off a queue and settling it. */
  predicate Holds(w: Worker, t: nat) {
    (w.Dispatched? || w.Polling? || w.Polled?) && w.task == t
  }

  predicate SameTask(v: Worker, w: Worker) {
    !v.Idle? && Holds(v, v.task) && Holds(w, v.task)
  }

  ghost predicate Held(s: State, t: nat) {
    exists w :: 0 <= w < |s.workers| && Holds(s.workers[w], t)
  }

  /** A worker is about to poll or to wake the task. */
  ghost predicate Answering(s: State, t: nat) {
    exists w :: 0 <= w < |s.workers| && (s.workers[w] == Rewake(t) || s.workers[w] == Dispatched(t))
  }

  /** A task is runnable exactly while it is queued or about to be, and running exactly while held. */
  ghost predicate TaskInv(s: State, t: nat)
    requires t < |s.tasks|
  {
    var task := s.tasks[t];
    && (task.info.state == Runnable <==> t in s.queue || t in s.inFlight)
    && (task.info.state == Running <==> Held(s, t))
    && (task.locked ==> task.info.state == Running)
    && (task.info.state != Running ==>
          && (task.info.state == Terminated <==> task.last == Some(Ready))
          && (task.info.state == Panicked <==> task.last == Some(Panic)))
    && (task.info.needSched ==> task.info.state != Waiting && task.info.state != Initialized)
    && (task.owed ==>
          || Over(task.info.state) || task.info.state == Runnable || task.info.needSched
          || Answering(s, t))
  }

  ghost predicate WorkerInv(s: State, w: nat)
    requires InRange(s) && w < |s.workers|
  {
    var worker := s.workers[w];
    && (worker.Dispatched? ==> !s.tasks[worker.task].Completed() && !s.tasks[worker.task].locked)
    && (worker.Polling? ==> !s.tasks[worker.task].Completed() && s.tasks[worker.task].locked)
    && (worker.Polled? ==> !s.tasks[worker.task].locked && s.tasks[worker.task].last == Some(worker.result))
  }

  ghost predicate Inv(s: State) {
    && InRange(s)
    && NoDup(s.queue) && NoDup(s.inFlight)
    && (forall i, j :: 0 <= i < |s.queue| && 0 <= j < |s.inFlight| ==> s.queue[i] != s.inFlight[j])
    && (forall v, w :: 0 <= v < w < |s.workers| ==> !SameTask(s.workers[v], s.workers[w]))
    && (forall t :: 0 <= t < |s.tasks| ==> TaskInv(s, t))
    && (forall w :: 0 <= w < |s.workers| ==> WorkerInv(s, w))
  }

  /** Worker `w` neither did nor does anything with task `u`. */
  ghost predicate Apart(s: State, r: State, w: nat, u: nat) {
    && |r.workers| == |s.workers| && w < |s.workers|
    && (forall v :: 0 <= v < |s.workers| && v != w ==> r.workers[v] == s.workers[v])
    && (s.workers[w].Idle? || s.workers[w].task != u) && (r.workers[w].Idle? || r.workers[w].task != u)
  }

  lemma {:induction false} TaskFrame(s: State, r: State, w: nat, u: nat)
    requires u < |s.tasks| == |r.tasks| && TaskInv(s, u) && r.tasks[u] == s.tasks[u]
    requires (u in s.queue || u in s.inFlight) <==> (u in r.queue || u in r.inFlight)
    requires r.workers == s.workers || Apart(s, r, w, u)
    ensures TaskInv(r, u)
  {
    assert Held(s, u) <==> Held(r, u) by {
      if Held(s, u) {
        var v :| 0 <= v < |s.workers| && Holds(s.workers[v], u);
        assert Holds(r.workers[v], u);
      }
    }
    if Answering(s, u) {
      var v :| 0 <= v < |s.workers| && (s.workers[v] == Rewake(u) || s.workers[v] == Dispatched(u));
      assert r.workers[v] == s.workers[v];
    }
  }

  lemma {:induction false} WithoutMember<T>(s: seq<T>, i: nat)
    requires i < |s| && NoDup(s)
    ensures NoDup(Without(s, i)) && s[i] !in Without(s, i)
    ensures forall x :: x in s && x != s[i] <==> x in Without(s, i)
  {
    assert s == s[..i] + [s[i]] + s[i + 1..];
  }

  lemma {:induction false} InitInv(tasks: nat, workers: nat)
    ensures Inv(Init(tasks, workers))
  {
  }

  lemma {:induction false} WakeInv(s: State, t: nat)
    requires Inv(s) && t < |s.tasks|
    ensures Inv(Next(s, Wake(t)))
  {
    var r := Next(s, Wake(t));
    assert TaskInv(s, t);
    forall u | 0 <= u < |r.tasks| ensures TaskInv(r, u) {
      assert TaskInv(s, u);
      if u != t {
        TaskFrame(s, r, 0, u);
      } else {
        assert Held(r, t) <==> Held(s, t);
        assert Answering(r, t) <==> Answering(s, t);
      }
    }
    forall w | 0 <= w < |r.workers| ensures WorkerInv(r, w) {
      assert WorkerInv(s, w);
    }
  }

  lemma {:induction false} PushInv(s: State, i: nat)
    requires Inv(s) && i < |s.inFlight|
    ensures Inv(Next(s, Push(i)))
  {
    var r := Next(s, Push(i));
    WithoutMember(s.inFlight, i);
    forall u | 0 <= u < |r.tasks| ensures TaskInv(r, u) {
      assert TaskInv(s, u);
      TaskFrame(s, r, 0, u);
    }
    forall w | 0 <= w < |r.workers| ensures WorkerInv(r, w) {
      assert WorkerInv(s, w);
    }
  }

  /** The task a worker holds is running, and no other worker holds it. */
  lemma {:induction false} SoleHolder(s: State, w: nat)
    requires Inv(s) && w < |s.workers| && !s.workers[w].Idle? && Holds(s.workers[w], s.workers[w].task)
    ensures s.tasks[s.workers[w].task].info.state == Running
    ensures forall v :: 0 <= v < |s.workers| && v != w ==> !Holds(s.workers[v], s.workers[w].task)
  {
    var t := s.workers[w].task;
    assert TaskInv(s, t) && Held(s, t);
    forall v | 0 <= v < |s.workers| && v != w ensures !Holds(s.workers[v], t) {
      assert v < w ==> !SameTask(s.workers[v], s.workers[w]);
      assert w < v ==> !SameTask(s.workers[w], s.workers[v]);
    }
  }

  /** A step of worker `w` on task `t` keeps what concerns other tasks and other workers. */
  lemma {:induction false} StepFrame(s: State, r: State, w: nat, t: nat)
    requires Inv(s) && InRange(r) && w < |s.workers| && t < |s.tasks|
    requires |r.tasks| == |s.tasks| && |r.workers| == |s.workers|
    requires r.tasks == s.tasks[t := r.tasks[t]] && r.workers == s.workers[w := r.workers[w]]
    requires (s.workers[w].Idle? || s.workers[w].task == t) && (r.workers[w].Idle? || r.workers[w].task == t)
    requires forall u: nat :: u != t ==> ((u in s.queue || u in s.inFlight) <==> (u in r.queue || u in r.inFlight))
    requires forall v :: 0 <= v < |s.workers| && v != w ==> !Holds(s.workers[v], t)
    ensures forall u :: 0 <= u < |r.tasks| && u != t ==> TaskInv(r, u)
    ensures forall v :: 0 <= v < |r.workers| && v != w ==> WorkerInv(r, v)
    ensures forall v, x :: 0 <= v < x < |r.workers| ==> !SameTask(r.workers[v], r.workers[x])
  {
    forall u | 0 <= u < |r.tasks| && u != t ensures TaskInv(r, u) {
      assert TaskInv(s, u);
      TaskFrame(s, r, w, u);
    }
    forall v | 0 <= v < |r.workers| && v != w ensures WorkerInv(r, v) {
      assert WorkerInv(s, v) && r.workers[v] == s.workers[v] && !Holds(s.workers[v], t);
    }
    forall v, x | 0 <= v < x < |r.workers| ensures !SameTask(r.workers[v], r.workers[x]) {
      assert !SameTask(s.workers[v], s.workers[x]);
    }
  }

  lemma {:induction false} DispatchInv(s: State, w: nat, i: nat)
    requires Inv(s) && Enabled(s, Dispatch(w, i))
    ensures Inv(DispatchTask(s, w, i))
  {
    var t, r := s.queue[i], DispatchTask(s, w, i);
    assert TaskInv(s, t) && t in s.queue;
    WithoutMember(s.queue, i);
    forall v | 0 <= v < |s.workers| && v != w ensures !Holds(s.workers[v], t) {
      assert Holds(s.workers[v], t) ==> Held(s, t);
    }
    forall k | 0 <= k < |r.queue| ensures r.queue[k] < |s.tasks| {
      assert r.queue[k] in s.queue;
    }
    StepFrame(s, r, w, t);
    assert Holds(r.workers[w], t) && r.workers[w] == Dispatched(t);
    assert t !in r.inFlight;
  }

  lemma {:induction false} LockInv(s: State, w: nat)
    requires Inv(s) && Enabled(s, Lock(w))
    ensures Inv(LockTask(s, w)) && LockTask(s, w).workers[w] == Polling(s.workers[w].task)
  {
    var t, r := s.workers[w].task, LockTask(s, w);
    assert TaskInv(s, t) && WorkerInv(s, w);
    SoleHolder(s, w);
    StepFrame(s, r, w, t);
    assert Holds(r.workers[w], t);
  }

  lemma {:induction false} ReturnInv(s: State, w: nat, result: PollResult)
    requires Inv(s) && Enabled(s, Return(w, result))
    ensures Inv(Next(s, Return(w, result)))
  {
    var t, r := s.workers[w].task, Next(s, Return(w, result));
    assert TaskInv(s, t) && WorkerInv(s, w);
    SoleHolder(s, w);
    StepFrame(s, r, w, t);
    assert Holds(r.workers[w], t);
    if Answering(s, t) {
      var v :| 0 <= v < |s.workers| && (s.workers[v] == Rewake(t) || s.workers[v] == Dispatched(t));
      assert r.workers[v] == s.workers[v];
    }
  }

  lemma {:induction false} SettleInv(s: State, w: nat)
    requires Inv(s) && Enabled(s, Settle(w))
    ensures Inv(Next(s, Settle(w)))
  {
    var t, r := s.workers[w].task, Next(s, Settle(w));
    assert TaskInv(s, t) && WorkerInv(s, w);
    SoleHolder(s, w);
    StepFrame(s, r, w, t);
    assert !Held(r, t) by {
      forall v | 0 <= v < |r.workers| ensures !Holds(r.workers[v], t) {
        assert v != w ==> r.workers[v] == s.workers[v];
      }
    }
    if Answering(s, t) {
      var v :| 0 <= v < |s.workers| && (s.workers[v] == Rewake(t) || s.workers[v] == Dispatched(t));
      assert r.workers[v] == s.workers[v];
    }
  }

  lemma {:induction false} AgainInv(s: State, w: nat)
    requires Inv(s) && Enabled(s, Again(w))
    ensures Inv(Next(s, Again(w)))
  {
    var t, r := s.workers[w].task, Next(s, Again(w));
    assert TaskInv(s, t);
    forall u | 0 <= u < |r.tasks| ensures TaskInv(r, u) {
      assert TaskInv(s, u);
      if u != t { TaskFrame(s, r, w, u); } else { AgainTask(s, w); }
    }
    forall v | 0 <= v < |r.workers| ensures WorkerInv(r, v) {
      assert WorkerInv(s, v);
    }
    forall v, x | 0 <= v < x < |r.workers| ensures !SameTask(r.workers[v], r.workers[x]) {
      assert !SameTask(s.workers[v], s.workers[x]);
    }
  }

  /** The task that was owed another wake has it. */
  lemma {:induction false} AgainTask(s: State, w: nat)
    requires InRange(s) && Enabled(s, Again(w)) && TaskInv(s, s.workers[w].task)
    ensures TaskInv(Next(s, Again(w)), s.workers[w].task)
  {
    var t, r := s.workers[w].task, Next(s, Again(w));
    assert Held(r, t) <==> Held(s, t) by {
      if Held(s, t) {
        var v :| 0 <= v < |s.workers| && Holds(s.workers[v], t);
        assert Holds(r.workers[v], t);
      }
    }
  }

  lemma {:induction false} NextInv(s: State, e: Event)
    requires Inv(s) && Enabled(s, e)
    ensures Inv(Next(s, e))
  {
    match e
    case Wake(t) => WakeInv(s, t);
    case Push(i) => PushInv(s, i);
    case Dispatch(w, i) => DispatchInv(s, w, i);
    case Lock(w) => LockInv(s, w);
    case Return(w, result) => ReturnInv(s, w, result);
    case Settle(w) => SettleInv(s, w);
    case Again(w) => AgainInv(s, w);
  }

  lemma {:induction false} RunInv(tasks: nat, workers: nat, run: seq<State>, events: seq<Event>, i: nat)
    requires Run(tasks, workers, run, events) && i < |run|
    ensures Inv(run[i])
  {
    if i == 0 {
      InitInv(tasks, workers);
    } else {
      RunInv(tasks, workers, run, events, i - 1);
      assert RunStep(run[i - 1], events[i - 1], run[i - 1 + 1]);
      NextInv(run[i - 1], events[i - 1]);
    }
  }
}
