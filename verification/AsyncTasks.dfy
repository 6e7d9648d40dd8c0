/** Tasks, queues and workers of the multi-threaded runtime as interleaved atomic steps: the stores and swaps of
    each state byte, the counter of active tasks, and the operations of the lock-free queues.

    Threads that wake a task are taken to have a current scheduler. */
module AsyncTasks {
  type TaskId = nat

  datatype TaskState = TaskIdle | TaskScheduled | TaskRunning | TaskCompleted

  /** A worker between two atomic steps: nothing in hand; a task popped; its future being polled; its future has
      returned; the final state stored and the counter still to be decremented. */
  datatype Phase =
    | Free
    | Popped(task: TaskId)
    | Polling(task: TaskId)
    | Returned(task: TaskId, ready: bool)
    | Unreported

  datatype Worker = Worker(queue: seq<TaskId>, phase: Phase)

  /** `toCount` and `toPush` are the pushes under way: before and after the increment of `active`. `done` records
      the futures that have returned `Ready`. */
  datatype State = State(
    states: map<TaskId, TaskState>,
    done: set<TaskId>,
    toCount: multiset<TaskId>,
    toPush: multiset<TaskId>,
    injector: seq<TaskId>,
    workers: seq<Worker>,
    active: int)

  datatype Action =
    | Spawn(task: TaskId)
    | Wake(task: TaskId)
    | Count(task: TaskId)
    | Push(task: TaskId)
    | PopLocal(w: nat)
    | StealBatch(w: nat, batch: nat)
    | StealFrom(w: nat, victim: nat)
    | StartPoll(w: nat)
    | FutureReturns(w: nat, ready: bool)
    | FinalStore(w: nat)
    | Report(w: nat)

  predicate Enabled(s: State, a: Action) {
    match a
    case Spawn(t) => t !in s.states
    case Wake(t) => t in s.states
    case Count(t) => t in s.toCount
    case Push(t) => t in s.toPush
    case PopLocal(w) => w < |s.workers| && s.workers[w].phase.Free? && s.workers[w].queue != []
    case StealBatch(w, batch) => w < |s.workers| && s.workers[w].phase.Free? && batch < |s.injector|
    case StealFrom(w, v) =>
      w < |s.workers| && s.workers[w].phase.Free? && v < |s.workers| && v != w && s.workers[v].queue != []
    case StartPoll(w) => w < |s.workers| && s.workers[w].phase.Popped?
    case FutureReturns(w, _) => w < |s.workers| && s.workers[w].phase.Polling?
    case FinalStore(w) => w < |s.workers| && s.workers[w].phase.Returned?
    case Report(w) => w < |s.workers| && s.workers[w].phase.Unreported?
  }

  function WithPhase(ws: seq<Worker>, w: nat, phase: Phase): seq<Worker>
    requires w < |ws|
  {
    ws[w := ws[w].(phase := phase)]
  }

  function Step(s: State, a: Action): State
    requires Enabled(s, a)
  {
    match a
    case Spawn(t) => s.(states := s.states[t := TaskScheduled], toCount := s.toCount + multiset{t})
    case Wake(t) =>
      s.(states := s.states[t := TaskScheduled],
         toCount := if s.states[t] == TaskIdle then s.toCount + multiset{t} else s.toCount)
    case Count(t) => s.(toCount := s.toCount - multiset{t}, toPush := s.toPush + multiset{t}, active := s.active + 1)
    case Push(t) => s.(toPush := s.toPush - multiset{t}, injector := s.injector + [t])
    case PopLocal(w) =>
      var q := s.workers[w].queue;
      s.(workers := s.workers[w := Worker(q[1..], Popped(q[0]))])
    case StealBatch(w, batch) =>
      s.(workers := s.workers[w := Worker(s.workers[w].queue + s.injector[1..batch + 1], Popped(s.injector[0]))],
         injector := s.injector[batch + 1..])
    case StealFrom(w, v) =>
      var q := s.workers[v].queue;
      s.(workers := WithPhase(s.workers[v := s.workers[v].(queue := q[1..])], w, Popped(q[0])))
    case StartPoll(w) =>
      var t := s.workers[w].phase.task;
      s.(workers := WithPhase(s.workers, w, Polling(t)), states := s.states[t := TaskRunning])
    case FutureReturns(w, ready) =>
      var t := s.workers[w].phase.task;
      s.(workers := WithPhase(s.workers, w, Returned(t, ready)), done := if ready then s.done + {t} else s.done)
    case FinalStore(w) =>
      var p := s.workers[w].phase;
      s.(workers := WithPhase(s.workers, w, Unreported),
         states := s.states[p.task := if p.ready then TaskCompleted else TaskIdle])
    case Report(w) => s.(workers := WithPhase(s.workers, w, Free), active := s.active - 1)
  }

  predicate Init(s: State) {
    && s.states == map[] && s.done == {} && s.toCount == s.toPush == multiset{} && s.injector == [] && s.active == 0
    && forall w | 0 <= w < |s.workers| :: s.workers[w] == Worker([], Free)
  }

  predicate IsRun(s: seq<State>, actions: seq<Action>) {
    && |s| == |actions| + 1
    && Init(s[0])
    && forall i {:trigger actions[i]} | 0 <= i < |actions| ::
       Enabled(s[i], actions[i]) && s[i + 1] == Step(s[i], actions[i])
  }

  // ---------------------------------------------------------------- who holds a task

  /** How often a worker holds `t`: in its queue, or in hand up to the final store of a poll. */
  function WorkerHeld(w: Worker, t: TaskId): nat {
    var inHand := w.phase.Popped? || w.phase.Polling? || w.phase.Returned?;
    multiset(w.queue)[t] + if inHand && w.phase.task == t then 1 else 0
  }

  function WorkersHeld(ws: seq<Worker>, t: TaskId): nat {
    if ws == [] then 0 else WorkerHeld(ws[0], t) + WorkersHeld(ws[1..], t)
  }

  /** Every queue entry, every push under way and every poll up to its final store. */
  function Held(s: State, t: TaskId): nat {
    s.toCount[t] + s.toPush[t] + multiset(s.injector)[t] + WorkersHeld(s.workers, t)
  }

  /** A poll whose future has returned `Ready` and whose final store is still to come. */
  function Finishing(w: Worker, t: TaskId): nat {
    if w.phase == Returned(t, true) then 1 else 0
  }

  function WorkersFinishing(ws: seq<Worker>, t: TaskId): nat {
    if ws == [] then 0 else Finishing(ws[0], t) + WorkersFinishing(ws[1..], t)
  }

  function Load(w: Worker): nat {
    |w.queue| + if w.phase.Free? then 0 else 1
  }

  function WorkersLoad(ws: seq<Worker>): nat {
    if ws == [] then 0 else Load(ws[0]) + WorkersLoad(ws[1..])
  }

  /** Changing one worker changes the sums by that worker's share. */
  lemma {:induction false} OneWorker(ws: seq<Worker>, i: nat, w: Worker, t: TaskId)
    requires i < |ws|
    ensures WorkersHeld(ws[i := w], t) + WorkerHeld(ws[i], t) == WorkersHeld(ws, t) + WorkerHeld(w, t)
    ensures WorkersFinishing(ws[i := w], t) + Finishing(ws[i], t) == WorkersFinishing(ws, t) + Finishing(w, t)
    decreases |ws|
  {
    if i == 0 {
      assert ws[i := w][1..] == ws[1..];
    } else {
      assert ws[i := w][1..] == ws[1..][i - 1 := w];
      OneWorker(ws[1..], i - 1, w, t);
    }
  }

  lemma {:induction false} OneLoad(ws: seq<Worker>, i: nat, w: Worker)
    requires i < |ws|
    ensures WorkersLoad(ws[i := w]) + Load(ws[i]) == WorkersLoad(ws) + Load(w)
    decreases |ws|
  {
    if i == 0 {
      assert ws[i := w][1..] == ws[1..];
    } else {
      assert ws[i := w][1..] == ws[1..][i - 1 := w];
      OneLoad(ws[1..], i - 1, w);
    }
  }

  /** What one worker holds and is not finishing is part of what all hold and are not finishing. */
  lemma {:induction false} HeldBy(ws: seq<Worker>, i: nat, t: TaskId)
    requires i < |ws|
    ensures WorkersHeld(ws, t) - WorkersFinishing(ws, t) >= WorkerHeld(ws[i], t) - Finishing(ws[i], t) >= 0
    ensures WorkersFinishing(ws, t) >= Finishing(ws[i], t)
    decreases |ws|
  {
    if |ws| > 1 {
      HeldBy(ws[1..], if i == 0 then 0 else i - 1, t);
    } else {
      assert ws[1..] == [];
    }
  }

  // ---------------------------------------------------------------- the invariant

  /** A task is held at most once. It is held exactly when it is neither idle nor finished; once finished it is never
      idle again, and only the final store of its last poll may still be to come. */
  predicate TaskOK(s: State, t: TaskId) {
    if t !in s.states then Held(s, t) == 0 == WorkersFinishing(s.workers, t) && t !in s.done
    else if t in s.done then
      s.states[t] != TaskIdle && Held(s, t) == WorkersFinishing(s.workers, t) <= 1
    else
      && WorkersFinishing(s.workers, t) == 0
      && s.states[t] != TaskCompleted
      && Held(s, t) == if s.states[t] == TaskIdle then 0 else 1
  }

  /** The counter of active tasks. */
  predicate ActiveOK(s: State) {
    s.active == |s.toPush| + |s.injector| + WorkersLoad(s.workers)
  }

  ghost predicate Inv(s: State) {
    && (forall t: TaskId {:trigger TaskOK(s, t)} :: TaskOK(s, t))
    && ActiveOK(s)
  }

  lemma FirstCounted(q: seq<TaskId>, t: TaskId)
    requires q != []
    ensures multiset(q)[t] == multiset(q[1..])[t] + if q[0] == t then 1 else 0
  {
    assert q == [q[0]] + q[1..];
  }

  lemma BatchCounted(first: TaskId, moved: seq<TaskId>, kept: seq<TaskId>, t: TaskId)
    ensures multiset([first] + moved + kept)[t] == multiset(moved)[t] + multiset(kept)[t] + if first == t then 1 else 0
  {
  }

  lemma LoadedWorker(q: seq<TaskId>, moved: seq<TaskId>, first: TaskId, t: TaskId)
    ensures WorkerHeld(Worker(q + moved, Popped(first)), t) ==
            multiset(q)[t] + multiset(moved)[t] + if first == t then 1 else 0
    ensures WorkerHeld(Worker(q, Free), t) == multiset(q)[t]
  {
  }

  /** The operations of the queues only move tasks. */
  lemma LocalPopMoves(s: State, w: nat, t: TaskId)
    requires Enabled(s, PopLocal(w))
    ensures
      var s' := Step(s, PopLocal(w));
      Held(s', t) == Held(s, t) && WorkersFinishing(s'.workers, t) == WorkersFinishing(s.workers, t)
  {
    var q := s.workers[w].queue;
    FirstCounted(q, t);
    OneWorker(s.workers, w, Worker(q[1..], Popped(q[0])), t);
  }

  lemma BatchMoves(s: State, w: nat, batch: nat, t: TaskId)
    requires Enabled(s, StealBatch(w, batch))
    ensures
      var s' := Step(s, StealBatch(w, batch));
      Held(s', t) == Held(s, t) && WorkersFinishing(s'.workers, t) == WorkersFinishing(s.workers, t)
  {
    var first, moved, kept := s.injector[0], s.injector[1..batch + 1], s.injector[batch + 1..];
    assert s.injector == [first] + moved + kept;
    BatchCounted(first, moved, kept, t);
    BatchWorkers(s.workers, w, moved, first, t);
  }

  lemma BatchWorkers(ws: seq<Worker>, w: nat, moved: seq<TaskId>, first: TaskId, t: TaskId)
    requires w < |ws| && ws[w].phase.Free?
    ensures
      var ws' := ws[w := Worker(ws[w].queue + moved, Popped(first))];
      && WorkersHeld(ws', t) == WorkersHeld(ws, t) + multiset(moved)[t] + (if first == t then 1 else 0)
      && WorkersFinishing(ws', t) == WorkersFinishing(ws, t)
  {
    LoadedWorker(ws[w].queue, moved, first, t);
    OneWorker(ws, w, Worker(ws[w].queue + moved, Popped(first)), t);
  }

  lemma StealMoves(s: State, w: nat, v: nat, t: TaskId)
    requires Enabled(s, StealFrom(w, v))
    ensures
      var s' := Step(s, StealFrom(w, v));
      Held(s', t) == Held(s, t) && WorkersFinishing(s'.workers, t) == WorkersFinishing(s.workers, t)
  {
    var q := s.workers[v].queue;
    FirstCounted(q, t);
    var mid := s.workers[v := s.workers[v].(queue := q[1..])];
    OneWorker(s.workers, v, s.workers[v].(queue := q[1..]), t);
    OneWorker(mid, w, mid[w].(phase := Popped(q[0])), t);
  }

  /** What a phase change of a worker does to a task. */
  lemma PhaseMoves(ws: seq<Worker>, w: nat, phase: Phase, t: TaskId)
    requires w < |ws|
    ensures
      var ws', x, y := WithPhase(ws, w, phase), ws[w], ws[w].(phase := phase);
      && WorkersHeld(ws', t) + WorkerHeld(x, t) == WorkersHeld(ws, t) + WorkerHeld(y, t)
      && WorkersFinishing(ws', t) + Finishing(x, t) == WorkersFinishing(ws, t) + Finishing(y, t)
  {
    OneWorker(ws, w, ws[w].(phase := phase), t);
  }

  /** A task in a worker's hand is known and, up to the return of its future, unfinished. */
  lemma InHand(s: State, w: nat)
    requires w < |s.workers|
    requires s.workers[w].phase.Popped? || s.workers[w].phase.Polling? || s.workers[w].phase.Returned?
    requires TaskOK(s, s.workers[w].phase.task)
    ensures
      var p := s.workers[w].phase;
      && p.task in s.states && s.states[p.task] != TaskIdle && Held(s, p.task) == 1
      && (p.task in s.done <==> p.Returned? && p.ready)
  {
    HeldBy(s.workers, w, s.workers[w].phase.task);
  }

  lemma PushStep(s: State, a: Action, t: TaskId)
    requires Enabled(s, a) && TaskOK(s, t) && (a.Spawn? || a.Wake? || a.Count? || a.Push?)
    ensures TaskOK(Step(s, a), t)
  {
  }

  lemma PopStep(s: State, a: Action, t: TaskId)
    requires Enabled(s, a) && TaskOK(s, t) && (a.PopLocal? || a.StealBatch? || a.StealFrom?)
    ensures TaskOK(Step(s, a), t)
  {
    match a
    case PopLocal(w) => LocalPopMoves(s, w, t);
    case StealBatch(w, batch) => BatchMoves(s, w, batch, t);
    case StealFrom(w, v) => StealMoves(s, w, v, t);
  }

  /** The steps of a poll, for what is polled and for any other task. */
  lemma StartStep(s: State, w: nat, t: TaskId)
    requires Enabled(s, StartPoll(w)) && TaskOK(s, t) && TaskOK(s, s.workers[w].phase.task)
    ensures TaskOK(Step(s, StartPoll(w)), t)
  {
    InHand(s, w);
    PhaseMoves(s.workers, w, Polling(s.workers[w].phase.task), t);
  }

  lemma ReturnStep(s: State, w: nat, ready: bool, t: TaskId)
    requires Enabled(s, FutureReturns(w, ready)) && TaskOK(s, t) && TaskOK(s, s.workers[w].phase.task)
    ensures TaskOK(Step(s, FutureReturns(w, ready)), t)
  {
    InHand(s, w);
    PhaseMoves(s.workers, w, Returned(s.workers[w].phase.task, ready), t);
  }

  lemma StoreStep(s: State, w: nat, t: TaskId)
    requires Enabled(s, FinalStore(w)) && TaskOK(s, t) && TaskOK(s, s.workers[w].phase.task)
    ensures TaskOK(Step(s, FinalStore(w)), t)
  {
    InHand(s, w);
    PhaseMoves(s.workers, w, Unreported, t);
  }

  lemma TaskStep(s: State, a: Action, t: TaskId)
    requires Enabled(s, a) && Inv(s)
    ensures TaskOK(Step(s, a), t)
  {
    assert TaskOK(s, t);
    match a
    case Spawn(_) => PushStep(s, a, t);
    case Wake(_) => PushStep(s, a, t);
    case Count(_) => PushStep(s, a, t);
    case Push(_) => PushStep(s, a, t);
    case PopLocal(_) => PopStep(s, a, t);
    case StealBatch(_, _) => PopStep(s, a, t);
    case StealFrom(_, _) => PopStep(s, a, t);
    case Report(w) => PhaseMoves(s.workers, w, Free, t);
    case StartPoll(w) =>
      assert TaskOK(s, s.workers[w].phase.task);
      StartStep(s, w, t);
    case FutureReturns(w, ready) =>
      assert TaskOK(s, s.workers[w].phase.task);
      ReturnStep(s, w, ready, t);
    case FinalStore(w) =>
      assert TaskOK(s, s.workers[w].phase.task);
      StoreStep(s, w, t);
  }

  /** A step that changes one worker and, by as much, queue and counter. */
  lemma ActiveMove(s: State, s': State, w: nat)
    requires ActiveOK(s) && w < |s.workers| == |s'.workers| && s'.workers == s.workers[w := s'.workers[w]]
    requires s'.toPush == s.toPush
    requires s'.active - |s'.injector| - Load(s'.workers[w]) == s.active - |s.injector| - Load(s.workers[w])
    ensures ActiveOK(s')
  {
    OneLoad(s.workers, w, s'.workers[w]);
  }

  lemma ActiveSteal(s: State, w: nat, v: nat)
    requires Enabled(s, StealFrom(w, v)) && ActiveOK(s)
    ensures ActiveOK(Step(s, StealFrom(w, v)))
  {
    var q := s.workers[v].queue;
    var mid := s.workers[v := s.workers[v].(queue := q[1..])];
    OneLoad(s.workers, v, s.workers[v].(queue := q[1..]));
    OneLoad(mid, w, mid[w].(phase := Popped(q[0])));
  }

  lemma ActiveStep(s: State, a: Action)
    requires Enabled(s, a) && ActiveOK(s)
    ensures ActiveOK(Step(s, a))
  {
    match a
    case Spawn(_) =>
    case Wake(_) =>
    case Count(_) =>
    case Push(_) =>
    case StealFrom(w, v) => ActiveSteal(s, w, v);
    case _ => ActiveMove(s, Step(s, a), a.w);
  }

  lemma {:induction false} NothingHeld(ws: seq<Worker>, t: TaskId)
    requires forall w | 0 <= w < |ws| :: ws[w] == Worker([], Free)
    ensures WorkersHeld(ws, t) == 0 && WorkersFinishing(ws, t) == 0 && WorkersLoad(ws) == 0
  {
    if ws != [] {
      NothingHeld(ws[1..], t);
    }
  }

  lemma InitInv(s: State)
    requires Init(s)
    ensures Inv(s)
  {
    forall t: TaskId ensures TaskOK(s, t) {
      NothingHeld(s.workers, t);
    }
    NothingHeld(s.workers, 0);
  }

  lemma StepInv(s: State, a: Action)
    requires Inv(s) && Enabled(s, a)
    ensures Inv(Step(s, a))
  {
    forall t: TaskId ensures TaskOK(Step(s, a), t) {
      TaskStep(s, a, t);
    }
    ActiveStep(s, a);
  }

  lemma {:induction false} RunInv(s: seq<State>, actions: seq<Action>, i: nat)
    requires IsRun(s, actions) && i <= |actions|
    ensures Inv(s[i])
  {
    if i == 0 {
      InitInv(s[0]);
    } else {
      RunInv(s, actions, i - 1);
      StepInv(s[i - 1], actions[i - 1]);
    }
  }

  // ---------------------------------------------------------------- what the protocol promises

  /** A task is in at most one place: a queue, a push under way, or a poll up to its final store. */
  lemma HeldOnce(s: seq<State>, actions: seq<Action>, i: nat, t: TaskId)
    requires IsRun(s, actions) && i <= |actions|
    ensures Held(s[i], t) <= 1
  {
    RunInv(s, actions, i);
    assert TaskOK(s[i], t);
  }

  predicate Polls(s: State, a: Action, t: TaskId) {
    (a.StartPoll? || a.FutureReturns?) && a.w < |s.workers|
    && (s.workers[a.w].phase.Popped? || s.workers[a.w].phase.Polling?) && s.workers[a.w].phase.task == t
  }

  lemma {:induction false} DoneStays(s: seq<State>, actions: seq<Action>, j: nat, k: nat, t: TaskId)
    requires IsRun(s, actions) && j <= k <= |actions| && t in s[j].done
    ensures t in s[k].done
    decreases k - j
  {
    if j < k {
      DoneStays(s, actions, j, k - 1, t);
      assert s[k] == Step(s[k - 1], actions[k - 1]);
    }
  }

  /** A future that has returned `Ready` is never polled again. */
  lemma NeverPolledAgain(s: seq<State>, actions: seq<Action>, j: nat, k: nat, w: nat, t: TaskId)
    requires IsRun(s, actions) && j < k < |actions|
    requires actions[j] == FutureReturns(w, true) && Polls(s[j], actions[j], t)
    ensures !Polls(s[k], actions[k], t)
  {
    assert s[j + 1] == Step(s[j], actions[j]);
    DoneStays(s, actions, j + 1, k, t);
    RunInv(s, actions, k);
    assert TaskOK(s[k], t);
    if Polls(s[k], actions[k], t) {
      InHand(s[k], actions[k].w);
    }
  }

  /** `t` is in a queue, about to be pushed, or popped for a poll that has not begun. */
  predicate Awaits(s: State, t: TaskId) {
    || t in s.toCount || t in s.toPush || t in s.injector
    || exists w | 0 <= w < |s.workers| :: t in s.workers[w].queue || s.workers[w].phase == Popped(t)
  }

  predicate PollsNow(w: Worker, t: TaskId) {
    (w.phase.Polling? || w.phase.Returned?) && w.phase.task == t
  }

  predicate InPoll(ws: seq<Worker>, t: TaskId) {
    exists w | 0 <= w < |ws| :: PollsNow(ws[w], t)
  }

  lemma {:induction false} SomeoneHolds(ws: seq<Worker>, t: TaskId) returns (w: nat)
    requires WorkersHeld(ws, t) > 0
    ensures w < |ws| && WorkerHeld(ws[w], t) > 0
  {
    if WorkerHeld(ws[0], t) > 0 {
      w := 0;
    } else {
      w := SomeoneHolds(ws[1..], t);
      w := w + 1;
    }
  }

  lemma TwoHold(ws: seq<Worker>, w: nat, v: nat, t: TaskId)
    requires w < |ws| && v < |ws| && w != v
    ensures WorkersHeld(ws, t) >= WorkerHeld(ws[w], t) + WorkerHeld(ws[v], t)
  {
    var rest := ws[w := Worker([], Free)];
    OneWorker(ws, w, Worker([], Free), t);
    HeldBy(rest, v, t);
    HeldAtLeast(rest, v, t);
  }

  lemma {:induction false} HeldAtLeast(ws: seq<Worker>, w: nat, t: TaskId)
    requires w < |ws|
    ensures WorkersHeld(ws, t) >= WorkerHeld(ws[w], t)
    decreases |ws|
  {
    if w > 0 {
      HeldAtLeast(ws[1..], w - 1, t);
    }
  }

  /** A task held once is either awaiting a poll or in one. */
  lemma HeldSomewhere(s: State, t: TaskId)
    requires Held(s, t) == 1
    ensures Awaits(s, t) <==> !InPoll(s.workers, t)
  {
    if WorkersHeld(s.workers, t) == 0 {
      forall w | 0 <= w < |s.workers| ensures !PollsNow(s.workers[w], t) {
        HeldAtLeast(s.workers, w, t);
      }
    } else {
      var w := SomeoneHolds(s.workers, t);
      HeldAtLeast(s.workers, w, t);
      forall v | 0 <= v < |s.workers| && v != w ensures WorkerHeld(s.workers[v], t) == 0 {
        TwoHold(s.workers, w, v, t);
      }
      if PollsNow(s.workers[w], t) {
        assert InPoll(s.workers, t);
      }
    }
  }

  /** A wake of an unfinished task leaves it awaiting a poll, unless it falls into one. */
  lemma WakeIsKeptIff(s: seq<State>, actions: seq<Action>, i: nat, t: TaskId)
    requires IsRun(s, actions) && i < |actions| && actions[i] == Wake(t) && t !in s[i].done
    ensures Awaits(s[i + 1], t) <==> !InPoll(s[i].workers, t)
  {
    assert s[i + 1] == Step(s[i], actions[i]);
    RunInv(s, actions, i + 1);
    assert TaskOK(s[i + 1], t);
    HeldSomewhere(s[i + 1], t);
  }

  /** Wakes that fall into a poll are lost if that poll returns `Pending`: however many there were and whatever else
      happened meanwhile, its final store leaves `t` idle and held nowhere. */
  lemma WakeDuringPollIsLost(s: seq<State>, actions: seq<Action>, k: nat, w: nat, t: TaskId)
    requires IsRun(s, actions) && k < |actions| && actions[k] == FinalStore(w)
    requires s[k].workers[w].phase == Returned(t, false)
    ensures t in s[k + 1].states && s[k + 1].states[t] == TaskIdle && Held(s[k + 1], t) == 0
  {
    RunInv(s, actions, k);
    assert TaskOK(s[k], t);
    InHand(s[k], w);
    assert s[k + 1] == Step(s[k], actions[k]);
    RunInv(s, actions, k + 1);
    assert TaskOK(s[k + 1], t);
  }

  lemma Extend(s: seq<State>, actions: seq<Action>, a: Action) returns (s': seq<State>, actions': seq<Action>)
    requires IsRun(s, actions) && Enabled(s[|actions|], a)
    ensures IsRun(s', actions') && s <= s' && actions' == actions + [a] && s'[|actions'|] == Step(s[|actions|], a)
  {
    s', actions' := s + [Step(s[|actions|], a)], actions + [a];
    forall i | 0 <= i < |actions'| ensures Enabled(s'[i], actions'[i]) && s'[i + 1] == Step(s'[i], actions'[i]) {
      if i < |actions| {
        assert actions'[i] == actions[i];
      }
    }
  }

  /** One worker polls one task. */
  lemma PollIsReachable(t: TaskId) returns (s: seq<State>, actions: seq<Action>)
    ensures IsRun(s, actions) && |s[|actions|].workers| == 1 && s[|actions|].workers[0].phase == Polling(t)
    ensures t in s[|actions|].states
  {
    s, actions := [State(map[], {}, multiset{}, multiset{}, [], [Worker([], Free)], 0)], [];
    s, actions := Extend(s, actions, Spawn(t));
    s, actions := Extend(s, actions, Count(t));
    s, actions := Extend(s, actions, Push(t));
    s, actions := Extend(s, actions, StealBatch(0, 0));
    s, actions := Extend(s, actions, StartPoll(0));
  }

  /** A run that loses a wake: it falls into the poll, which then ends with `t` idle and held nowhere. */
  lemma LostWakeRun(t: TaskId) returns (s: seq<State>, actions: seq<Action>)
    ensures IsRun(s, actions) && |actions| >= 3 && t in s[|actions|].states
    ensures actions[|actions| - 3] == Wake(t) && InPoll(s[|actions| - 3].workers, t)
    ensures s[|actions|].states[t] == TaskIdle && Held(s[|actions|], t) == 0
  {
    s, actions := PollIsReachable(t);
    assert PollsNow(s[|actions|].workers[0], t);
    s, actions := Extend(s, actions, Wake(t));
    s, actions := Extend(s, actions, FutureReturns(0, false));
    s, actions := Extend(s, actions, FinalStore(0));
    WakeDuringPollIsLost(s, actions, |actions| - 1, 0, t);
  }

  // ---------------------------------------------------------------- after completion

  /** A finished task that nothing holds: no step holds it again, and only a wake touches its state byte. */
  lemma StaysUnheld(s: State, a: Action, t: TaskId)
    requires Inv(s) && Enabled(s, a) && t in s.done && Held(s, t) == 0
    ensures
      var s' := Step(s, a);
      && t in s.states && t in s'.states && t in s'.done && Held(s', t) == 0
      && s'.states[t] == if a == Wake(t) then TaskScheduled else s.states[t]
  {
    assert TaskOK(s, t);
    StaysUnfinishing(s, a, t);
    TaskStep(s, a, t);
  }

  /** Nobody starts to finish a task that nobody holds, and nobody has it in hand. */
  lemma StaysUnfinishing(s: State, a: Action, t: TaskId)
    requires Enabled(s, a) && Held(s, t) == 0
    ensures WorkersFinishing(Step(s, a).workers, t) == WorkersFinishing(s.workers, t)
    ensures a.StartPoll? || a.FinalStore? ==> s.workers[a.w].phase.task != t
  {
    match a
    case Spawn(_) =>
    case Wake(_) =>
    case Count(_) =>
    case Push(_) =>
    case PopLocal(w) => LocalPopMoves(s, w, t);
    case StealBatch(w, batch) => BatchMoves(s, w, batch, t);
    case StealFrom(w, v) => StealMoves(s, w, v, t);
    case _ =>
      HeldAtLeast(s.workers, a.w, t);
      PhaseMoves(s.workers, a.w, Step(s, a).workers[a.w].phase, t);
  }

  lemma CompletedStore(s: State, w: nat, t: TaskId)
    requires Inv(s) && Enabled(s, FinalStore(w)) && s.workers[w].phase == Returned(t, true)
    ensures
      var s' := Step(s, FinalStore(w));
      t in s'.states && s'.states[t] == TaskCompleted && t in s'.done && Held(s', t) == 0
  {
    assert TaskOK(s, t);
    InHand(s, w);
    PhaseMoves(s.workers, w, Unreported, t);
  }

  predicate Unwoken(actions: seq<Action>, j: nat, k: nat, t: TaskId)
    requires k <= |actions|
  {
    forall i | j < i < k :: actions[i] != Wake(t)
  }

  predicate Over(s: State, t: TaskId) {
    t in s.states && t in s.done && Held(s, t) == 0
  }

  /** Step `i` leaves the state byte of `t` alone unless it wakes `t`. */
  predicate OnlyWoken(s: seq<State>, actions: seq<Action>, i: nat, t: TaskId)
    requires |s| == |actions| + 1 && i < |actions|
  {
    && t in s[i].states && t in s[i + 1].states
    && s[i + 1].states[t] == if actions[i] == Wake(t) then TaskScheduled else s[i].states[t]
  }

  lemma {:induction false} OverInRun(s: seq<State>, actions: seq<Action>, j: nat, k: nat, t: TaskId)
    requires IsRun(s, actions) && j <= k <= |actions| && Over(s[j], t)
    ensures Over(s[k], t)
    decreases k - j
  {
    if j < k {
      OverInRun(s, actions, j, k - 1, t);
      UnheldInRun(s, actions, k - 1, t);
    }
  }

  lemma UnheldInRun(s: seq<State>, actions: seq<Action>, k: nat, t: TaskId)
    requires IsRun(s, actions) && k < |actions| && Over(s[k], t)
    ensures Over(s[k + 1], t) && OnlyWoken(s, actions, k, t)
  {
    RunInv(s, actions, k);
    StaysUnheld(s[k], actions[k], t);
  }

  lemma {:induction false} CompletedSince(s: seq<State>, actions: seq<Action>, j: nat, k: nat, t: TaskId)
    requires |s| == |actions| + 1 && j < k <= |actions| && t in s[j + 1].states && s[j + 1].states[t] == TaskCompleted
    requires forall i {:trigger OnlyWoken(s, actions, i, t)} | j < i < k :: OnlyWoken(s, actions, i, t)
    ensures t in s[k].states && (s[k].states[t] == TaskCompleted <==> Unwoken(actions, j, k, t))
    decreases k
  {
    if k > j + 1 {
      CompletedSince(s, actions, j, k - 1, t);
      assert OnlyWoken(s, actions, k - 1, t);
      assert Unwoken(actions, j, k, t) <==> Unwoken(actions, j, k - 1, t) && actions[k - 1] != Wake(t);
    }
  }

  lemma CompletedInRun(s: seq<State>, actions: seq<Action>, j: nat, w: nat, t: TaskId)
    requires IsRun(s, actions) && j < |actions| && actions[j] == FinalStore(w)
             && s[j].workers[w].phase == Returned(t, true)
    ensures Over(s[j + 1], t) && s[j + 1].states[t] == TaskCompleted
  {
    RunInv(s, actions, j);
    CompletedStore(s[j], w, t);
  }

  /** `is_completed` is true from the final store of the last poll until the next wake, and never again after it;
      the wake enqueues nothing. */
  lemma CompletedUntilWoken(s: seq<State>, actions: seq<Action>, j: nat, k: nat, w: nat, t: TaskId)
    requires IsRun(s, actions) && j < k <= |actions|
    requires actions[j] == FinalStore(w) && s[j].workers[w].phase == Returned(t, true)
    ensures t in s[k].states && (s[k].states[t] == TaskCompleted <==> forall i | j < i < k :: actions[i] != Wake(t))
    ensures Held(s[k], t) == 0
  {
    CompletedInRun(s, actions, j, w, t);
    forall i | j < i < k ensures OnlyWoken(s, actions, i, t) {
      OverInRun(s, actions, j + 1, i, t);
      UnheldInRun(s, actions, i, t);
    }
    OverInRun(s, actions, j + 1, k, t);
    CompletedSince(s, actions, j, k, t);
  }

  /** The counter of active tasks is the number of queued tasks, of counted pushes under way and of polls not yet
      reported; the decrement after a poll never makes it negative. */
  lemma ActiveIsTrue(s: seq<State>, actions: seq<Action>, i: nat)
    requires IsRun(s, actions) && i <= |actions|
    ensures s[i].active == |s[i].toPush| + |s[i].injector| + WorkersLoad(s[i].workers)
    ensures i < |actions| && actions[i].Report? ==> s[i].active >= 1
  {
    RunInv(s, actions, i);
    if i < |actions| && actions[i].Report? {
      var w := actions[i].w;
      OneLoad(s[i].workers, w, Worker([], Free));
    }
  }

  // ---------------------------------------------------------------- order

  /** A worker looks at the injector only when its own queue is empty. */
  predicate LocalFirst(s: State, a: Action)
    requires Enabled(s, a)
  {
    a.StealBatch? ==> s.workers[a.w].queue == []
  }

  /** The tasks pushed by the first `i` steps, in that order. */
  function Pushes(actions: seq<Action>, i: nat): seq<TaskId>
    requires i <= |actions|
  {
    if i == 0 then [] else Pushes(actions, i - 1) + if actions[i - 1].Push? then [actions[i - 1].task] else []
  }

  predicate IsPop(a: Action, w: nat) {
    (a.PopLocal? || a.StealBatch? || a.StealFrom?) && a.w == w
  }

  /** What a worker has popped, if it has just popped something. */
  function InHandOf(s: State, w: nat): seq<TaskId> {
    if w < |s.workers| && s.workers[w].phase.Popped? then [s.workers[w].phase.task] else []
  }

  /** The tasks popped by worker `w` in the first `i` steps, in that order. */
  function Pops(s: seq<State>, actions: seq<Action>, w: nat, i: nat): seq<TaskId>
    requires |s| == |actions| + 1 && i <= |actions|
  {
    if i == 0 then []
    else Pops(s, actions, w, i - 1) + if IsPop(actions[i - 1], w) then InHandOf(s[i], w) else []
  }

  /** Worker 0's queue followed by the injector. */
  function Line(s: State): seq<TaskId>
    requires |s.workers| > 0
  {
    s.workers[0].queue + s.injector
  }

  /** One step of a lone worker: what is pushed joins the line at its end, what is popped leaves it at its front. */
  lemma LoneStep(s: State, a: Action)
    requires Enabled(s, a) && |s.workers| == 1 && LocalFirst(s, a)
    ensures
      var s' := Step(s, a);
      && |s'.workers| == 1
      && Line(s) + (if a.Push? then [a.task] else []) == (if IsPop(a, 0) then InHandOf(s', 0) else []) + Line(s')
  {
    match a
    case Push(t) =>
      Associates(s.workers[0].queue, s.injector, [t]);
    case PopLocal(_) =>
      FirstOfLine(s.workers[0].queue, s.injector);
    case StealBatch(_, batch) =>
      FirstOfBatch(s.injector, batch);
    case _ =>
  }

  lemma Associates(a: seq<TaskId>, b: seq<TaskId>, c: seq<TaskId>)
    ensures a + (b + c) == (a + b) + c
  {
  }

  lemma FirstOfLine(q: seq<TaskId>, rest: seq<TaskId>)
    requires q != []
    ensures q + rest == [q[0]] + (q[1..] + rest)
  {
  }

  lemma FirstOfBatch(q: seq<TaskId>, batch: nat)
    requires batch < |q|
    ensures [] + q == [q[0]] + (([] + q[1..batch + 1]) + q[batch + 1..])
  {
  }

  lemma Regroup(a: seq<TaskId>, line: seq<TaskId>, pushed: seq<TaskId>, popped: seq<TaskId>, line': seq<TaskId>)
    requires line + pushed == popped + line'
    ensures (a + line) + pushed == (a + popped) + line'
  {
    Associates(a, line, pushed);
    Associates(a, popped, line');
  }

  /** With one worker that looks at its own queue first, tasks are popped in the order they are pushed, whatever is
      moved in batches: at every time the pushed tasks are the popped ones followed by those still in line. */
  lemma {:induction false} LoneWorkerIsFifo(s: seq<State>, actions: seq<Action>, i: nat)
    requires IsRun(s, actions) && |s[0].workers| == 1 && i <= |actions|
    requires forall k {:trigger actions[k]} | 0 <= k < |actions| :: LocalFirst(s[k], actions[k])
    ensures |s[i].workers| == 1 && Pushes(actions, i) == Pops(s, actions, 0, i) + Line(s[i])
  {
    if i > 0 {
      var a, before, after := actions[i - 1], s[i - 1], s[i];
      LoneWorkerIsFifo(s, actions, i - 1);
      assert Enabled(before, a) && after == Step(before, a) && LocalFirst(before, a);
      LoneStep(before, a);
      Regroup(Pops(s, actions, 0, i - 1), Line(before), if a.Push? then [a.task] else [],
              if IsPop(a, 0) then InHandOf(after, 0) else [], Line(after));
    }
  }
}
