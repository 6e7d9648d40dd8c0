/** Joining a scope or a task set: the counter, the result vector and the registered waker, changed by the
    interleaved atomic steps of the spawned tasks and of the join future.

    A task's result is `None` if it was cancelled or returns nothing. Each poll of the join that registers its
    waker gets a number of its own. */
module AsyncScopes {
  import opened Wrappers

  type TaskId = nat

  /** Where a task is: before its result is pushed, before its decrement, before its look at the waker, done. */
  datatype Phase = Running | Pushed | Last | Done

  datatype Task<T> = Task(phase: Phase, output: Option<T>)

  /** Where the join is: spawning goes on; the counter was read as not zero and the waker is to be registered;
      it is registered and the counter is to be read again; the counter was read as zero; `Pending` was
      returned with the waker of poll `poll` registered (0: not polled yet); `Ready` was returned. */
  datatype Join<T> =
    | Spawning
    | ToRegister(poll: nat)
    | ToRecheck(poll: nat)
    | ToCollect
    | Waiting(poll: nat)
    | Ready(results: seq<T>)

  datatype State<T> = State(
    tasks: map<TaskId, Task<T>>,
    active: int,
    results: seq<T>,
    waker: Option<nat>,
    join: Join<T>,
    polls: nat,
    woken: set<nat>)

  datatype Action<T> =
    | Spawn(task: TaskId, output: Option<T>)
    | PushResult(task: TaskId)
    | Decrement(task: TaskId)
    | TakeWaker(task: TaskId)
    | StartJoin
    | Poll
    | Register
    | Recheck
    | Collect

  function Init<T>(): State<T> {
    State(map[], 0, [], None, Spawning, 0, {})
  }

  predicate InPhase<T>(s: State<T>, t: TaskId, phase: Phase) {
    t in s.tasks && s.tasks[t].phase == phase
  }

  predicate Enabled<T>(s: State<T>, a: Action<T>) {
    match a
    case Spawn(t, _) => s.join.Spawning? && t !in s.tasks
    case PushResult(t) => InPhase(s, t, Running)
    case Decrement(t) => InPhase(s, t, Pushed)
    case TakeWaker(t) => InPhase(s, t, Last)
    case StartJoin => s.join.Spawning?
    case Poll => s.join.Waiting?
    case Register => s.join.ToRegister?
    case Recheck => s.join.ToRecheck?
    case Collect => s.join.ToCollect?
  }

  function WithPhase<T>(s: State<T>, t: TaskId, phase: Phase): map<TaskId, Task<T>>
    requires t in s.tasks
  {
    s.tasks[t := s.tasks[t].(phase := phase)]
  }

  function Step<T>(s: State<T>, a: Action<T>): State<T>
    requires Enabled(s, a)
  {
    match a
    case Spawn(t, output) => s.(active := s.active + 1, tasks := s.tasks[t := Task(Running, output)])
    case PushResult(t) =>
      s.(tasks := WithPhase(s, t, Pushed),
         results := match s.tasks[t].output case None => s.results case Some(r) => s.results + [r])
    case Decrement(t) =>
      s.(tasks := WithPhase(s, t, if s.active == 1 then Last else Done), active := s.active - 1)
    case TakeWaker(t) =>
      s.(tasks := WithPhase(s, t, Done), waker := None,
         woken := match s.waker case None => s.woken case Some(p) => s.woken + {p})
    case StartJoin => s.(join := Waiting(0))
    case Poll => s.(join := if s.active == 0 then ToCollect else ToRegister(s.polls + 1), polls := s.polls + 1)
    case Register => s.(waker := Some(s.join.poll), join := ToRecheck(s.join.poll))
    case Recheck => s.(join := if s.active == 0 then ToCollect else Waiting(s.join.poll))
    case Collect => s.(join := Ready(s.results), results := [])
  }

  ghost predicate IsRun<T>(s: seq<State<T>>, actions: seq<Action<T>>) {
    && |s| == |actions| + 1
    && s[0] == Init()
    && forall i {:trigger actions[i]} | 0 <= i < |actions| ::
       Enabled(s[i], actions[i]) && s[i + 1] == Step(s[i], actions[i])
  }

  // ---------------------------------------------------------------- the counter and the results

  /** The tasks that have not decremented the counter yet. */
  function Counted<T>(tasks: map<TaskId, Task<T>>): set<TaskId> {
    set t | t in tasks && (tasks[t].phase == Running || tasks[t].phase == Pushed)
  }

  /** The outputs of the tasks in `ts`. */
  ghost function Outputs<T>(tasks: map<TaskId, Task<T>>, ts: set<TaskId>): multiset<T>
    requires ts <= tasks.Keys
  {
    if ts == {} then multiset{}
    else
      var t :| t in ts;
      Output(tasks[t]) + Outputs(tasks, ts - {t})
  }

  function Output<T>(task: Task<T>): multiset<T> {
    match task.output case None => multiset{} case Some(r) => multiset{r}
  }

  lemma {:induction false} OutputsWith<T>(tasks: map<TaskId, Task<T>>, ts: set<TaskId>, t: TaskId)
    requires ts <= tasks.Keys && t in ts
    ensures Outputs(tasks, ts) == Output(tasks[t]) + Outputs(tasks, ts - {t})
    decreases |ts|
  {
    var u :| u in ts && Outputs(tasks, ts) == Output(tasks[u]) + Outputs(tasks, ts - {u});
    if u != t {
      OutputsWith(tasks, ts - {u}, t);
      OutputsWith(tasks, ts - {t}, u);
      assert ts - {u} - {t} == ts - {t} - {u};
    }
  }

  lemma {:induction false} OutputsFrame<T>(a: map<TaskId, Task<T>>, b: map<TaskId, Task<T>>, ts: set<TaskId>)
    requires ts <= a.Keys && ts <= b.Keys && forall t | t in ts :: a[t].output == b[t].output
    ensures Outputs(a, ts) == Outputs(b, ts)
    decreases |ts|
  {
    if ts != {} {
      var t :| t in ts;
      OutputsWith(a, ts, t);
      OutputsWith(b, ts, t);
      OutputsFrame(a, b, ts - {t});
    }
  }

  /** The tasks whose result, if any, has been pushed. */
  function Finished<T>(tasks: map<TaskId, Task<T>>): set<TaskId> {
    set t | t in tasks && tasks[t].phase != Running
  }

  // ---------------------------------------------------------------- the invariant

  ghost predicate Inv<T>(s: State<T>) {
    && s.active == |Counted(s.tasks)|
    && (s.join.Ready? || multiset(s.results) == Outputs(s.tasks, Finished(s.tasks)))
    && (s.join.ToCollect? ==> s.active == 0)
    && (s.join.Ready? ==> s.active == 0 && multiset(s.join.results) == Outputs(s.tasks, s.tasks.Keys))
    && WakerOK(s)
  }

  /** A registered waker is still there or has been woken; once the counter is zero, someone is about to take it. */
  ghost predicate WakerOK<T>(s: State<T>) {
    && (s.join.Spawning? ==> s.waker.None?)
    && (s.join.ToRecheck? || (s.join.Waiting? && s.join.poll > 0) ==>
       s.waker == Some(s.join.poll) || s.join.poll in s.woken)
    && (s.join.Waiting? && s.active == 0 && s.waker.Some? ==> exists t :: InPhase(s, t, Last))
  }

  lemma InitInv<T>()
    ensures Inv(Init<T>())
  {
  }

  /** Phase changes that keep a task counted or uncounted, finished or unfinished. */
  lemma PhaseSets<T>(tasks: map<TaskId, Task<T>>, t: TaskId, phase: Phase)
    requires t in tasks
    ensures
      var tasks' := tasks[t := tasks[t].(phase := phase)];
      && Counted(tasks') == (if phase == Running || phase == Pushed then Counted(tasks) + {t} else Counted(tasks) - {t})
      && Finished(tasks') == (if phase == Running then Finished(tasks) - {t} else Finished(tasks) + {t})
      && tasks'.Keys == tasks.Keys
  {
  }

  lemma SpawnInv<T>(s: State<T>, t: TaskId, output: Option<T>)
    requires Inv(s) && Enabled(s, Spawn(t, output))
    ensures Inv(Step(s, Spawn(t, output)))
  {
    var tasks' := s.tasks[t := Task(Running, output)];
    assert Counted(tasks') == Counted(s.tasks) + {t};
    assert Finished(tasks') == Finished(s.tasks);
    OutputsFrame(s.tasks, tasks', Finished(s.tasks));
  }

  lemma PushSets<T>(tasks: map<TaskId, Task<T>>, t: TaskId)
    requires t in tasks && tasks[t].phase == Running
    ensures
      var tasks' := tasks[t := tasks[t].(phase := Pushed)];
      && t in Counted(tasks) && Counted(tasks') == Counted(tasks)
      && Outputs(tasks', Finished(tasks')) ==
         Outputs(tasks, Finished(tasks)) +
         match tasks[t].output case None => multiset{} case Some(r) => multiset{r}
  {
    var tasks' := tasks[t := tasks[t].(phase := Pushed)];
    PhaseSets(tasks, t, Pushed);
    assert t in Counted(tasks) && Counted(tasks') == Counted(tasks);
    OutputsWith(tasks', Finished(tasks'), t);
    assert Finished(tasks') - {t} == Finished(tasks);
    OutputsFrame(tasks, tasks', Finished(tasks));
  }

  lemma PushInv<T>(s: State<T>, t: TaskId)
    requires Inv(s) && InPhase(s, t, Running)
    ensures Inv(Step(s, PushResult(t)))
  {
    PushSets(s.tasks, t);
    KeepWaker(s, Step(s, PushResult(t)), t);
  }

  /** Steps of a task that leave counter and waker alone. */
  lemma KeepWaker<T>(s: State<T>, s': State<T>, t: TaskId)
    requires WakerOK(s) && !InPhase(s, t, Last)
    requires s'.join == s.join && s'.waker == s.waker && s'.woken == s.woken && s'.active == s.active
    requires forall u | u != t && u in s.tasks :: u in s'.tasks && s'.tasks[u] == s.tasks[u]
    ensures WakerOK(s')
  {
    if s.join.Waiting? && s.active == 0 && s.waker.Some? {
      var u :| InPhase(s, u, Last);
      assert InPhase(s', u, Last);
    }
  }

  lemma DecrementInv<T>(s: State<T>, t: TaskId)
    requires Inv(s) && InPhase(s, t, Pushed)
    ensures Inv(Step(s, Decrement(t)))
  {
    var s' := Step(s, Decrement(t));
    PhaseSets(s.tasks, t, s'.tasks[t].phase);
    assert t in Counted(s.tasks);
    assert Finished(s'.tasks) == Finished(s.tasks);
    OutputsFrame(s.tasks, s'.tasks, Finished(s.tasks));
    if s'.active == 0 {
      assert InPhase(s', t, Last);
    }
  }

  /** A task that is done with the counter only looks at the waker. */
  lemma TakeSets<T>(tasks: map<TaskId, Task<T>>, t: TaskId)
    requires t in tasks && tasks[t].phase == Last
    ensures
      var tasks' := tasks[t := tasks[t].(phase := Done)];
      && Counted(tasks') == Counted(tasks) && Finished(tasks') == Finished(tasks) && tasks'.Keys == tasks.Keys
      && Outputs(tasks', Finished(tasks)) == Outputs(tasks, Finished(tasks))
      && Outputs(tasks', tasks.Keys) == Outputs(tasks, tasks.Keys)
  {
    var tasks' := tasks[t := tasks[t].(phase := Done)];
    PhaseSets(tasks, t, Done);
    assert Counted(tasks') == Counted(tasks) && Finished(tasks') == Finished(tasks);
    OutputsFrame(tasks, tasks', Finished(tasks));
    OutputsFrame(tasks, tasks', tasks.Keys);
  }

  lemma TakeInv<T>(s: State<T>, t: TaskId)
    requires Inv(s) && InPhase(s, t, Last)
    ensures Inv(Step(s, TakeWaker(t)))
  {
    TakeSets(s.tasks, t);
    TakenWaker(s, t);
    SameSums(s, Step(s, TakeWaker(t)));
  }

  /** The invariant sees tasks only through their number, their outputs and the waker. */
  lemma SameSums<T>(s: State<T>, s': State<T>)
    requires Inv(s) && s'.active == s.active && s'.results == s.results && s'.join == s.join && WakerOK(s')
    requires Counted(s'.tasks) == Counted(s.tasks)
    requires Outputs(s'.tasks, Finished(s'.tasks)) == Outputs(s.tasks, Finished(s.tasks))
    requires Outputs(s'.tasks, s'.tasks.Keys) == Outputs(s.tasks, s.tasks.Keys)
    ensures Inv(s')
  {
  }

  lemma TakenWaker<T>(s: State<T>, t: TaskId)
    requires WakerOK(s) && InPhase(s, t, Last)
    ensures WakerOK(Step(s, TakeWaker(t)))
  {
  }

  /** With the counter at zero, all results are in. */
  lemma AllFinished<T>(s: State<T>)
    requires Inv(s) && s.active == 0
    ensures Finished(s.tasks) == s.tasks.Keys
  {
    forall t | t in s.tasks ensures t in Finished(s.tasks) {
      assert t !in Counted(s.tasks);
    }
  }

  lemma JoinInv<T>(s: State<T>, a: Action<T>)
    requires Inv(s) && Enabled(s, a) && (a.StartJoin? || a.Poll? || a.Register? || a.Recheck? || a.Collect?)
    ensures Inv(Step(s, a))
  {
    if a.Collect? {
      AllFinished(s);
    }
  }

  lemma StepInv<T>(s: State<T>, a: Action<T>)
    requires Inv(s) && Enabled(s, a)
    ensures Inv(Step(s, a))
  {
    match a
    case Spawn(t, output) => SpawnInv(s, t, output);
    case PushResult(t) => PushInv(s, t);
    case Decrement(t) => DecrementInv(s, t);
    case TakeWaker(t) => TakeInv(s, t);
    case _ => JoinInv(s, a);
  }

  lemma {:induction false} RunInv<T>(s: seq<State<T>>, actions: seq<Action<T>>, i: nat)
    requires IsRun(s, actions) && i <= |actions|
    ensures Inv(s[i])
  {
    if i == 0 {
      InitInv<T>();
    } else {
      RunInv(s, actions, i - 1);
      StepInv(s[i - 1], actions[i - 1]);
    }
  }

  // ---------------------------------------------------------------- what the join promises

  predicate AllDone<T>(s: State<T>) {
    forall t | t in s.tasks :: s.tasks[t].phase == Done
  }

  /** The poll under way is the latest one. */
  predicate PollsOK<T>(s: State<T>) {
    && (s.join.ToRegister? || s.join.ToRecheck? ==> s.join.poll == s.polls)
    && (s.join.Waiting? ==> s.join.poll <= s.polls)
  }

  lemma {:induction false} RunPolls<T>(s: seq<State<T>>, actions: seq<Action<T>>, i: nat)
    requires IsRun(s, actions) && i <= |actions|
    ensures PollsOK(s[i])
  {
    if i > 0 {
      RunPolls(s, actions, i - 1);
      assert s[i] == Step(s[i - 1], actions[i - 1]);
    }
  }

  predicate Registers<T>(s: State<T>, a: Action<T>, poll: nat) {
    a.Register? && s.join.ToRegister? && s.join.poll == poll
  }

  predicate Wakes<T>(s: State<T>, a: Action<T>, poll: nat) {
    a.TakeWaker? && s.waker == Some(poll)
  }

  /** A poll registers its waker once. */
  lemma {:induction false} RegistersOnce<T>(s: seq<State<T>>, actions: seq<Action<T>>, r: nat, k: nat, poll: nat)
    requires IsRun(s, actions) && r < k <= |actions| && Registers(s[r], actions[r], poll)
    ensures s[k].polls >= poll && (s[k].polls == poll ==> !s[k].join.ToRegister?)
    ensures k < |actions| ==> !Registers(s[k], actions[k], poll)
    decreases k
  {
    assert s[k] == Step(s[k - 1], actions[k - 1]);
    if k == r + 1 {
      RunPolls(s, actions, r);
    } else {
      RegistersOnce(s, actions, r, k - 1, poll);
    }
    RunPolls(s, actions, k);
  }

  /** A waker that is there was registered before. */
  lemma {:induction false} WasRegistered<T>(s: seq<State<T>>, actions: seq<Action<T>>, k: nat, poll: nat)
    returns (r: nat)
    requires IsRun(s, actions) && k <= |actions| && s[k].waker == Some(poll)
    ensures r < k && Registers(s[r], actions[r], poll)
  {
    assert k > 0;
    assert s[k] == Step(s[k - 1], actions[k - 1]);
    if s[k - 1].waker == Some(poll) {
      r := WasRegistered(s, actions, k - 1, poll);
    } else {
      r := k - 1;
    }
  }

  /** A waker that was woken was taken. */
  lemma {:induction false} WasTaken<T>(s: seq<State<T>>, actions: seq<Action<T>>, i: nat, poll: nat) returns (k: nat)
    requires IsRun(s, actions) && i <= |actions| && poll in s[i].woken
    ensures k < i && Wakes(s[k], actions[k], poll)
  {
    assert i > 0;
    assert s[i] == Step(s[i - 1], actions[i - 1]);
    if poll in s[i - 1].woken {
      k := WasTaken(s, actions, i - 1, poll);
    } else {
      k := i - 1;
    }
  }

  lemma PendingIsWoken<T>(s: seq<State<T>>, actions: seq<Action<T>>, i: nat)
    requires IsRun(s, actions) && i <= |actions|
    requires s[i].join.Waiting? && s[i].join.poll > 0 && AllDone(s[i])
    ensures s[i].join.poll in s[i].woken
  {
    RunInv(s, actions, i);
    assert Counted(s[i].tasks) == {};
    assert forall t :: !InPhase(s[i], t, Last);
  }

  /** No completion is lost: if the join last returned `Pending` and every task is done, then after that poll registered
      its waker, as it did once, a task took this waker and woke it. */
  lemma NoLostCompletion<T>(s: seq<State<T>>, actions: seq<Action<T>>, i: nat) returns (r: nat, k: nat)
    requires IsRun(s, actions) && i <= |actions|
    requires s[i].join.Waiting? && s[i].join.poll > 0 && AllDone(s[i])
    ensures r < k < i && Registers(s[r], actions[r], s[i].join.poll) && Wakes(s[k], actions[k], s[i].join.poll)
    ensures forall x | 0 <= x < i && Registers(s[x], actions[x], s[i].join.poll) :: x == r
  {
    var poll := s[i].join.poll;
    PendingIsWoken(s, actions, i);
    k := WasTaken(s, actions, i, poll);
    r := WasRegistered(s, actions, k, poll);
    forall x | 0 <= x < i && Registers(s[x], actions[x], poll) ensures x == r {
      if x < r {
        RegistersOnce(s, actions, x, r, poll);
      } else if r < x {
        RegistersOnce(s, actions, r, x, poll);
      }
    }
  }

  /** When the join is ready, every task has pushed its result and decremented the counter, and the join returns
      exactly their outputs. */
  lemma ReadyHasAllResults<T>(s: seq<State<T>>, actions: seq<Action<T>>, i: nat)
    requires IsRun(s, actions) && i <= |actions| && s[i].join.Ready?
    ensures multiset(s[i].join.results) == Outputs(s[i].tasks, s[i].tasks.Keys)
    ensures forall t | t in s[i].tasks :: s[i].tasks[t].phase == Last || s[i].tasks[t].phase == Done
  {
    RunInv(s, actions, i);
    forall t | t in s[i].tasks ensures s[i].tasks[t].phase == Last || s[i].tasks[t].phase == Done {
      assert t !in Counted(s[i].tasks);
    }
  }

  /** The counter never goes below zero. */
  lemma CounterIsTrue<T>(s: seq<State<T>>, actions: seq<Action<T>>, i: nat)
    requires IsRun(s, actions) && i <= |actions|
    ensures s[i].active == |Counted(s[i].tasks)| >= 0
  {
    RunInv(s, actions, i);
  }

  /** A task that is about to take the waker has brought the counter to zero. */
  lemma {:induction false} ReachedZero<T>(s: seq<State<T>>, actions: seq<Action<T>>, k: nat, t: TaskId) returns (j: nat)
    requires IsRun(s, actions) && k <= |actions| && InPhase(s[k], t, Last)
    ensures j < k && actions[j] == Decrement(t) && s[j].active == 1 && s[j + 1].active == 0
  {
    assert k > 0;
    assert s[k] == Step(s[k - 1], actions[k - 1]);
    if InPhase(s[k - 1], t, Last) {
      j := ReachedZero(s, actions, k - 1, t);
    } else {
      j := k - 1;
    }
  }

  /** Nobody is woken without reason: who takes the waker was the last to decrement the counter at that time. */
  lemma WokenByLast<T>(s: seq<State<T>>, actions: seq<Action<T>>, k: nat, poll: nat) returns (j: nat)
    requires IsRun(s, actions) && k < |actions| && Wakes(s[k], actions[k], poll)
    ensures j < k && actions[j] == Decrement(actions[k].task) && s[j].active == 1 && s[j + 1].active == 0
  {
    assert Enabled(s[k], actions[k]);
    j := ReachedZero(s, actions, k, actions[k].task);
  }

  /** A poll finds the join ready, at its first look or after registering, exactly if every task spawned has decremented
      the counter by then. */
  lemma ReadyIff<T>(s: seq<State<T>>, actions: seq<Action<T>>, i: nat)
    requires IsRun(s, actions) && i < |actions| && (actions[i].Poll? || actions[i].Recheck?)
    ensures s[i + 1].join.ToCollect? <==>
            forall t | t in s[i].tasks :: s[i].tasks[t].phase == Last || s[i].tasks[t].phase == Done
  {
    RunInv(s, actions, i);
    assert s[i + 1] == Step(s[i], actions[i]);
    if s[i].active == 0 {
      forall t | t in s[i].tasks ensures s[i].tasks[t].phase == Last || s[i].tasks[t].phase == Done {
        assert t !in Counted(s[i].tasks);
      }
    } else {
      var t :| t in Counted(s[i].tasks);
    }
  }

  /** The outputs of the tasks, in the order in which they were pushed by the first `i` steps. */
  function PushedOutputs<T>(s: seq<State<T>>, actions: seq<Action<T>>, i: nat): seq<T>
    requires |s| == |actions| + 1 && i <= |actions|
  {
    if i == 0 then []
    else
      PushedOutputs(s, actions, i - 1)
      + match actions[i - 1]
        case PushResult(t) => OutputOf(s[i - 1], t)
        case _ => []
  }

  function OutputOf<T>(s: State<T>, t: TaskId): seq<T> {
    if t in s.tasks && s.tasks[t].output.Some? then [s.tasks[t].output.value] else []
  }

  function Collected<T>(s: State<T>): seq<T> {
    if s.join.Ready? then s.join.results else s.results
  }

  lemma NoneRuns<T>(s: State<T>)
    requires Inv(s)
    ensures s.join.Ready? ==> forall t :: !InPhase(s, t, Running)
  {
    assert forall t | InPhase(s, t, Running) :: t in Counted(s.tasks);
  }

  lemma CollectedStep<T>(s: State<T>, a: Action<T>)
    requires Enabled(s, a) && (s.join.Ready? ==> forall t :: !InPhase(s, t, Running))
    ensures Collected(Step(s, a)) ==
            Collected(s) + match a case PushResult(t) => OutputOf(s, t) case _ => []
  {
    assert Collected(s) + [] == Collected(s);
  }

  /** Results are held, and handed out by the join, in the order in which the tasks pushed them. */
  lemma {:induction false} ResultsInOrder<T>(s: seq<State<T>>, actions: seq<Action<T>>, i: nat)
    requires IsRun(s, actions) && i <= |actions|
    ensures Collected(s[i]) == PushedOutputs(s, actions, i)
  {
    if i > 0 {
      ResultsInOrder(s, actions, i - 1);
      RunInv(s, actions, i - 1);
      assert Enabled(s[i - 1], actions[i - 1]) && s[i] == Step(s[i - 1], actions[i - 1]);
      NoneRuns(s[i - 1]);
      CollectedStep(s[i - 1], actions[i - 1]);
    }
  }
}
