/** The work-stealing scheduler without contention: where a worker that looks for work finds it. */
module AsyncScheduler {
  import opened Wrappers

  type TaskId = nat

  type Queues = seq<seq<TaskId>>

  /** The worker that worker `id` of `n` looks at in round `i` of its search. */
  function Victim(id: nat, i: nat, n: nat): (v: nat)
    requires n > 0
    ensures v < n
  {
    (id + i + 1) % n
  }

  lemma Wraps(k: nat, n: nat)
    requires k < n
    ensures k % n == k && (k + n) % n == k
  {
  }

  /** The search looks at every worker once. */
  lemma EveryVictimOnce(id: nat, k: nat, n: nat) returns (i: nat)
    requires id < n && k < n
    ensures i < n && Victim(id, i, n) == k
    ensures forall j | 0 <= j < n && Victim(id, j, n) == k :: j == i
  {
    i := if k > id then k - id - 1 else k + n - id - 1;
    Wraps(k, n);
    forall j | 0 <= j < n && Victim(id, j, n) == k ensures j == i {
      if id + j + 1 < n {
        Wraps(id + j + 1, n);
      } else {
        Wraps(id + j + 1 - n, n);
      }
    }
  }

  function CountIn(q: seq<TaskId>, t: TaskId): nat {
    multiset(q)[t]
  }

  /** How often `t` is queued. */
  function CountAll(qs: Queues, t: TaskId): nat {
    if qs == [] then 0 else CountIn(qs[0], t) + CountAll(qs[1..], t)
  }

  lemma {:induction false} OneQueue(qs: Queues, i: nat, q: seq<TaskId>, t: TaskId)
    requires i < |qs|
    ensures CountAll(qs[i := q], t) + CountIn(qs[i], t) == CountAll(qs, t) + CountIn(q, t)
    decreases |qs|
  {
    if i == 0 {
      assert qs[i := q][1..] == qs[1..];
    } else {
      assert qs[i := q][1..] == qs[1..][i - 1 := q];
      OneQueue(qs[1..], i - 1, q, t);
    }
  }

  predicate AllEmpty(injector: seq<TaskId>, qs: Queues) {
    injector == [] && forall k | 0 <= k < |qs| :: qs[k] == []
  }

  /** From round `i` of the search on, the first round with work. */
  function FirstRound(qs: Queues, id: nat, i: nat): (r: nat)
    requires id < |qs| && i <= |qs|
    ensures i <= r <= |qs|
    ensures forall j | i <= j < r :: qs[Victim(id, j, |qs|)] == []
    ensures r < |qs| ==> qs[Victim(id, r, |qs|)] != []
    decreases |qs| - i
  {
    if i == |qs| || qs[Victim(id, i, |qs|)] != [] then i else FirstRound(qs, id, i + 1)
  }

  lemma NoRound(qs: Queues, id: nat)
    requires id < |qs| && FirstRound(qs, id, 0) == |qs|
    ensures forall k | 0 <= k < |qs| :: qs[k] == []
  {
    forall k | 0 <= k < |qs| ensures qs[k] == [] {
      var i := EveryVictimOnce(id, k, |qs|);
    }
  }

  /** Where a worker finds its next task: its own queue, else the injector, else the first victim with work. */
  function NextTask(injector: seq<TaskId>, qs: Queues, id: nat): Option<TaskId>
    requires id < |qs|
  {
    if qs[id] != [] then Some(qs[id][0])
    else if injector != [] then Some(injector[0])
    else
      var r := FirstRound(qs, id, 0);
      if r < |qs| then Some(qs[Victim(id, r, |qs|)][0]) else None
  }

  /** `j` comes after `id` and before `k` in the cyclic order of the workers. */
  predicate Between(id: nat, j: nat, k: nat) {
    if id < k then id < j < k else id < j || j < k
  }

  /** The queue found first is the first with work after the worker's own, going round. */
  lemma FoundIsNearest(qs: Queues, id: nat, r: nat)
    requires id < |qs| && qs[id] == [] && r == FirstRound(qs, id, 0) < |qs|
    ensures
      var k := Victim(id, r, |qs|);
      k != id && qs[k] != [] && forall j | 0 <= j < |qs| && Between(id, j, k) :: qs[j] == []
  {
    var n, k := |qs|, Victim(id, r, |qs|);
    VictimIs(id, r, n);
    forall j | 0 <= j < n && Between(id, j, k) ensures qs[j] == [] {
      var i := if j > id then j - id - 1 else j + n - id - 1;
      VictimIs(id, i, n);
      assert i < r && qs[Victim(id, i, n)] == [];
    }
  }

  lemma VictimIs(id: nat, i: nat, n: nat)
    requires id < n && i < n
    ensures Victim(id, i, n) == if id + i + 1 < n then id + i + 1 else id + i + 1 - n
  {
    if id + i + 1 < n {
      Wraps(id + i + 1, n);
    } else {
      Wraps(id + i + 1 - n, n);
    }
  }

  /** `after` is `before` with one copy of `t` taken out. */
  ghost predicate TookOne(injector: seq<TaskId>, qs: Queues, t: TaskId, injector': seq<TaskId>, qs': Queues) {
    forall u: TaskId {:trigger CountAll(qs', u)} ::
      CountIn(injector, u) + CountAll(qs, u) == CountIn(injector', u) + CountAll(qs', u) + if u == t then 1 else 0
  }

  lemma TakeFirst(injector: seq<TaskId>, qs: Queues, i: nat)
    requires i < |qs| && qs[i] != []
    ensures TookOne(injector, qs, qs[i][0], injector, qs[i := qs[i][1..]])
  {
    var q := qs[i];
    assert q == [q[0]] + q[1..];
    forall u: TaskId ensures CountAll(qs, u) == CountAll(qs[i := q[1..]], u) + if u == q[0] then 1 else 0 {
      OneQueue(qs, i, q[1..], u);
    }
  }

  lemma TakeBatch(injector: seq<TaskId>, qs: Queues, id: nat, batch: nat)
    requires id < |qs| && batch < |injector|
    ensures TookOne(injector, qs, injector[0], injector[batch + 1..], qs[id := qs[id] + injector[1..batch + 1]])
  {
    var moved, kept := injector[1..batch + 1], injector[batch + 1..];
    assert injector == [injector[0]] + moved + kept;
    forall u: TaskId
      ensures CountIn(injector, u) + CountAll(qs, u)
              == CountIn(kept, u) + CountAll(qs[id := qs[id] + moved], u) + if u == injector[0] then 1 else 0
    {
      OneQueue(qs, id, qs[id] + moved, u);
    }
  }

  class Scheduler {
    var injector: seq<TaskId>
    var queues: Queues
    var activeTasks: nat

    constructor (numWorkers: nat)
      ensures injector == [] && activeTasks == 0 && |queues| == numWorkers && AllEmpty(injector, queues)
    {
      injector, activeTasks := [], 0;
      var empty: seq<TaskId> := [];
      queues := seq(numWorkers, _ => empty);
    }

    method Push(t: TaskId)
      modifies this`injector, this`activeTasks
      ensures injector == old(injector) + [t] && activeTasks == old(activeTasks) + 1
    {
      activeTasks := activeTasks + 1;
      injector := injector + [t];
    }

    /** One pop by worker `id`. The worker's own queue followed by the injector is one queue to it, of which it takes
        the first task; stealing from the injector moves up to `batch` more tasks over to the own queue, in order. If
        both are empty, it takes the first task of the next worker with work, going round. Finds a task whenever there
        is one, and takes out exactly that one. */
    method Pop(id: nat, batch: nat) returns (task: Option<TaskId>)
      requires id < |queues|
      modifies this`injector, this`queues
      ensures |queues| == |old(queues)|
      ensures
        var line := old(queues)[id] + old(injector);
        line != [] ==>
          && task == Some(line[0]) && queues[id] + injector == line[1..]
          && queues == old(queues)[id := queues[id]]
          && (old(queues)[id] != [] ==> injector == old(injector))
          && (old(queues)[id] == [] ==> |queues[id]| <= batch)
      ensures old(queues)[id] + old(injector) == [] && task.Some? ==>
                && injector == []
                && exists k | 0 <= k < |old(queues)| ::
                     && k != id && old(queues)[k] != [] && task.value == old(queues)[k][0]
                     && queues == old(queues)[k := old(queues)[k][1..]]
                     && forall j | 0 <= j < |old(queues)| && Between(id, j, k) :: old(queues)[j] == []
      ensures task == NextTask(old(injector), old(queues), id)
      ensures task.None? <==> AllEmpty(old(injector), old(queues))
      ensures task.None? ==> injector == old(injector) && queues == old(queues)
      ensures task.Some? ==> TookOne(old(injector), old(queues), task.value, injector, queues)
    {
      if |queues[id]| > 0 {
        TakeFirst(injector, queues, id);
        assert (queues[id] + injector)[1..] == queues[id][1..] + injector;
        task := Some(queues[id][0]);
        queues := queues[id := queues[id][1..]];
        return;
      }
      if |injector| > 0 {
        var moved := if batch < |injector| then batch else |injector| - 1;
        TakeBatch(injector, queues, id, moved);
        task := Some(injector[0]);
        queues := queues[id := queues[id] + injector[1..moved + 1]];
        injector := injector[moved + 1..];
        return;
      }
      var n := |queues|;
      var i := 0;
      while i < n
        invariant 0 <= i <= n == |queues| && injector == [] == old(injector) && queues == old(queues)
                  && queues[id] == []
        invariant FirstRound(queues, id, 0) == FirstRound(queues, id, i)
      {
        var k := Victim(id, i, n);
        if k != id && |queues[k]| > 0 {
          FoundIsNearest(queues, id, i);
          TakeFirst(injector, queues, k);
          task := Some(queues[k][0]);
          queues := queues[k := queues[k][1..]];
          return;
        }
        i := i + 1;
      }
      NoRound(queues, id);
      task := None;
    }
  }
}
