/** Whole runs of a timer wheel: any sequence of inserts, cancels and advances, as the contracts of the
    wheel's methods describe them. */
module TimerRuns {
  import opened TimerTicks
  import opened TimerSlots
  import opened TimerWheel

  datatype Event =
    | Inserted(deadline: nat)
    | Cancelled(id: nat)
    | Advanced(target: nat, fired: seq<nat>)

  ghost predicate Step(c: Clock, e: Event, c': Clock) {
    match e
    case Inserted(deadline) => c' == AfterInsert(c, deadline)
    case Cancelled(id) => c' == AfterCancel(c, id)
    case Advanced(target, fired) => c' == AfterAdvance(c, target) && FiresExactly(c.timers, c'.tick, fired)
  }

  ghost predicate IsRun(s: seq<Clock>, events: seq<Event>) {
    && |s| == |events| + 1
    && s[0] == Clock(0, 0, map[])
    && forall i {:trigger events[i]} | 0 <= i < |events| :: Step(s[i], events[i], s[i + 1])
  }

  predicate Fires(e: Event, id: nat) {
    e.Advanced? && id in e.fired
  }

  predicate ClockOK(c: Clock) {
    forall id | id in c.timers :: id < c.nextId && c.timers[id].due > c.tick
  }

  lemma StepOK(c: Clock, e: Event, c': Clock)
    requires ClockOK(c) && Step(c, e, c')
    ensures ClockOK(c') && c.nextId <= c'.nextId && c.tick <= c'.tick
  {
    if e.Inserted? {
      NeverEarly(Place(Delta(e.deadline, c.tick)), e.deadline, c.tick);
    }
  }

  lemma {:induction false} RunOK(s: seq<Clock>, events: seq<Event>, i: nat)
    requires IsRun(s, events) && i <= |events|
    ensures ClockOK(s[i])
  {
    if i > 0 {
      RunOK(s, events, i - 1);
      StepOK(s[i - 1], events[i - 1], s[i]);
    }
  }

  /** What one step does to one timer. */
  lemma StepTimer(c: Clock, e: Event, c': Clock, id: nat)
    requires ClockOK(c) && Step(c, e, c') && id < c.nextId
    ensures Fires(e, id) ==> id in c.timers && id !in c'.timers && c.timers[id].due <= c'.tick
    ensures id !in c.timers ==> id !in c'.timers
    ensures id in c.timers && id in c'.timers ==> c'.timers[id] == c.timers[id]
    ensures id in c.timers && id !in c'.timers ==> Fires(e, id) || e == Cancelled(id)
    ensures e == Cancelled(id) ==> id !in c'.timers
  {
    if e.Advanced? {
      assert id in e.fired <==> DueBy(c.timers, id, c'.tick);
    }
  }

  lemma NotIssuedYet(c: Clock, e: Event, c': Clock, id: nat)
    requires ClockOK(c) && Step(c, e, c') && id >= c.nextId
    ensures !Fires(e, id)
  {
    if e.Advanced? {
      assert id in e.fired <==> DueBy(c.timers, id, c'.tick);
    }
  }

  /** A timer that is gone never comes back and never fires again. */
  lemma {:induction false} GoneForGood(s: seq<Clock>, events: seq<Event>, a: nat, b: nat, id: nat)
    requires IsRun(s, events) && a <= b <= |events| && id < s[a].nextId && id !in s[a].timers
    ensures id < s[b].nextId && id !in s[b].timers
    ensures b < |events| ==> !Fires(events[b], id)
    decreases b - a
  {
    if a < b {
      GoneForGood(s, events, a, b - 1, id);
      RunOK(s, events, b - 1);
      StepOK(s[b - 1], events[b - 1], s[b]);
      StepTimer(s[b - 1], events[b - 1], s[b], id);
    }
    if b < |events| {
      RunOK(s, events, b);
      StepTimer(s[b], events[b], s[b + 1], id);
    }
  }

  /** A cancelled timer never fires afterwards. */
  lemma CancelledNeverFires(s: seq<Clock>, events: seq<Event>, i: nat, k: nat, id: nat)
    requires IsRun(s, events) && i < k < |events| && events[i] == Cancelled(id) && id < s[i].nextId
    ensures !Fires(events[k], id)
  {
    RunOK(s, events, i);
    StepTimer(s[i], events[i], s[i + 1], id);
    StepOK(s[i], events[i], s[i + 1]);
    GoneForGood(s, events, i + 1, k, id);
  }

  lemma {:induction false} IdsAscend(s: seq<Clock>, events: seq<Event>, k: nat, i: nat)
    requires IsRun(s, events) && k <= i <= |events|
    ensures s[k].nextId <= s[i].nextId && s[k].tick <= s[i].tick
    decreases i - k
  {
    if k < i {
      IdsAscend(s, events, k, i - 1);
      RunOK(s, events, i - 1);
      StepOK(s[i - 1], events[i - 1], s[i]);
    }
  }

  /** No timer fires before it is issued. */
  lemma NotBeforeIssue(s: seq<Clock>, events: seq<Event>, k: nat, i: nat)
    requires IsRun(s, events) && k <= i < |events| && events[i].Inserted?
    ensures !Fires(events[k], s[i].nextId)
  {
    if k < i {
      IdsAscend(s, events, k, i);
      RunOK(s, events, k);
      NotIssuedYet(s[k], events[k], s[k + 1], s[i].nextId);
    }
  }

  predicate Uncancelled(events: seq<Event>, i: nat, j: nat, id: nat)
    requires i <= j <= |events|
  {
    forall k | i <= k < j :: events[k] != Cancelled(id)
  }

  /** A timer is in the wheel from its insertion until the step that fires it. */
  predicate Waiting(s: seq<Clock>, events: seq<Event>, j: nat, id: nat, timer: Timer)
    requires |s| == |events| + 1 && j <= |events|
  {
    && id in s[j].timers && s[j].timers[id] == timer && s[j].tick < timer.due
    && forall k | 0 <= k < j :: !Fires(events[k], id)
  }

  /** It has fired, in exactly one step, the one that passes its due tick. */
  ghost predicate FiredOnce(s: seq<Clock>, events: seq<Event>, i: nat, j: nat, id: nat, due: nat)
    requires |s| == |events| + 1 && j <= |events|
  {
    && id !in s[j].timers && due <= s[j].tick
    && exists k {:trigger events[k]} :: i < k < j && Fires(events[k], id) && s[k].tick < due <= s[k + 1].tick
                   && forall k' | 0 <= k' < j && k' != k :: !Fires(events[k'], id)
  }

  /** In every run, a timer inserted at tick `t` with deadline `d` and not cancelled waits while the tick is below
      `Due(t, d)`, and once it is not, it has fired exactly once, in the advance that passed `Due(t, d)`. */
  lemma {:induction false} FiresOnceWhenDue(s: seq<Clock>, events: seq<Event>, i: nat, j: nat)
    requires IsRun(s, events) && i < j <= |events| && events[i].Inserted?
    requires Uncancelled(events, i, j, s[i].nextId)
    ensures
      var id, d := s[i].nextId, events[i].deadline;
      var due := Due(s[i].tick, d);
      if s[j].tick < due then Waiting(s, events, j, id, Timer(d, due)) else FiredOnce(s, events, i, j, id, due)
    decreases j - i
  {
    var id, d := s[i].nextId, events[i].deadline;
    var due := Due(s[i].tick, d);
    RunOK(s, events, j - 1);
    StepOK(s[j - 1], events[j - 1], s[j]);
    if j == i + 1 {
      NeverEarly(Place(Delta(d, s[i].tick)), d, s[i].tick);
      forall k | 0 <= k < j ensures !Fires(events[k], id) {
        NotBeforeIssue(s, events, k, i);
      }
    } else {
      FiresOnceWhenDue(s, events, i, j - 1);
      IdsAscend(s, events, i + 1, j - 1);
      StepTimer(s[j - 1], events[j - 1], s[j], id);
      assert events[j - 1] != Cancelled(id);
      if s[j - 1].tick < due {
        WaitingStep(s, events, i, j, id, Timer(d, due));
      } else {
        FiredStep(s, events, i, j, id, due);
      }
    }
  }

  lemma WaitingStep(s: seq<Clock>, events: seq<Event>, i: nat, j: nat, id: nat, timer: Timer)
    requires IsRun(s, events) && i + 1 < j <= |events| && id < s[j - 1].nextId
    requires Waiting(s, events, j - 1, id, timer) && events[j - 1] != Cancelled(id)
    ensures if s[j].tick < timer.due then Waiting(s, events, j, id, timer)
            else FiredOnce(s, events, i, j, id, timer.due)
  {
    RunOK(s, events, j - 1);
    RunOK(s, events, j);
    var k := j - 1;
    StepTimer(s[k], events[k], s[j], id);
    if s[j].tick >= timer.due {
      assert Fires(events[k], id) && s[k].tick < timer.due <= s[k + 1].tick;
    }
  }

  lemma FiredStep(s: seq<Clock>, events: seq<Event>, i: nat, j: nat, id: nat, due: nat)
    requires IsRun(s, events) && i + 1 < j <= |events| && id < s[j - 1].nextId
    requires FiredOnce(s, events, i, j - 1, id, due)
    ensures FiredOnce(s, events, i, j, id, due) && s[j].tick >= due
  {
    RunOK(s, events, j - 1);
    StepOK(s[j - 1], events[j - 1], s[j]);
    StepTimer(s[j - 1], events[j - 1], s[j], id);
    var k :| i < k < j - 1 && Fires(events[k], id) && s[k].tick < due <= s[k + 1].tick
             && forall k' | 0 <= k' < j - 1 && k' != k :: !Fires(events[k'], id);
  }
}
