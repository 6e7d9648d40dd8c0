/** The timer wheel itself, changed in place, proved against a clock that holds nothing but the live timers
    and the tick at which each one fires. */
module TimerWheel {
  import opened TimerTicks
  import opened TimerSlots

  /** What the wheel is to its callers. */
  datatype Clock = Clock(tick: nat, nextId: nat, timers: Timers)

  function AfterInsert(c: Clock, deadline: nat): Clock {
    c.(nextId := c.nextId + 1, timers := c.timers[c.nextId := Timer(deadline, Due(c.tick, deadline))])
  }

  function AfterCancel(c: Clock, id: nat): Clock {
    c.(timers := c.timers - {id})
  }

  /** The timers that are left once `tick` has been worked off. */
  function Left(timers: Timers, tick: nat): Timers {
    map id | id in timers && timers[id].due > tick :: timers[id]
  }

  function AfterAdvance(c: Clock, target: nat): Clock {
    if target <= c.tick then c else c.(tick := target, timers := Left(c.timers, target))
  }

  predicate DueBy(timers: Timers, id: nat, tick: nat) {
    id in timers && timers[id].due <= tick
  }

  /** `a` fires before `b`. */
  predicate Before(timers: Timers, a: nat, b: nat) {
    a != b && a in timers && b in timers && timers[a].due <= timers[b].due
  }

  /** Exactly the timers due by `tick`, each once, in the order they are due. */
  ghost predicate FiresExactly(timers: Timers, tick: nat, fired: seq<nat>) {
    && (forall id: nat {:trigger DueBy(timers, id, tick)} :: id in fired <==> DueBy(timers, id, tick))
    && (forall i, j {:trigger Before(timers, fired[i], fired[j])} | 0 <= i < j < |fired| ::
       Before(timers, fired[i], fired[j]))
  }

  /** The timers in `fired`, all due at `tick`, are gone and nothing else is. */
  ghost predicate FiredFrom(before: Timers, timers: Timers, fired: seq<nat>, tick: nat) {
    && (forall id: nat {:trigger StillThere(before, timers, fired, tick, id)} ::
       StillThere(before, timers, fired, tick, id))
    && NoneTwice(fired)
  }

  predicate NoneTwice(fired: seq<nat>) {
    forall i, j | 0 <= i < j < |fired| :: fired[i] != fired[j]
  }

  predicate StillThere(before: Timers, timers: Timers, fired: seq<nat>, tick: nat, id: nat) {
    if id in timers then id in before && timers[id] == before[id] && id !in fired
    else if id in fired then id in before && before[id].due == tick
    else id !in before
  }

  lemma FiredOne(before: Timers, timers: Timers, fired: seq<nat>, tick: nat, id: nat)
    requires FiredFrom(before, timers, fired, tick) && id in timers && timers[id].due == tick
    ensures FiredFrom(before, timers - {id}, fired + [id], tick)
  {
    assert StillThere(before, timers, fired, tick, id);
    forall x: nat ensures StillThere(before, timers - {id}, fired + [id], tick, x) {
      assert StillThere(before, timers, fired, tick, x);
    }
  }

  /** What is left after a tick is due later, so what fired in it was all that was due. */
  lemma TickFires(before: Timers, timers: Timers, fired: seq<nat>, rest: Rests, tick: nat)
    requires FiredFrom(before, timers, fired, tick)
    requires timers.Keys <= rest.Keys && Timed(rest, timers, tick, 4)
    ensures timers == Left(before, tick) && FiresExactly(before, tick, fired)
  {
    DueLater(timers, rest, tick);
    forall id: nat ensures id in fired <==> DueBy(before, id, tick) {
      assert StillThere(before, timers, fired, tick, id);
    }
    forall i, j | 0 <= i < j < |fired| ensures Before(before, fired[i], fired[j]) {
      assert StillThere(before, timers, fired, tick, fired[i]);
      assert StillThere(before, timers, fired, tick, fired[j]);
    }
    forall id: nat
      ensures id in timers <==> id in Left(before, tick)
      ensures id in timers ==> timers[id] == Left(before, tick)[id]
    {
      assert StillThere(before, timers, fired, tick, id);
    }
  }

  lemma DueLater(timers: Timers, rest: Rests, tick: nat)
    requires timers.Keys <= rest.Keys && Timed(rest, timers, tick, 4)
    ensures forall id | id in timers :: timers[id].due > tick && timers[id].due >= timers[id].deadline
  {
    forall id | id in timers ensures timers[id].due > tick && timers[id].due >= timers[id].deadline {
      assert TimedAt(rest[id], timers[id], tick, 4);
      NeverEarly(rest[id].spot, rest[id].deadline, tick);
    }
  }

  lemma NothingDue(timers: Timers, rest: Rests, tick: nat)
    requires timers.Keys <= rest.Keys && Timed(rest, timers, tick, 4)
    ensures FiresExactly(timers, tick, []) && Left(timers, tick) == timers
  {
    DueLater(timers, rest, tick);
  }

  /** Two stretches of time one after the other. */
  lemma FiresOn(timers: Timers, tick: nat, fired: seq<nat>, left: Timers, more: seq<nat>)
    requires FiresExactly(timers, tick, fired) && left == Left(timers, tick) && FiresExactly(left, tick + 1, more)
    ensures FiresExactly(timers, tick + 1, fired + more) && Left(left, tick + 1) == Left(timers, tick + 1)
  {
    var all := fired + more;
    forall id: nat ensures id in all <==> DueBy(timers, id, tick + 1) {
      assert DueBy(timers, id, tick + 1) <==> DueBy(timers, id, tick) || DueBy(left, id, tick + 1);
    }
    forall i, j | 0 <= i < j < |all| ensures Before(timers, all[i], all[j]) {
      if j < |fired| {
        assert Before(timers, fired[i], fired[j]);
      } else if i < |fired| {
        assert DueBy(timers, all[i], tick) && DueBy(left, all[j], tick + 1);
      } else {
        assert Before(left, more[i - |fired|], more[j - |fired|]);
      }
    }
  }

  const U64_MAX := 0xFFFF_FFFF_FFFF_FFFF

  datatype Wakeup = Never | AtTick(tick: nat)

  /** The earliest deadline of any entry. */
  ghost predicate IsLeast(rest: Rests, deadline: nat) {
    && (exists id | id in rest :: rest[id].deadline == deadline)
    && forall id | id in rest :: deadline <= rest[id].deadline
  }

  /** `min` is the least deadline below `U64_MAX` of the wheels before `w` and the slots before `k` of wheel `w`;
      the entry `at` has it. */
  ghost predicate MinSoFar(rest: Rests, w: nat, k: nat, min: nat, at: nat) {
    && min <= U64_MAX
    && (forall id | id in rest && (rest[id].spot.wheel < w || (rest[id].spot.wheel == w && rest[id].spot.slot < k)) ::
          min <= rest[id].deadline)
    && (min < U64_MAX ==> at in rest && rest[at].deadline == min)
  }

  class TimerWheel {
    var wheels: Wheels
    var tick: nat
    var nextId: nat
    var handles: map<nat, Spot>
    ghost var rest: Rests
    ghost var timers: Timers

    ghost function Abs(): Clock
      reads this
    {
      Clock(tick, nextId, timers)
    }

    /** What holds between calls. */
    ghost predicate Valid()
      reads this
    {
      && Stored()
      && timers.Keys <= rest.Keys
      && Timed(rest, timers, tick, 4)
    }

    /** What also holds while a slot is in hand. */
    ghost predicate Stored()
      reads this
    {
      && Placed(wheels, rest)
      && Fits(rest, tick)
      && handles.Keys == timers.Keys
      && (forall id | id in rest :: id < nextId)
    }

    constructor ()
      ensures Valid() && Abs() == Clock(0, 0, map[])
    {
      var empty: seq<Entry> := [];
      wheels := [seq(256, _ => empty), seq(64, _ => empty), seq(64, _ => empty), seq(64, _ => empty)];
      tick, nextId, handles := 0, 0, map[];
      rest, timers := map[], map[];
    }

    /** Puts an entry in hand back by its distance, at or below the wheel it came from. */
    method PushByDistance(e: Entry, ghost w: nat)
      requires Stored() && e.id !in rest && e.id < nextId
      requires w < 4 && Place(Delta(e.deadline, tick)).wheel <= w && Timed(rest, timers, tick, w + 1)
      requires e.id in timers ==> timers[e.id] == Timer(e.deadline, Due(tick, e.deadline))
      modifies this`wheels, this`rest
      ensures Stored() && Timed(rest, timers, tick, w + 1)
      ensures rest == old(rest)[e.id := Rest(Place(Delta(e.deadline, tick)), e.deadline)]
    {
      var delta := if e.deadline <= tick then 0 else e.deadline - tick;
      var p := Place(delta);
      Push(wheels, rest, p, e);
      PlacedFits(e.deadline, tick);
      wheels := WithSlot(wheels, p, SlotAt(wheels, p) + [e]);
      rest := rest[e.id := Rest(p, e.deadline)];
    }

    method Insert(deadline: nat) returns (id: nat)
      requires Valid()
      modifies this
      ensures Valid() && id == old(nextId)
      ensures Abs() == AfterInsert(old(Abs()), deadline)
    {
      id := nextId;
      nextId := nextId + 1;
      handles := handles[id := Place(if deadline <= tick then 0 else deadline - tick)];
      timers := timers[id := Timer(deadline, Due(tick, deadline))];
      PushByDistance(Entry(id, deadline), 3);
    }

    /** The entry stays in its slot; without a handle it will never fire. */
    method Cancel(id: nat) returns (found: bool)
      requires Valid()
      modifies this`handles, this`timers
      ensures Valid() && (found <==> id in old(timers))
      ensures Abs() == AfterCancel(old(Abs()), id)
    {
      found := id in handles;
      handles := handles - {id};
      timers := timers - {id};
    }

    /** Deals with an entry of the drained slot: dropped if cancelled, fired if expired, else put back. */
    method Expire(e: Entry) returns (fires: bool)
      requires Stored() && e.id !in rest && e.id < nextId && Timed(rest, timers, tick, 1)
      requires Place(Delta(e.deadline, tick)).wheel == 0
      requires e.id in timers && e.deadline > tick ==> timers[e.id] == Timer(e.deadline, Due(tick, e.deadline))
      modifies this`wheels, this`handles, this`rest, this`timers
      ensures Stored() && Timed(rest, timers, tick, 1)
      ensures fires <==> e.id in old(timers) && e.deadline <= tick
      ensures timers == if fires then old(timers) - {e.id} else old(timers)
      ensures rest == old(rest) || rest.Keys == old(rest).Keys + {e.id}
      ensures e.id in timers ==> e.id in rest
    {
      fires := false;
      if e.id in handles {
        if e.deadline <= tick {
          handles := handles - {e.id};
          timers := timers - {e.id};
          fires := true;
        } else {
          PushByDistance(e, 0);
        }
      }
    }

    /** Empties a slot that the tick visits. */
    method TakeSlot(p: Spot) returns (slot: seq<Entry>)
      requires Stored() && tick >= 1 && IsSpot(p) && Visited(p, tick)
      requires timers.Keys <= rest.Keys && Timed(rest, timers, tick, p.wheel)
      modifies this`wheels, this`rest
      ensures Stored() && HandOK(slot, p, rest, timers, tick) && Timed(rest, timers, tick, p.wheel + 1)
      ensures forall e | e in slot :: e.id < nextId
    {
      slot := SlotAt(wheels, p);
      TakeInHand(wheels, rest, timers, tick, p);
      wheels := WithSlot(wheels, p, []);
      rest := rest - Ids(slot);
    }

    /** Empties the slot of wheel 0 that the tick visits. */
    method Drain() returns (fired: seq<nat>)
      requires Stored() && tick >= 1 && timers.Keys <= rest.Keys && Timed(rest, timers, tick, 0)
      modifies this`wheels, this`handles, this`rest, this`timers
      ensures Stored() && timers.Keys <= rest.Keys && Timed(rest, timers, tick, 1)
      ensures FiredFrom(old(timers), timers, fired, tick)
    {
      var p := Spot(0, tick % 256);
      var slot := TakeSlot(p);
      fired := [];
      var i := 0;
      while i < |slot|
        invariant 0 <= i <= |slot| && Stored() && Timed(rest, timers, tick, 1)
        invariant HandOK(slot[i..], p, rest, timers, tick)
        invariant forall e | e in slot :: e.id < nextId
        invariant FiredFrom(old(timers), timers, fired, tick)
      {
        var e := slot[i];
        HandFirst(slot, i, p, rest, timers, tick);
        ghost var before, beforeRest := timers, rest;
        var fires := Expire(e);
        if fires {
          FiredOne(old(timers), before, fired, tick, e.id);
          fired := fired + [e.id];
        }
        HandStep(slot[i..], p, beforeRest, before, tick, rest, timers);
        i := i + 1;
      }
    }

    /** Places every entry of the visited slot of wheel `w` anew, the cancelled ones too. */
    method Spread(w: nat) returns (slotIndex: nat)
      requires 1 <= w < 4 && Stored() && tick >= 1 && timers.Keys <= rest.Keys
      requires tick % Gran(w) == 0 && Timed(rest, timers, tick, w)
      modifies this`wheels, this`rest
      ensures Stored() && timers.Keys <= rest.Keys && Timed(rest, timers, tick, w + 1)
      ensures slotIndex == (tick / Gran(w)) % 64
    {
      slotIndex := (tick / Gran(w)) % 64;
      var p := Spot(w, slotIndex);
      var slot := TakeSlot(p);
      var i := 0;
      while i < |slot|
        invariant 0 <= i <= |slot| && Stored() && Timed(rest, timers, tick, w + 1)
        invariant HandOK(slot[i..], p, rest, timers, tick)
        invariant forall e | e in slot :: e.id < nextId
      {
        HandFirst(slot, i, p, rest, timers, tick);
        ghost var before := rest;
        PushByDistance(slot[i], w);
        HandStep(slot[i..], p, before, timers, tick, rest, timers);
        i := i + 1;
      }
    }

    /** Spreads the slot of wheel `w` over the lower wheels, then goes on upward as far as the tick reaches. */
    method Cascade(w: nat)
      requires 1 <= w && Stored() && tick >= 1 && timers.Keys <= rest.Keys
      requires if w < 4 then tick % Gran(w) == 0 && Timed(rest, timers, tick, w) else Timed(rest, timers, tick, 4)
      modifies this`wheels, this`rest
      ensures Stored() && timers.Keys <= rest.Keys && Timed(rest, timers, tick, 4)
      decreases 4 - w
    {
      if w < 4 {
        var slotIndex := Spread(w);
        if w < 3 {
          NextReached(tick, w);
        }
        if slotIndex == 0 {
          Cascade(w + 1);
        } else if w < 3 {
          TimedRest(rest, timers, tick, w + 1);
        }
      }
    }

    /** Works off one tick: the slot of wheel 0 first, then the cascades it reaches. */
    method Tick() returns (fired: seq<nat>)
      requires Valid()
      modifies this
      ensures Valid() && tick == old(tick) + 1 && nextId == old(nextId)
      ensures timers == Left(old(timers), tick)
      ensures FiresExactly(old(timers), tick, fired)
    {
      TimedTick(rest, timers, tick);
      tick := tick + 1;
      fired := Drain();
      if tick % 256 == 0 {
        Cascade(1);
      } else {
        TimedRest(rest, timers, tick, 1);
      }
      TickFires(old(timers), timers, fired, rest, tick);
    }

    /** Works off all ticks up to `target`, and hands out the timers that fire in them. */
    method Advance(target: nat) returns (fired: seq<nat>)
      requires Valid()
      modifies this
      ensures Valid() && Abs() == AfterAdvance(old(Abs()), target)
      ensures FiresExactly(old(timers), tick, fired)
    {
      fired := [];
      ghost var start := timers;
      NothingDue(timers, rest, tick);
      while tick < target
        invariant Valid() && nextId == old(nextId)
        invariant old(tick) <= tick && (tick <= target || tick == old(tick))
        invariant timers == Left(start, tick) && FiresExactly(start, tick, fired)
      {
        ghost var before, left := tick, timers;
        var more := Tick();
        FiresOn(start, before, fired, left, more);
        fired := fired + more;
      }
    }

    /** The earliest deadline of any entry, cancelled ones included. It is cut to 32 bits on the way out, so it is right
        if and only if some deadline is below 2^32. */
    method NextDeadline() returns (next: Wakeup)
      requires Valid()
      ensures next.Never? <==> forall id | id in rest :: rest[id].deadline >= U64_MAX
      ensures next.AtTick? ==> exists id | id in rest ::
                next.tick == rest[id].deadline % 0x1_0000_0000 && forall other | other in rest ::
                    rest[id].deadline <= rest[other].deadline
      ensures next.AtTick? ==>
                (IsLeast(rest, next.tick) <==> exists id | id in rest :: rest[id].deadline < 0x1_0000_0000)
      ensures next.AtTick? && IsLeast(rest, next.tick) ==>
                forall id | id in timers :: next.tick <= timers[id].deadline <= timers[id].due
    {
      var min: nat := U64_MAX;
      ghost var at: nat := 0;
      var w := 0;
      while w < 4
        invariant 0 <= w <= 4 && MinSoFar(rest, w, 0, min, at)
      {
        var k := 0;
        while k < |wheels[w]|
          invariant 0 <= k <= |wheels[w]| == Slots(w) && MinSoFar(rest, w, k, min, at)
        {
          var slot := wheels[w][k];
          var i := 0;
          while i < |slot|
            invariant 0 <= i <= |slot| && MinSoFar(rest, w, k, min, at)
            invariant forall j | 0 <= j < i :: min <= slot[j].deadline
          {
            assert slot == SlotAt(wheels, Spot(w, k)) && slot[i] in slot;
            if slot[i].deadline < min {
              min := slot[i].deadline;
              at := slot[i].id;
            }
            i := i + 1;
          }
          assert slot == SlotAt(wheels, Spot(w, k));
          k := k + 1;
        }
        w := w + 1;
      }
      assert forall id | id in rest :: IsSpot(rest[id].spot) && min <= rest[id].deadline;
      next := if min == U64_MAX then Never else AtTick(min % 0x1_0000_0000);
      DueLater(timers, rest, tick);
      forall id | id in timers ensures id in rest && timers[id].deadline == rest[id].deadline {
        assert TimedAt(rest[id], timers[id], tick, 4);
      }
    }
  }
}
