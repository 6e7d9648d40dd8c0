/** When the slots of the four wheels are visited, and the tick at which a timer fires as a consequence. */
module TimerTicks {
  /** Ticks between two visits of neighbouring slots of a wheel. */
  function Gran(w: nat): nat
    requires w < 4
  {
    if w == 0 then 1 else if w == 1 then 256 else if w == 2 then 16384 else 1048576
  }

  function Slots(w: nat): nat
    requires w < 4
  {
    if w == 0 then 256 else 64
  }

  /** Ticks that a wheel covers in one turn. */
  function Span(w: nat): nat
    requires w < 4
  {
    if w == 0 then 256 else if w == 1 then 16384 else if w == 2 then 1048576 else 67108864
  }

  datatype Spot = Spot(wheel: nat, slot: nat)

  predicate IsSpot(p: Spot) {
    p.wheel < 4 && p.slot < Slots(p.wheel)
  }

  function Delta(deadline: nat, tick: nat): nat {
    if deadline <= tick then 0 else deadline - tick
  }

  /** Wheel and slot are chosen by the distance to the deadline alone. */
  function Place(delta: nat): (p: Spot)
    ensures IsSpot(p)
  {
    if delta < 256 then Spot(0, delta)
    else if delta < 256 * 64 then Spot(1, delta / 256)
    else if delta < 256 * 64 * 64 then Spot(2, delta / (256 * 64))
    else Spot(3, if delta / (256 * 64 * 64) < 63 then delta / (256 * 64 * 64) else 63)
  }

  /** Slots are drained by the absolute tick. */
  predicate Visited(p: Spot, tick: nat)
    requires IsSpot(p)
  {
    tick % Gran(p.wheel) == 0 && (tick / Gran(p.wheel)) % Slots(p.wheel) == p.slot
  }

  /** The first index after `u` that is `s` modulo 64. */
  function Next64(s: nat, u: nat): nat {
    u + 1 + (s - u - 1) % 64
  }

  function Next256(s: nat, u: nat): nat {
    u + 1 + (s - u - 1) % 256
  }

  function NextVisit(p: Spot, tick: nat): nat
    requires IsSpot(p)
  {
    if p.wheel == 0 then Next256(p.slot, tick)
    else if p.wheel == 1 then Next64(p.slot, tick / 256) * 256
    else if p.wheel == 2 then Next64(p.slot, tick / 16384) * 16384
    else Next64(p.slot, tick / 1048576) * 1048576
  }

  lemma Next64Is(s: nat, u: nat, v: nat)
    requires s < 64
    ensures Next64(s, u) == v <==> u < v <= u + 64 && v % 64 == s
  {
  }

  lemma Next256Is(s: nat, u: nat, v: nat)
    requires s < 256
    ensures Next256(s, u) == v <==> u < v <= u + 256 && v % 256 == s
  {
  }

  lemma NextMultiple(g: nat, tick: nat)
    requires g == 256 || g == 16384 || g == 1048576
    ensures (tick + 1) % g == 0 ==> (tick + 1) / g == tick / g + 1
    ensures (tick + 1) % g != 0 ==> (tick + 1) / g == tick / g
  {
  }

  /** A multiple of `g` within the next 64. */
  lemma Turn(g: nat, tick: nat, v: nat)
    requires g == 256 || g == 16384 || g == 1048576
    requires tick / g < v <= tick / g + 64
    ensures tick < v * g <= tick + 64 * g && (v * g) % g == 0 && (v * g) / g == v
    ensures (tick + 1) % g == 0 && v == tick / g + 1 ==> v * g == tick + 1
  {
  }

  /** The next visit is the first one after `tick`, and at most a turn of the wheel away. */
  lemma NextVisitIsFirst(p: Spot, tick: nat)
    requires IsSpot(p)
    ensures tick < NextVisit(p, tick) <= tick + Span(p.wheel)
    ensures Visited(p, NextVisit(p, tick))
    ensures Visited(p, tick + 1) ==> NextVisit(p, tick) == tick + 1
    ensures !Visited(p, tick + 1) ==> NextVisit(p, tick + 1) == NextVisit(p, tick)
  {
    if p.wheel == 0 {
      var v := Next256(p.slot, tick);
      Next256Is(p.slot, tick, v);
      Next256Is(p.slot, tick, tick + 1);
      Next256Is(p.slot, tick + 1, v);
    } else {
      var g := Gran(p.wheel);
      var u := tick / g;
      var v := Next64(p.slot, u);
      NextMultiple(g, tick);
      Next64Is(p.slot, u, v);
      Next64Is(p.slot, u, u + 1);
      Next64Is(p.slot, u + 1, v);
      Turn(g, tick, v);
    }
  }

  // ---------------------------------------------------------------- when a timer fires

  /** The tick at which an entry at `p` fires: each visit of its slot fires it (wheel 0, deadline reached)
      or places it anew. */
  function FireTick(p: Spot, deadline: nat, tick: nat): nat
    requires IsSpot(p)
    decreases Delta(deadline, tick), p.wheel
  {
    NextVisitIsFirst(p, tick);
    var v := NextVisit(p, tick);
    if p.wheel == 0 && deadline <= v then v else FireTick(Place(Delta(deadline, v)), deadline, v)
  }

  /** The tick at which a timer fires that is inserted at `tick`. */
  function Due(tick: nat, deadline: nat): nat {
    FireTick(Place(Delta(deadline, tick)), deadline, tick)
  }

  /** Nothing happens to an entry between visits; a visit does what `FireTick` says. */
  lemma FireTickStep(p: Spot, deadline: nat, tick: nat)
    requires IsSpot(p)
    ensures !Visited(p, tick + 1) ==> FireTick(p, deadline, tick + 1) == FireTick(p, deadline, tick) > tick + 1
    ensures Visited(p, tick + 1) && p.wheel == 0 && deadline <= tick + 1 ==> FireTick(p, deadline, tick) == tick + 1
    ensures Visited(p, tick + 1) && !(p.wheel == 0 && deadline <= tick + 1) ==>
              FireTick(p, deadline, tick) == Due(tick + 1, deadline) > tick + 1
  {
    NextVisitIsFirst(p, tick);
    NextVisitIsFirst(p, tick + 1);
    NeverEarly(p, deadline, tick + 1);
    NeverEarly(Place(Delta(deadline, tick + 1)), deadline, tick + 1);
  }

  /** No timer fires before its deadline, nor in the tick of its insertion. */
  lemma {:induction false} NeverEarly(p: Spot, deadline: nat, tick: nat)
    requires IsSpot(p)
    ensures FireTick(p, deadline, tick) >= deadline && FireTick(p, deadline, tick) > tick
    decreases Delta(deadline, tick), p.wheel
  {
    NextVisitIsFirst(p, tick);
    var v := NextVisit(p, tick);
    if !(p.wheel == 0 && deadline <= v) {
      NeverEarly(Place(Delta(deadline, v)), deadline, v);
    }
  }

  // ---------------------------------------------------------------- how late it can be

  function MaxLate(w: nat): nat
    requires w < 4
  {
    if w == 0 then 256
    else if w == 1 then 16384
    else if w == 2 then 1048576 - 16384 + 256
    else 67108864 - 1048576 + 256
  }

  /** A timer whose deadline is past fires within 256 ticks. */
  lemma PastFiresSoon(tick: nat, deadline: nat)
    requires deadline <= tick
    ensures Due(tick, deadline) <= tick + 256
  {
  }

  /** What a turn of wheel `w` and the wait for slot 0 of wheel 0 add up to. */
  lemma TurnIsWithin(delta: nat)
    ensures
      var w := Place(delta).wheel;
      if w == 0 then Span(w) <= MaxLate(w) else Span(w) + 256 <= delta + MaxLate(w)
  {
  }

  lemma LaterIsSmaller(delta: nat, delta': nat)
    requires delta' <= delta
    ensures MaxLate(Place(delta').wheel) <= MaxLate(Place(delta).wheel)
  {
  }

  /** A timer whose deadline is not past when it is inserted into wheel `w` is late by at most `MaxLate(w)`. */
  lemma {:induction false} LatenessIsBounded(tick: nat, deadline: nat)
    requires deadline >= tick
    ensures Due(tick, deadline) <= deadline + MaxLate(Place(deadline - tick).wheel)
    decreases deadline - tick
  {
    var p := Place(deadline - tick);
    var v := NextVisit(p, tick);
    NextVisitIsFirst(p, tick);
    TurnIsWithin(deadline - tick);
    if deadline > v {
      LaterIsSmaller(deadline - tick, deadline - v);
      LatenessIsBounded(v, deadline);
    } else if p.wheel > 0 {
      PastFiresSoon(v, deadline);
    }
  }

  /** Every bound is attained. */
  lemma LatenessIsTight()
    ensures Place(0).wheel == 0 && Due(0, 0) == 0 + MaxLate(0)
    ensures Place(512 - 256).wheel == 1 && Due(256, 512) == 512 + MaxLate(1)
    ensures Place(32768 - 16384).wheel == 2 && Due(16384, 32768) == 32768 + MaxLate(2)
    ensures Place(2097152 - 1048576).wheel == 3 && Due(1048576, 2097152) == 2097152 + MaxLate(3)
  {
  }

  // ---------------------------------------------------------------- when it is on time

  /** The slot chosen by distance is the one the deadline's own tick selects in that wheel. */
  predicate SlotsAgree(tick: nat, deadline: nat) {
    var p := Place(Delta(deadline, tick));
    (deadline / Gran(p.wheel)) % Slots(p.wheel) == p.slot
  }

  lemma QuotientsFrom(g: nat, t: nat, d: nat)
    requires g == 256 || g == 16384 || g == 1048576
    requires t <= d
    ensures t / g + (d - t) / g <= d / g <= t / g + (d - t) / g + 1
  {
  }

  lemma Multiples16384(v: nat)
    requires v % 16384 == 0
    ensures v % 256 == 0 && (v / 256) % 64 == 0
  {
    assert v == 256 * (64 * (v / 16384));
  }

  lemma Multiples1048576(v: nat)
    requires v % 1048576 == 0
    ensures v % 16384 == 0 && (v / 16384) % 64 == 0
  {
    assert v == 16384 * (64 * (v / 1048576));
  }

  lemma Multiples(w: nat, v: nat)
    requires 1 <= w < 4 && v % Gran(w) == 0
    ensures v % 256 == 0
    ensures w >= 2 ==> v % 16384 == 0 && (v / 256) % 64 == 0
    ensures w >= 3 ==> (v / 16384) % 64 == 0
  {
    if w == 2 {
      Multiples16384(v);
    } else if w == 3 {
      Multiples1048576(v);
      Multiples16384(v);
    }
  }

  lemma SameSlot(g: nat, v: nat, d: nat)
    requires g == 256 || g == 16384
    requires v % g == 0 && (v / g) % 64 == 0 && v <= d < v + 64 * g
    ensures (d / g) % 64 == (d - v) / g
  {
  }

  /** From a multiple of the next granularity on, the slots agree. */
  lemma AgreeFromMultiple(w: nat, v: nat, d: nat)
    requires 1 <= w < 4 && v % Gran(w) == 0 && v < d < v + Gran(w)
    ensures SlotsAgree(v, d)
  {
    Multiples(w, v);
    if d - v >= 16384 {
      SameSlot(16384, v, d);
    } else if d - v >= 256 {
      SameSlot(256, v, d);
    }
  }

  function UpTo63(k: nat): nat {
    if k < 63 then k else 63
  }

  lemma InSlots(g: nat, x: nat, d: nat)
    requires g == 256 || g == 16384 || g == 1048576
    ensures x * g <= d <==> x <= d / g
    ensures x * g <= d ==> (d - x * g) / g == d / g - x
    ensures x * g <= d < x * g + g <==> d / g == x
  {
  }

  lemma VisitAt(g: nat, s: nat, t: nat, d: nat, x: nat)
    requires g == 256 || g == 16384 || g == 1048576
    requires d > t && s == UpTo63((d - t) / g) >= 1
    requires t / g < x <= t / g + 64 && x % 64 == s
    ensures (d / g) % 64 == s ==> x * g <= d
    ensures x * g <= d < x * g + g ==> (d / g) % 64 == s
    ensures x * g + g <= d ==> ((d / g) % 64 == s <==> (d / g) % 64 == UpTo63((d - x * g) / g))
  {
    QuotientsFrom(g, t, d);
    InSlots(g, x, d);
    SlotsVisited(s, t / g, x, d / g, (d - t) / g);
  }

  lemma SlotsVisited(s: nat, u: nat, x: nat, a: nat, r: nat)
    requires 1 <= s <= 63 && s == UpTo63(r)
    requires u < x <= u + 64 && x % 64 == s
    requires u + r <= a <= u + r + 1
    ensures a % 64 == s ==> x <= a
    ensures x < a ==> (a % 64 == s <==> a % 64 == UpTo63(a - x))
  {
  }

  lemma PlacedHigher(delta: nat)
    requires Place(delta).wheel >= 1
    ensures Place(delta).slot == UpTo63(delta / Gran(Place(delta).wheel)) >= 1
  {
  }

  lemma StaysInWheel(delta: nat, left: nat)
    requires Place(delta).wheel >= 1 && Gran(Place(delta).wheel) <= left <= delta
    ensures Place(left).wheel == Place(delta).wheel
  {
  }

  /** What a visit of a higher wheel does to the agreement of the slots. */
  lemma HigherVisit(t: nat, d: nat)
    requires d > t && Place(d - t).wheel >= 1
    ensures
      var v := NextVisit(Place(d - t), t);
      && v % 256 == 0
      && (v < d ==> (SlotsAgree(v, d) <==> SlotsAgree(t, d)))
      && (v == d ==> SlotsAgree(t, d))
      && (v > d ==> !SlotsAgree(t, d))
  {
    var p := Place(d - t);
    var w := p.wheel;
    var g, x := Gran(w), Next64(p.slot, t / Gran(w));
    var v := NextVisit(p, t);
    assert v == x * g;
    NextVisitIsFirst(p, t);
    Multiples(w, v);
    PlacedHigher(d - t);
    Next64Is(p.slot, t / g, x);
    VisitAt(g, p.slot, t, d, x);
    if v < d && d - v < g {
      AgreeFromMultiple(w, v, d);
    } else if v < d {
      StaysInWheel(d - t, d - v);
      PlacedHigher(d - v);
    }
  }

  lemma LowestVisit(t: nat, d: nat)
    requires t < d < t + 256
    ensures
      var v := NextVisit(Place(d - t), t);
      && (v < d ==> !SlotsAgree(v, d) && !SlotsAgree(t, d))
      && (v == d ==> SlotsAgree(t, d) && d % 256 != 0)
      && (v > d ==> !SlotsAgree(t, d))
  {
    var s, v := d - t, NextVisit(Place(d - t), t);
    Next256Is(s, t, v);
    Next256Is(s, t, d);
  }

  lemma VisitAgrees(t: nat, d: nat)
    requires d > t
    ensures
      var p := Place(d - t);
      var v := NextVisit(p, t);
      && (v < d ==> (SlotsAgree(v, d) <==> SlotsAgree(t, d)))
      && (v == d ==> SlotsAgree(t, d) && (p.wheel == 0 <==> d % 256 != 0))
      && (v > d ==> !SlotsAgree(t, d))
  {
    if Place(d - t).wheel == 0 {
      LowestVisit(t, d);
    } else {
      HigherVisit(t, d);
    }
  }

  /** A deadline that is now waits for the next visit of slot 0. */
  lemma DueNow(d: nat)
    ensures Due(d, d) > d && (d % 256 == 0 ==> Due(d, d) == d + 256) && (SlotsAgree(d, d) <==> d % 256 == 0)
  {
  }

  lemma DueAtVisit(t: nat, d: nat)
    requires d > t
    ensures
      var p := Place(d - t);
      var v := NextVisit(p, t);
      && v > t && Due(t, d) == if p.wheel == 0 && d <= v then v else Due(v, d)
  {
  }

  /** A timer whose slots agree fires at its deadline, or 256 ticks later if that is a multiple of 256
      (slot 0 of wheel 0 is drained before the cascade of that tick); any other timer is late. */
  lemma {:induction false} FiresWhenDue(t: nat, d: nat)
    requires d >= t
    ensures SlotsAgree(t, d) ==> Due(t, d) == if d % 256 == 0 then d + 256 else d
    ensures !SlotsAgree(t, d) ==> Due(t, d) > d
    decreases d - t
  {
    if d == t {
      DueNow(d);
    } else {
      var v := NextVisit(Place(d - t), t);
      VisitAgrees(t, d);
      DueAtVisit(t, d);
      if v < d {
        FiresWhenDue(v, d);
      } else if v == d {
        DueNow(d);
      } else {
        NeverEarly(Place(Delta(d, v)), d, v);
      }
    }
  }

  /** On time, exactly: the slot chosen by distance is the deadline's own and the deadline is not a multiple of 256. */
  lemma OnTimeIff(t: nat, d: nat)
    ensures Due(t, d) == d <==> SlotsAgree(t, d) && d % 256 != 0
  {
    if d < t {
      NeverEarly(Place(0), d, t);
    } else {
      FiresWhenDue(t, d);
    }
  }

  lemma AgreeFromStart(d: nat)
    requires d < 67108864
    ensures SlotsAgree(0, d)
  {
  }

  /** Timers inserted at tick 0 fire at their deadline, or 256 ticks later for multiples of 256. */
  lemma ExactFromStart(d: nat)
    requires 0 < d < 67108864
    ensures Due(0, d) == if d % 256 == 0 then d + 256 else d
  {
    AgreeFromStart(d);
    FiresWhenDue(0, d);
  }

  // ---------------------------------------------------------------- the wall clock

  /** Instants are counted in whole ticks since the start, rounded down. */
  function Ticks(elapsed: nat, unit: nat): nat
    requires unit > 0
  {
    elapsed / unit
  }

  lemma TicksBelow(elapsed: nat, unit: nat)
    requires unit > 0
    ensures Ticks(elapsed, unit) * unit <= elapsed < Ticks(elapsed, unit) * unit + unit
  {
  }

  lemma ProductsAscend(a: nat, b: nat, c: nat)
    requires a <= b
    ensures a * c <= b * c
  {
  }

  lemma TicksReached(deadline: nat, now: nat, unit: nat)
    requires unit > 0 && Ticks(now, unit) >= Ticks(deadline, unit)
    ensures now + unit > deadline
    ensures deadline == Ticks(deadline, unit) * unit ==> now >= deadline
  {
    TicksBelow(deadline, unit);
    TicksBelow(now, unit);
    ProductsAscend(Ticks(deadline, unit), Ticks(now, unit), unit);
  }

  /** An advance to `now` hands out the timer. */
  predicate FiresBy(tick: nat, deadline: nat, now: nat, unit: nat)
    requires unit > 0
  {
    Ticks(now, unit) >= Due(tick, Ticks(deadline, unit))
  }

  /** On the wall clock a timer fires less than a tick early, and never early if its deadline is a whole tick. */
  lemma NeverEarlyOnTheClock(tick: nat, deadline: nat, now: nat, unit: nat)
    requires unit > 0 && FiresBy(tick, deadline, now, unit)
    ensures now + unit > deadline
    ensures deadline == Ticks(deadline, unit) * unit ==> now >= deadline
  {
    var d := Ticks(deadline, unit);
    NeverEarly(Place(Delta(d, tick)), d, tick);
    TicksReached(deadline, now, unit);
  }

  lemma FactorsBelow(a: nat, b: nat, c: nat)
    requires a * c < b * c
    ensures a < b
  {
    if b <= a {
      ProductsAscend(b, a, c);
    }
  }

  lemma TicksAscend(a: nat, b: nat, unit: nat)
    requires unit > 0 && a <= b
    ensures Ticks(a, unit) <= Ticks(b, unit)
  {
    TicksBelow(a, unit);
    TicksBelow(b, unit);
    FactorsBelow(Ticks(a, unit), Ticks(b, unit) + 1, unit);
  }

  lemma WholeTicks(d: nat, unit: nat)
    requires unit > 0
    ensures Ticks(d * unit, unit) == d
  {
    TicksBelow(d * unit, unit);
    FactorsBelow(Ticks(d * unit, unit), d + 1, unit);
    FactorsBelow(d, Ticks(d * unit, unit) + 1, unit);
  }

  lemma EarlyIsOnTime(tick: nat, deadline: nat, now: nat, unit: nat)
    requires unit > 0 && now < deadline && FiresBy(tick, deadline, now, unit)
    ensures
      var d := Ticks(deadline, unit);
      d * unit < deadline && SlotsAgree(tick, d) && d % 256 != 0
  {
    var d := Ticks(deadline, unit);
    NeverEarly(Place(Delta(d, tick)), d, tick);
    TicksAscend(now, deadline, unit);
    OnTimeIff(tick, d);
    TicksBelow(now, unit);
  }

  lemma OnTimeIsEarly(tick: nat, deadline: nat, unit: nat)
    requires unit > 0 && SlotsAgree(tick, Ticks(deadline, unit)) && Ticks(deadline, unit) % 256 != 0
    ensures FiresBy(tick, deadline, Ticks(deadline, unit) * unit, unit)
  {
    var d := Ticks(deadline, unit);
    OnTimeIff(tick, d);
    WholeTicks(d, unit);
  }

  /** On the wall clock a timer can fire early exactly if its deadline is not a whole tick and its tick is met. */
  lemma EarlyOnTheClockIff(tick: nat, deadline: nat, unit: nat)
    requires unit > 0
    ensures
      var d := Ticks(deadline, unit);
      (exists now: nat :: now < deadline && FiresBy(tick, deadline, now, unit))
      <==> d * unit < deadline && SlotsAgree(tick, d) && d % 256 != 0
  {
    var d := Ticks(deadline, unit);
    if now: nat :| now < deadline && FiresBy(tick, deadline, now, unit) {
      EarlyIsOnTime(tick, deadline, now, unit);
    }
    if d * unit < deadline && SlotsAgree(tick, d) && d % 256 != 0 {
      OnTimeIsEarly(tick, deadline, unit);
    }
  }

  /** With ticks of 10, a timer set at the start for instant 15 fires at instant 10. */
  lemma EarlyExample()
    ensures FiresBy(0, 15, 10, 10)
  {
    ExactFromStart(1);
  }
}
