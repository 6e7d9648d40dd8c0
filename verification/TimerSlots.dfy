/** The contents of the wheels: which entry rests where, and what taking and refilling slots does to it. */
module TimerSlots {
  import opened TimerTicks

  datatype Entry = Entry(id: nat, deadline: nat)

  type Wheels = seq<seq<seq<Entry>>>

  /** Where an entry rests. */
  datatype Rest = Rest(spot: Spot, deadline: nat)

  type Rests = map<nat, Rest>

  /** A live timer, with the tick at which it will fire. */
  datatype Timer = Timer(deadline: nat, due: nat)

  type Timers = map<nat, Timer>

  predicate Shaped(ws: Wheels) {
    |ws| == 4 && forall w | 0 <= w < 4 :: |ws[w]| == Slots(w)
  }

  function SlotAt(ws: Wheels, p: Spot): seq<Entry>
    requires Shaped(ws) && IsSpot(p)
  {
    ws[p.wheel][p.slot]
  }

  function WithSlot(ws: Wheels, p: Spot, es: seq<Entry>): (ws': Wheels)
    requires Shaped(ws) && IsSpot(p)
    ensures Shaped(ws') && SlotAt(ws', p) == es
    ensures forall q {:trigger SlotAt(ws', q)} | IsSpot(q) && q != p :: SlotAt(ws', q) == SlotAt(ws, q)
  {
    ws[p.wheel := ws[p.wheel][p.slot := es]]
  }

  predicate DistinctIds(es: seq<Entry>) {
    forall i, j | 0 <= i < j < |es| :: es[i].id != es[j].id
  }

  /** The slot holds exactly the entries that rest there, each once. */
  predicate SlotHolds(es: seq<Entry>, p: Spot, rest: Rests) {
    && DistinctIds(es)
    && (forall e | e in es :: e.id in rest && rest[e.id] == Rest(p, e.deadline))
    && (forall id | id in rest && rest[id].spot == p :: Entry(id, rest[id].deadline) in es)
  }

  ghost predicate Placed(ws: Wheels, rest: Rests) {
    && Shaped(ws)
    && (forall id {:trigger rest[id].spot} | id in rest :: IsSpot(rest[id].spot))
    && (forall p {:trigger SlotAt(ws, p)} | IsSpot(p) :: SlotHolds(SlotAt(ws, p), p, rest))
  }

  function Ids(es: seq<Entry>): set<nat> {
    set e | e in es :: e.id
  }

  /** Taking a slot takes exactly its entries. */
  lemma Take(ws: Wheels, rest: Rests, p: Spot)
    requires Placed(ws, rest) && IsSpot(p)
    ensures
      var es := SlotAt(ws, p);
      && Placed(WithSlot(ws, p, []), rest - Ids(es))
      && DistinctIds(es)
      && (forall e | e in es :: e.id in rest && rest[e.id] == Rest(p, e.deadline))
      && (forall id | id in rest && rest[id].spot == p :: id in Ids(es))
  {
  }

  /** Pushing an entry that rests nowhere. */
  lemma Push(ws: Wheels, rest: Rests, p: Spot, e: Entry)
    requires Placed(ws, rest) && IsSpot(p) && e.id !in rest
    ensures Placed(WithSlot(ws, p, SlotAt(ws, p) + [e]), rest[e.id := Rest(p, e.deadline)])
  {
  }

  // ---------------------------------------------------------------- times

  /** Entries of the lower three wheels are closer than a turn of their wheel, so they never move up. */
  ghost predicate Fits(rest: Rests, tick: nat) {
    forall id | id in rest :: rest[id].spot.wheel < 3 ==> rest[id].deadline < tick + Span(rest[id].spot.wheel)
  }

  /** Every live timer will fire at its due tick. While tick `t` is being worked off, the wheels from `k` on
      are still in the state of the tick before. */
  ghost predicate Timed(rest: Rests, timers: Timers, t: nat, k: nat) {
    forall id {:trigger TimedAt(rest[id], timers[id], t, k)} | id in timers && id in rest ::
      TimedAt(rest[id], timers[id], t, k)
  }

  ghost predicate TimedAt(r: Rest, timer: Timer, t: nat, k: nat) {
    && timer.deadline == r.deadline
    && IsSpot(r.spot)
    && if r.spot.wheel < k then timer.due == FireTick(r.spot, r.deadline, t)
       else t >= 1 && timer.due == FireTick(r.spot, r.deadline, t - 1)
  }

  lemma PlacedFits(deadline: nat, tick: nat)
    ensures
      var w := Place(Delta(deadline, tick)).wheel;
      w < 3 ==> deadline < tick + Span(w)
  {
  }

  /** An entry of wheel `w` is placed again in wheel `w` or below. */
  lemma NeverUp(deadline: nat, before: nat, tick: nat, w: nat)
    requires w < 4 && before <= tick && (w < 3 ==> deadline < before + Span(w))
    ensures Place(Delta(deadline, tick)).wheel <= w
  {
  }

  /** A new tick: every wheel is still in the state of the one before. */
  lemma TimedTick(rest: Rests, timers: Timers, t: nat)
    requires Timed(rest, timers, t, 4)
    ensures Timed(rest, timers, t + 1, 0)
  {
    forall id | id in timers && id in rest ensures TimedAt(rest[id], timers[id], t + 1, 0) {
      assert TimedAt(rest[id], timers[id], t, 4);
    }
  }

  /** Once its visited slot is taken, a wheel is in the state of tick `t`. */
  lemma TimedTake(rest: Rests, timers: Timers, t: nat, p: Spot)
    requires t >= 1 && IsSpot(p) && Visited(p, t) && Timed(rest, timers, t, p.wheel)
    requires forall id | id in rest :: rest[id].spot != p
    ensures Timed(rest, timers, t, p.wheel + 1)
  {
    forall id | id in timers && id in rest ensures TimedAt(rest[id], timers[id], t, p.wheel + 1) {
      var r := rest[id];
      assert TimedAt(r, timers[id], t, p.wheel);
      if r.spot.wheel == p.wheel {
        FireTickStep(r.spot, r.deadline, t - 1);
      }
    }
  }

  /** Wheels that tick `t` does not reach are in the state of tick `t` anyway. */
  lemma TimedRest(rest: Rests, timers: Timers, t: nat, w: nat)
    requires t >= 1 && w < 4 && Timed(rest, timers, t, w)
    requires t % Gran(w) != 0
    ensures Timed(rest, timers, t, 4)
  {
    forall id | id in timers && id in rest ensures TimedAt(rest[id], timers[id], t, 4) {
      var r := rest[id];
      assert TimedAt(r, timers[id], t, w);
      if r.spot.wheel >= w {
        NotReached(t, w, r.spot.wheel);
        FireTickStep(r.spot, r.deadline, t - 1);
      }
    }
  }

  lemma NotReached(t: nat, w: nat, w': nat)
    requires w <= w' < 4 && t % Gran(w) != 0
    ensures t % Gran(w') != 0
  {
    if w' >= 1 && t % Gran(w') == 0 {
      Multiples(w', t);
    }
  }

  // ---------------------------------------------------------------- a slot in hand

  /** An entry taken from `p` in tick `t` and not yet dealt with. */
  ghost predicate InHand(e: Entry, p: Spot, rest: Rests, timers: Timers, t: nat)
    requires IsSpot(p) && t >= 1
  {
    && e.id !in rest
    && (e.id in timers ==> timers[e.id] == Timer(e.deadline, FireTick(p, e.deadline, t - 1)))
    && (p.wheel < 3 ==> e.deadline < t + Span(p.wheel))
  }

  ghost predicate HandOK(es: seq<Entry>, p: Spot, rest: Rests, timers: Timers, t: nat)
    requires IsSpot(p) && t >= 1
  {
    && DistinctIds(es)
    && (forall e | e in es :: InHand(e, p, rest, timers, t))
    && timers.Keys <= rest.Keys + Ids(es)
  }

  /** Taking the slot that tick `t` visits in wheel `p.wheel`. */
  lemma TakeInHand(ws: Wheels, rest: Rests, timers: Timers, t: nat, p: Spot)
    requires t >= 1 && IsSpot(p) && Visited(p, t)
    requires Placed(ws, rest) && Fits(rest, t) && timers.Keys <= rest.Keys && Timed(rest, timers, t, p.wheel)
    ensures
      var es := SlotAt(ws, p);
      && Placed(WithSlot(ws, p, []), rest - Ids(es))
      && HandOK(es, p, rest - Ids(es), timers, t)
      && Timed(rest - Ids(es), timers, t, p.wheel + 1)
  {
    var es := SlotAt(ws, p);
    Take(ws, rest, p);
    forall e | e in es ensures InHand(e, p, rest - Ids(es), timers, t) {
      assert e.id in Ids(es);
      if e.id in timers {
        assert TimedAt(rest[e.id], timers[e.id], t, p.wheel);
      }
    }
    TimedTake(rest - Ids(es), timers, t, p);
  }

  lemma IdsSplit(es: seq<Entry>)
    requires es != [] && DistinctIds(es)
    ensures Ids(es) == {es[0].id} + Ids(es[1..]) && es[0].id !in Ids(es[1..]) && DistinctIds(es[1..])
  {
  }

  /** The first entry in hand is dealt with: dropped, fired or put back. */
  lemma HandStep(es: seq<Entry>, p: Spot, rest: Rests, timers: Timers, t: nat, rest': Rests, timers': Timers)
    requires IsSpot(p) && t >= 1 && es != [] && HandOK(es, p, rest, timers, t)
    requires timers' == timers || timers' == timers - {es[0].id}
    requires rest' == rest || rest'.Keys == rest.Keys + {es[0].id}
    requires es[0].id in timers' ==> es[0].id in rest'
    ensures HandOK(es[1..], p, rest', timers', t)
  {
    IdsSplit(es);
    forall e | e in es[1..] ensures InHand(e, p, rest', timers', t) {
      assert e in es && InHand(e, p, rest, timers, t);
      assert e.id in Ids(es[1..]);
    }
  }

  /** What the visit does to the entry at hand. */
  lemma HandFirst(slot: seq<Entry>, i: nat, p: Spot, rest: Rests, timers: Timers, t: nat)
    requires IsSpot(p) && t >= 1 && Visited(p, t) && i < |slot| && HandOK(slot[i..], p, rest, timers, t)
    ensures
      var e := slot[i];
      && slot[i..][0] == e && slot[i..][1..] == slot[i + 1..]
      && e.id !in rest
      && Place(Delta(e.deadline, t)).wheel <= p.wheel
      && (e.id in timers ==>
            timers[e.id] == Timer(e.deadline, if p.wheel == 0 && e.deadline <= t then t else Due(t, e.deadline)))
  {
    var e := slot[i];
    assert e == slot[i..][0] && e in slot[i..];
    assert InHand(e, p, rest, timers, t);
    NeverUp(e.deadline, t, t, p.wheel);
    FireTickStep(p, e.deadline, t - 1);
  }

  /** A cascade goes on exactly when the tick reaches the next wheel. */
  lemma NextReached(t: nat, w: nat)
    requires 1 <= w < 3 && t % Gran(w) == 0
    ensures (t / Gran(w)) % 64 == 0 <==> t % Gran(w + 1) == 0
  {
    var k := t / Gran(w);
    if w == 1 {
      Reached256(k);
    } else {
      Reached16384(k);
    }
  }

  lemma Reached256(k: nat)
    ensures k % 64 == 0 <==> (256 * k) % 16384 == 0
  {
    if k % 64 == 0 {
      assert 256 * k == 16384 * (k / 64);
    }
    if (256 * k) % 16384 == 0 {
      assert k == 64 * ((256 * k) / 16384);
    }
  }

  lemma Reached16384(k: nat)
    ensures k % 64 == 0 <==> (16384 * k) % 1048576 == 0
  {
    if k % 64 == 0 {
      assert 16384 * k == 1048576 * (k / 64);
    }
    if (16384 * k) % 1048576 == 0 {
      assert k == 64 * ((16384 * k) / 1048576);
    }
  }
}
