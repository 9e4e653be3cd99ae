/** A day of calls taken one at a time: the call's own pool, then overflow, then refusal. */
module Refusals {
  import opened Common
  import opened DidRing
  import opened Projection

  datatype Pool = Pool(npa: Npa, dids: seq<Did>)

  datatype Fleet = Fleet(pools: seq<Pool>, overflow: seq<Did>)

  datatype PoolKey = Area(npa: Npa) | OverflowPool

  /** What the dialplan keeps between calls: one rotor per pool and one daily counter per number. */
  datatype Box = Box(rotors: map<PoolKey, nat>, counts: map<Did, nat>)

  datatype Outcome = NpaMatch(did: Did) | FromOverflow(did: Did) | Refused

  predicate OnePoolPerNpa(pools: seq<Pool>) {
    forall i, j :: 0 <= i < j < |pools| ==> pools[i].npa != pools[j].npa
  }

  function PoolOf(pools: seq<Pool>, npa: Npa): seq<Did> {
    if pools == [] then []
    else if pools[|pools| - 1].npa == npa then pools[|pools| - 1].dids
    else PoolOf(pools[..|pools| - 1], npa)
  }

  function PoolDids(pools: seq<Pool>): seq<Did> {
    if pools == [] then [] else PoolDids(pools[..|pools| - 1]) + pools[|pools| - 1].dids
  }

  function AllDids(fleet: Fleet): seq<Did> {
    PoolDids(fleet.pools) + fleet.overflow
  }

  function Sizes(fleet: Fleet): map<Npa, int> {
    map npa | npa in (set p | p in fleet.pools :: p.npa) :: |PoolOf(fleet.pools, npa)|
  }

  /** No number serves two pools, or one pool twice. */
  ghost predicate Unshared(fleet: Fleet) {
    forall d :: multiset(AllDids(fleet))[d] <= 1
  }

  function PickPool(box: Box, key: PoolKey, dids: seq<Did>, cap: nat): (Option<Did>, Box) {
    if |dids| < 1 then (None, box)
    else
      var rot := (if key in box.rotors then box.rotors[key] else 0) + 1;
      var r := PickFrom(dids, rot, 0, cap, box.counts);
      (r, Box(box.rotors[key := rot], if r.Some? then Raise(box.counts, r.value) else box.counts))
  }

  function Place(fleet: Fleet, box: Box, npa: Npa, cap: nat): (Outcome, Box) {
    var (own, first) := PickPool(box, Area(npa), PoolOf(fleet.pools, npa), cap);
    if own.Some? then (NpaMatch(own.value), first)
    else
      var (spare, second) := PickPool(first, OverflowPool, fleet.overflow, cap);
      (if spare.Some? then FromOverflow(spare.value) else Refused, second)
  }

  datatype DayLog = DayLog(box: Box, outcomes: seq<Outcome>)

  /** The calls of one day in order, counters fresh and rotors anywhere. */
  function PlaceAll(fleet: Fleet, rotors: map<PoolKey, nat>, calls: seq<Npa>, cap: nat): (log: DayLog)
    ensures |log.outcomes| == |calls|
    decreases |calls|
  {
    if calls == [] then DayLog(Box(rotors, map[]), [])
    else
      var before := PlaceAll(fleet, rotors, calls[..|calls| - 1], cap);
      var (outcome, box) := Place(fleet, before.box, calls[|calls| - 1], cap);
      DayLog(box, before.outcomes + [outcome])
  }

  function RefusedCalls(outcomes: seq<Outcome>): nat {
    if outcomes == [] then 0
    else RefusedCalls(outcomes[..|outcomes| - 1]) + if outcomes[|outcomes| - 1].Refused? then 1 else 0
  }

  function Count(calls: seq<Npa>, npa: Npa): nat {
    if calls == [] then 0 else Count(calls[..|calls| - 1], npa) + if calls[|calls| - 1] == npa then 1 else 0
  }

  /** The day's rows of `demand` are the totals of exactly these calls. */
  ghost predicate TotalsOf(demand: seq<NpaDemand>, day: Day, calls: seq<Npa>) {
    && DistinctNpas(demand)
    && (forall i :: 0 <= i < |demand| ==> On(demand[i], day) == Count(calls, demand[i].npa))
    && (forall c :: c in calls ==> exists i :: 0 <= i < |demand| && demand[i].npa == c)
  }

  // ---- Sums over counters ----

  function SumUsed(dids: seq<Did>, counts: map<Did, nat>): nat {
    if dids == [] then 0 else SumUsed(dids[..|dids| - 1], counts) + Used(counts, dids[|dids| - 1])
  }

  lemma {:induction false} SumAfterRaise(dids: seq<Did>, counts: map<Did, nat>, d: Did)
    ensures SumUsed(dids, Raise(counts, d)) == SumUsed(dids, counts) + multiset(dids)[d]
    decreases |dids|
  {
    if dids != [] {
      var front, last := dids[..|dids| - 1], dids[|dids| - 1];
      SumAfterRaise(front, counts, d);
      assert dids == front + [last];
    }
  }

  ghost predicate WithinCap(counts: map<Did, nat>, cap: nat) {
    forall d :: Used(counts, d) <= cap
  }

  lemma {:induction false} SumBounds(dids: seq<Did>, counts: map<Did, nat>, cap: nat)
    ensures WithinCap(counts, cap) ==> SumUsed(dids, counts) <= |dids| * cap
    ensures AllCapped(dids, counts, cap) ==> SumUsed(dids, counts) >= |dids| * cap
    decreases |dids|
  {
    if dids != [] {
      SumBounds(dids[..|dids| - 1], counts, cap);
      assert |dids| * cap == |dids[..|dids| - 1]| * cap + cap;
      assert AllCapped(dids, counts, cap) ==> Used(counts, dids[|dids| - 1]) >= cap;
    }
  }

  // ---- What is true of any fleet after any calls ----

  function Matches(calls: seq<Npa>, outcomes: seq<Outcome>, npa: Npa): nat
    requires |calls| == |outcomes|
  {
    if calls == [] then 0
    else
      Matches(calls[..|calls| - 1], outcomes[..|outcomes| - 1], npa)
      + if calls[|calls| - 1] == npa && outcomes[|outcomes| - 1].NpaMatch? then 1 else 0
  }

  function Spilled(outcomes: seq<Outcome>): nat {
    if outcomes == [] then 0
    else Spilled(outcomes[..|outcomes| - 1]) + if outcomes[|outcomes| - 1].FromOverflow? then 1 else 0
  }

  ghost predicate AllCapped(dids: seq<Did>, counts: map<Did, nat>, cap: nat) {
    forall d :: d in dids ==> Used(counts, d) >= cap
  }

  /** What one pick does to the counters, whichever pool it draws from. */
  lemma PickEffect(box: Box, key: PoolKey, dids: seq<Did>, cap: nat)
    requires WithinCap(box.counts, cap)
    ensures var (r, after) := PickPool(box, key, dids, cap);
            && WithinCap(after.counts, cap)
            && (r.None? ==> AllCapped(dids, box.counts, cap) && after.counts == box.counts)
            && (r.Some? ==>
                  r.value in dids && Used(box.counts, r.value) < cap && after.counts == Raise(box.counts, r.value))
            && (forall d :: Used(after.counts, d) >= Used(box.counts, d))
  {
    if |dids| >= 1 {
      var rot := (if key in box.rotors then box.rotors[key] else 0) + 1;
      EmptyIffAllCapped(dids, rot, cap, box.counts);
    }
  }

  /** Facts kept call by call for one destination NPA. */
  ghost predicate AreaAccounted(fleet: Fleet, calls: seq<Npa>, log: DayLog, npa: Npa, cap: nat)
    requires |calls| == |log.outcomes|
  {
    var own := PoolOf(fleet.pools, npa);
    && Matches(calls, log.outcomes, npa) <= Count(calls, npa)
    && Matches(calls, log.outcomes, npa) <= SumUsed(own, log.box.counts)
    && (Count(calls, npa) > Matches(calls, log.outcomes, npa) ==> AllCapped(own, log.box.counts, cap))
    && (Unshared(fleet) ==> Matches(calls, log.outcomes, npa) == SumUsed(own, log.box.counts))
  }

  /** Facts kept call by call for the overflow pool. */
  ghost predicate OverflowAccounted(fleet: Fleet, log: DayLog, cap: nat) {
    && Spilled(log.outcomes) <= SumUsed(fleet.overflow, log.box.counts)
    && (RefusedCalls(log.outcomes) > 0 ==> AllCapped(fleet.overflow, log.box.counts, cap))
    && (Unshared(fleet) ==> Spilled(log.outcomes) == SumUsed(fleet.overflow, log.box.counts))
  }

  lemma {:induction false} PoolWithin(pools: seq<Pool>, npa: Npa)
    ensures multiset(PoolOf(pools, npa)) <= multiset(PoolDids(pools))
    decreases |pools|
  {
    if pools != [] {
      PoolWithin(pools[..|pools| - 1], npa);
    }
  }

  lemma {:induction false} TwoPoolsWithin(pools: seq<Pool>, x: Npa, y: Npa)
    requires OnePoolPerNpa(pools) && x != y
    ensures multiset(PoolOf(pools, x)) + multiset(PoolOf(pools, y)) <= multiset(PoolDids(pools))
    decreases |pools|
  {
    if pools != [] {
      TwoPoolsWithin(pools[..|pools| - 1], x, y);
      PoolWithin(pools[..|pools| - 1], x);
      PoolWithin(pools[..|pools| - 1], y);
    }
  }

  /** In an unshared fleet a number drawn from one pool is counted in that pool alone. */
  lemma DrawnOnce(fleet: Fleet, x: Npa, d: Did)
    requires Unshared(fleet) && OnePoolPerNpa(fleet.pools)
    ensures d in PoolOf(fleet.pools, x) ==>
              multiset(PoolOf(fleet.pools, x))[d] == 1 && multiset(fleet.overflow)[d] == 0
              && forall y :: y != x ==> multiset(PoolOf(fleet.pools, y))[d] == 0
    ensures d in fleet.overflow ==> multiset(fleet.overflow)[d] == 1 && multiset(PoolOf(fleet.pools, x))[d] == 0
  {
    var all := multiset(AllDids(fleet));
    assert all == multiset(PoolDids(fleet.pools)) + multiset(fleet.overflow);
    assert all[d] <= 1;
    PoolWithin(fleet.pools, x);
    if d in PoolOf(fleet.pools, x) {
      assert multiset(PoolOf(fleet.pools, x))[d] >= 1;
      forall y | y != x ensures multiset(PoolOf(fleet.pools, y))[d] == 0 {
        TwoPoolsWithin(fleet.pools, x, y);
      }
    }
  }

  /** Every area and overflow accounted for. */
  ghost predicate DayAccounted(fleet: Fleet, calls: seq<Npa>, log: DayLog, cap: nat) {
    && |calls| == |log.outcomes|
    && (forall x :: AreaAccounted(fleet, calls, log, x, cap))
    && OverflowAccounted(fleet, log, cap)
  }

  /** The state between calls: accounted for, and every counter within the cap. */
  ghost predicate DayOk(fleet: Fleet, calls: seq<Npa>, log: DayLog, cap: nat) {
    DayAccounted(fleet, calls, log, cap) && WithinCap(log.box.counts, cap)
  }

  lemma OwnPoolServes(fleet: Fleet, calls: seq<Npa>, log: DayLog, cap: nat, npa: Npa, d: Did, box: Box)
    requires OnePoolPerNpa(fleet.pools) && DayOk(fleet, calls, log, cap)
    requires d in PoolOf(fleet.pools, npa) && Used(log.box.counts, d) < cap && box.counts == Raise(log.box.counts, d)
    ensures DayOk(fleet, calls + [npa], DayLog(box, log.outcomes + [NpaMatch(d)]), cap)
  {
    var log' := DayLog(box, log.outcomes + [NpaMatch(d)]);
    var calls' := calls + [npa];
    assert calls'[..|calls|] == calls && log'.outcomes[..|calls|] == log.outcomes;
    if Unshared(fleet) {
      DrawnOnce(fleet, npa, d);
    }
    SumAfterRaise(fleet.overflow, log.box.counts, d);
    forall x ensures AreaAccounted(fleet, calls', log', x, cap) {
      assert AreaAccounted(fleet, calls, log, x, cap);
      SumAfterRaise(PoolOf(fleet.pools, x), log.box.counts, d);
    }
  }

  lemma OverflowServes(fleet: Fleet, calls: seq<Npa>, log: DayLog, cap: nat, npa: Npa, d: Did, box: Box)
    requires OnePoolPerNpa(fleet.pools) && DayOk(fleet, calls, log, cap)
    requires AllCapped(PoolOf(fleet.pools, npa), log.box.counts, cap)
    requires d in fleet.overflow && Used(log.box.counts, d) < cap && box.counts == Raise(log.box.counts, d)
    ensures DayOk(fleet, calls + [npa], DayLog(box, log.outcomes + [FromOverflow(d)]), cap)
  {
    var log' := DayLog(box, log.outcomes + [FromOverflow(d)]);
    var calls' := calls + [npa];
    assert calls'[..|calls|] == calls && log'.outcomes[..|calls|] == log.outcomes;
    SumAfterRaise(fleet.overflow, log.box.counts, d);
    if Unshared(fleet) {
      DrawnOnce(fleet, npa, d);
    }
    forall x ensures AreaAccounted(fleet, calls', log', x, cap) {
      assert AreaAccounted(fleet, calls, log, x, cap);
      if Unshared(fleet) {
        DrawnOnce(fleet, x, d);
      }
      SumAfterRaise(PoolOf(fleet.pools, x), log.box.counts, d);
    }
  }

  lemma NothingServes(fleet: Fleet, calls: seq<Npa>, log: DayLog, cap: nat, npa: Npa, box: Box)
    requires DayOk(fleet, calls, log, cap) && box.counts == log.box.counts
    requires AllCapped(PoolOf(fleet.pools, npa), log.box.counts, cap) && AllCapped(fleet.overflow, log.box.counts, cap)
    ensures DayOk(fleet, calls + [npa], DayLog(box, log.outcomes + [Refused]), cap)
  {
    var log' := DayLog(box, log.outcomes + [Refused]);
    var calls' := calls + [npa];
    assert calls'[..|calls|] == calls && log'.outcomes[..|calls|] == log.outcomes;
    forall x ensures AreaAccounted(fleet, calls', log', x, cap) {
      assert AreaAccounted(fleet, calls, log, x, cap);
    }
  }

  lemma {:induction false} EveryDayOk(fleet: Fleet, rotors: map<PoolKey, nat>, calls: seq<Npa>, cap: nat)
    requires OnePoolPerNpa(fleet.pools)
    ensures DayOk(fleet, calls, PlaceAll(fleet, rotors, calls, cap), cap)
    decreases |calls|
  {
    if calls == [] {
      FreshCounters(fleet, rotors, cap);
    } else {
      var front, npa := calls[..|calls| - 1], calls[|calls| - 1];
      EveryDayOk(fleet, rotors, front, cap);
      var log := PlaceAll(fleet, rotors, front, cap);
      var own, spare := PoolOf(fleet.pools, npa), fleet.overflow;
      PickEffect(log.box, Area(npa), own, cap);
      var (r, first) := PickPool(log.box, Area(npa), own, cap);
      assert front + [npa] == calls;
      if r.Some? {
        OwnPoolServes(fleet, front, log, cap, npa, r.value, first);
      } else {
        PickEffect(first, OverflowPool, spare, cap);
        var (q, second) := PickPool(first, OverflowPool, spare, cap);
        if q.Some? {
          OverflowServes(fleet, front, log, cap, npa, q.value, second);
        } else {
          NothingServes(fleet, front, log, cap, npa, second);
        }
      }
    }
  }

  lemma {:induction false} FreshSum(dids: seq<Did>)
    ensures SumUsed(dids, map[]) == 0
    decreases |dids|
  {
    if dids != [] {
      FreshSum(dids[..|dids| - 1]);
    }
  }

  lemma FreshCounters(fleet: Fleet, rotors: map<PoolKey, nat>, cap: nat)
    ensures DayOk(fleet, [], DayLog(Box(rotors, map[]), []), cap)
  {
    FreshSum(fleet.overflow);
    forall x ensures AreaAccounted(fleet, [], DayLog(Box(rotors, map[]), []), x, cap) {
      FreshSum(PoolOf(fleet.pools, x));
    }
  }

  // ---- From calls to daily totals ----

  /** Calls, summed over the rows, that their own pool did not serve. */
  function Missed(demand: seq<NpaDemand>, calls: seq<Npa>, outcomes: seq<Outcome>): int
    requires |calls| == |outcomes|
    decreases |demand|
  {
    if demand == [] then 0
    else
      var npa := demand[|demand| - 1].npa;
      Missed(demand[..|demand| - 1], calls, outcomes) + Count(calls, npa) - Matches(calls, outcomes, npa)
  }

  function RowsFor(demand: seq<NpaDemand>, npa: Npa): nat {
    if demand == [] then 0 else RowsFor(demand[..|demand| - 1], npa) + if demand[|demand| - 1].npa == npa then 1 else 0
  }

  lemma {:induction false} OneRow(demand: seq<NpaDemand>, npa: Npa)
    requires DistinctNpas(demand)
    ensures RowsFor(demand, npa) == if exists i :: 0 <= i < |demand| && demand[i].npa == npa then 1 else 0
    decreases |demand|
  {
    if demand != [] {
      var front := demand[..|demand| - 1];
      OneRow(front, npa);
      if exists i :: 0 <= i < |front| && front[i].npa == npa {
        var i :| 0 <= i < |front| && front[i].npa == npa;
        assert demand[i].npa == npa;
      }
      if demand[|demand| - 1].npa != npa && exists i :: 0 <= i < |demand| && demand[i].npa == npa {
        var i :| 0 <= i < |demand| && demand[i].npa == npa;
        assert front[i].npa == npa;
      }
    }
  }

  lemma {:induction false} MissedStep(demand: seq<NpaDemand>, calls: seq<Npa>, outcomes: seq<Outcome>)
    requires |calls| == |outcomes| > 0
    ensures var n := |calls| - 1;
            Missed(demand, calls, outcomes) == Missed(demand, calls[..n], outcomes[..n])
                                               + if outcomes[n].NpaMatch? then 0 else RowsFor(demand, calls[n])
    decreases |demand|
  {
    if demand != [] {
      MissedStep(demand[..|demand| - 1], calls, outcomes);
    }
  }

  lemma {:induction false} MissedIsSpilledOrRefused(demand: seq<NpaDemand>, calls: seq<Npa>, outcomes: seq<Outcome>)
    requires |calls| == |outcomes| && DistinctNpas(demand)
    requires forall c :: c in calls ==> exists i :: 0 <= i < |demand| && demand[i].npa == c
    ensures Missed(demand, calls, outcomes) == Spilled(outcomes) + RefusedCalls(outcomes)
    decreases |calls|
  {
    if calls == [] {
      NothingMissed(demand);
    } else {
      var n := |calls| - 1;
      assert forall c :: c in calls[..n] ==> c in calls;
      MissedIsSpilledOrRefused(demand, calls[..n], outcomes[..n]);
      MissedStep(demand, calls, outcomes);
      assert calls[n] in calls;
      OneRow(demand, calls[n]);
    }
  }

  lemma {:induction false} NothingMissed(demand: seq<NpaDemand>)
    ensures Missed(demand, [], []) == 0
    decreases |demand|
  {
    if demand != [] {
      NothingMissed(demand[..|demand| - 1]);
    }
  }

  lemma {:induction false} NpaHasPool(pools: seq<Pool>, npa: Npa)
    ensures npa !in (set p | p in pools :: p.npa) ==> PoolOf(pools, npa) == []
    decreases |pools|
  {
    if pools != [] {
      NpaHasPool(pools[..|pools| - 1], npa);
      assert pools[|pools| - 1] in pools;
      assert forall p :: p in pools[..|pools| - 1] ==> p in pools;
    }
  }

  lemma SizeIsPoolLength(fleet: Fleet, npa: Npa)
    ensures Size(Sizes(fleet), npa) == |PoolOf(fleet.pools, npa)|
  {
    NpaHasPool(fleet.pools, npa);
  }

  /** Row by row, the excess is at most what the area's own pool missed, and at least that when no number is shared. */
  lemma {:induction false} SpillBoundsMissed(fleet: Fleet, demand: seq<NpaDemand>, day: Day, calls: seq<Npa>,
                                             log: DayLog, cap: nat)
    requires DayAccounted(fleet, calls, log, cap)
    requires forall i :: 0 <= i < |demand| ==> On(demand[i], day) == Count(calls, demand[i].npa)
    ensures WithinCap(log.box.counts, cap) ==>
              Spill(demand, day, Sizes(fleet), cap) <= Missed(demand, calls, log.outcomes)
    ensures Unshared(fleet) ==> Missed(demand, calls, log.outcomes) <= Spill(demand, day, Sizes(fleet), cap)
    decreases |demand|
  {
    if demand != [] {
      var front, row := demand[..|demand| - 1], demand[|demand| - 1];
      SpillBoundsMissed(fleet, front, day, calls, log, cap);
      assert AreaAccounted(fleet, calls, log, row.npa, cap);
      SizeIsPoolLength(fleet, row.npa);
      SumBounds(PoolOf(fleet.pools, row.npa), log.box.counts, cap);
    }
  }

  /**
   However a day came about: within the cap it refuses at least the projected calls, and at most those when
   no number is shared.
   */
  lemma AccountedIsProjected(fleet: Fleet, demand: seq<NpaDemand>, day: Day, calls: seq<Npa>, log: DayLog, cap: nat)
    requires DayAccounted(fleet, calls, log, cap) && TotalsOf(demand, day, calls)
    ensures WithinCap(log.box.counts, cap) ==>
              RefusedCalls(log.outcomes) >= Projected(demand, day, Sizes(fleet), |fleet.overflow|, cap)
    ensures Unshared(fleet) ==>
              RefusedCalls(log.outcomes) <= Projected(demand, day, Sizes(fleet), |fleet.overflow|, cap)
  {
    SpillBoundsMissed(fleet, demand, day, calls, log, cap);
    MissedIsSpilledOrRefused(demand, calls, log.outcomes);
    SumBounds(fleet.overflow, log.box.counts, cap);
  }

  /** A pool has given out more than its numbers at the cap. */
  ghost predicate Overdrawn(dids: seq<Did>, counts: map<Did, nat>, cap: nat) {
    SumUsed(dids, counts) > |dids| * cap
  }

  ghost predicate SomeAreaOverdrawn(fleet: Fleet, demand: seq<NpaDemand>, counts: map<Did, nat>, cap: nat) {
    exists i :: 0 <= i < |demand| && Overdrawn(PoolOf(fleet.pools, demand[i].npa), counts, cap)
  }

  /** One area misses as many calls as its excess, or fewer exactly if its pool was overdrawn. */
  lemma AreaMissesItsExcess(fleet: Fleet, row: NpaDemand, day: Day, calls: seq<Npa>, log: DayLog, cap: nat)
    requires |calls| == |log.outcomes| && AreaAccounted(fleet, calls, log, row.npa, cap) && Unshared(fleet)
    requires On(row, day) == Count(calls, row.npa)
    ensures var missed := Count(calls, row.npa) - Matches(calls, log.outcomes, row.npa);
            && missed <= Excess(row, day, Sizes(fleet), cap)
            && (missed < Excess(row, day, Sizes(fleet), cap)
                <==> Overdrawn(PoolOf(fleet.pools, row.npa), log.box.counts, cap))
  {
    SizeIsPoolLength(fleet, row.npa);
    SumBounds(PoolOf(fleet.pools, row.npa), log.box.counts, cap);
  }

  lemma OverdrawnGrows(fleet: Fleet, front: seq<NpaDemand>, row: NpaDemand, counts: map<Did, nat>, cap: nat)
    ensures SomeAreaOverdrawn(fleet, front + [row], counts, cap)
            <==> SomeAreaOverdrawn(fleet, front, counts, cap) || Overdrawn(PoolOf(fleet.pools, row.npa), counts, cap)
  {
    var rows := front + [row];
    assert rows[|front|] == row;
    assert forall i :: 0 <= i < |front| ==> rows[i] == front[i];
  }

  lemma {:induction false} AreasMissTheSpill(fleet: Fleet, demand: seq<NpaDemand>, day: Day, calls: seq<Npa>,
                                             log: DayLog, cap: nat)
    requires DayAccounted(fleet, calls, log, cap) && Unshared(fleet)
    requires forall i :: 0 <= i < |demand| ==> On(demand[i], day) == Count(calls, demand[i].npa)
    ensures Missed(demand, calls, log.outcomes) <= Spill(demand, day, Sizes(fleet), cap)
    ensures Missed(demand, calls, log.outcomes) < Spill(demand, day, Sizes(fleet), cap)
            <==> SomeAreaOverdrawn(fleet, demand, log.box.counts, cap)
    decreases |demand|
  {
    if demand != [] {
      var front, row := demand[..|demand| - 1], demand[|demand| - 1];
      AreasMissTheSpill(fleet, front, day, calls, log, cap);
      assert AreaAccounted(fleet, calls, log, row.npa, cap);
      AreaMissesItsExcess(fleet, row, day, calls, log, cap);
      OverdrawnGrows(fleet, front, row, log.box.counts, cap);
      assert demand == front + [row];
    }
  }

  /**
   However an unshared fleet's day came about, its refusals are the projection if and only if none is projected
   or no pool, overflow's or an area's with calls, gave out more than its numbers at the cap.
   */
  lemma ProjectedIffNotOverdrawn(fleet: Fleet, demand: seq<NpaDemand>, day: Day, calls: seq<Npa>, log: DayLog, cap: nat)
    requires DayAccounted(fleet, calls, log, cap) && TotalsOf(demand, day, calls) && Unshared(fleet)
    ensures var projected := Projected(demand, day, Sizes(fleet), |fleet.overflow|, cap);
            RefusedCalls(log.outcomes) == projected
            <==> projected == 0 || !(SomeAreaOverdrawn(fleet, demand, log.box.counts, cap)
                                     || Overdrawn(fleet.overflow, log.box.counts, cap))
  {
    AreasMissTheSpill(fleet, demand, day, calls, log, cap);
    MissedIsSpilledOrRefused(demand, calls, log.outcomes);
    SumBounds(fleet.overflow, log.box.counts, cap);
  }

  /** Whatever the fleet, at least the projected number of calls is refused. */
  lemma ProjectionIsAFloor(fleet: Fleet, rotors: map<PoolKey, nat>, demand: seq<NpaDemand>, day: Day, calls: seq<Npa>,
                           cap: nat)
    requires OnePoolPerNpa(fleet.pools) && TotalsOf(demand, day, calls)
    ensures RefusedCalls(PlaceAll(fleet, rotors, calls, cap).outcomes)
            >= Projected(demand, day, Sizes(fleet), |fleet.overflow|, cap)
  {
    EveryDayOk(fleet, rotors, calls, cap);
    AccountedIsProjected(fleet, demand, day, calls, PlaceAll(fleet, rotors, calls, cap), cap);
  }

  /** With no shared number the projection is exact, in every order of the day's calls and from any rotors. */
  lemma ProjectionIsExact(fleet: Fleet, rotors: map<PoolKey, nat>, demand: seq<NpaDemand>, day: Day, calls: seq<Npa>,
                          cap: nat)
    requires OnePoolPerNpa(fleet.pools) && TotalsOf(demand, day, calls) && Unshared(fleet)
    ensures RefusedCalls(PlaceAll(fleet, rotors, calls, cap).outcomes)
            == Projected(demand, day, Sizes(fleet), |fleet.overflow|, cap)
  {
    EveryDayOk(fleet, rotors, calls, cap);
    AccountedIsProjected(fleet, demand, day, calls, PlaceAll(fleet, rotors, calls, cap), cap);
  }

  // ---- A shared number makes some day's projection wrong ----

  function Members(dids: seq<Did>): seq<Did> {
    if dids == [] then []
    else
      var front := Members(dids[..|dids| - 1]);
      if dids[|dids| - 1] in front then front else front + [dids[|dids| - 1]]
  }

  lemma {:induction false} MembersOnce(dids: seq<Did>)
    ensures forall d :: d in dids ==> multiset(Members(dids))[d] == 1
    ensures forall d :: d in Members(dids) ==> d in dids
    ensures |Members(dids)| <= |dids|
    ensures (exists d :: multiset(dids)[d] > 1) ==> |Members(dids)| < |dids|
    decreases |dids|
  {
    if dids != [] {
      var front, last := dids[..|dids| - 1], dids[|dids| - 1];
      MembersOnce(front);
      assert dids == front + [last];
      if d :| multiset(dids)[d] > 1 && last !in Members(front) {
        assert last !in front;
        assert multiset(front)[d] > 1;
      }
    }
  }

  lemma ServedByPool(box: Box, key: PoolKey, dids: seq<Did>, members: seq<Did>, cap: nat)
    requires WithinCap(box.counts, cap) && forall d :: d in dids ==> multiset(members)[d] == 1
    ensures var (r, after) := PickPool(box, key, dids, cap);
            && WithinCap(after.counts, cap)
            && SumUsed(members, after.counts) == SumUsed(members, box.counts) + if r.Some? then 1 else 0
  {
    PickEffect(box, key, dids, cap);
    var (r, after) := PickPool(box, key, dids, cap);
    if r.Some? {
      SumAfterRaise(members, box.counts, r.value);
    }
  }

  lemma ServedByPlace(fleet: Fleet, box: Box, npa: Npa, cap: nat)
    requires WithinCap(box.counts, cap)
    ensures var (o, after) := Place(fleet, box, npa, cap);
            var members := Members(AllDids(fleet));
            SumUsed(members, after.counts) == SumUsed(members, box.counts) + if o.Refused? then 0 else 1
  {
    var members := Members(AllDids(fleet));
    MembersOnce(AllDids(fleet));
    PoolWithin(fleet.pools, npa);
    forall d | d in PoolOf(fleet.pools, npa) ensures multiset(members)[d] == 1 {
      assert d in multiset(PoolOf(fleet.pools, npa));
    }
    ServedByPool(box, Area(npa), PoolOf(fleet.pools, npa), members, cap);
    var (r, first) := PickPool(box, Area(npa), PoolOf(fleet.pools, npa), cap);
    ServedByPool(first, OverflowPool, fleet.overflow, members, cap);
  }

  /** Every served call is one more on exactly one member's counter. */
  lemma {:induction false} ServedAreCounted(fleet: Fleet, rotors: map<PoolKey, nat>, calls: seq<Npa>, cap: nat)
    requires OnePoolPerNpa(fleet.pools)
    ensures var log := PlaceAll(fleet, rotors, calls, cap);
            SumUsed(Members(AllDids(fleet)), log.box.counts) + RefusedCalls(log.outcomes) == |calls|
    decreases |calls|
  {
    if calls == [] {
      FreshSum(Members(AllDids(fleet)));
    } else {
      var front, npa := calls[..|calls| - 1], calls[|calls| - 1];
      ServedAreCounted(fleet, rotors, front, cap);
      EveryDayOk(fleet, rotors, front, cap);
      ServedByPlace(fleet, PlaceAll(fleet, rotors, front, cap).box, npa, cap);
    }
  }

  /** Every area's pool asked for exactly what its numbers could carry unshared. */
  function FullLoad(pools: seq<Pool>, cap: nat): seq<Npa> {
    if pools == [] then []
    else FullLoad(pools[..|pools| - 1], cap) + Repeat(pools[|pools| - 1].npa, |pools[|pools| - 1].dids| * cap)
  }

  lemma {:induction false} CountJoins(a: seq<Npa>, b: seq<Npa>, npa: Npa)
    ensures Count(a + b, npa) == Count(a, npa) + Count(b, npa)
    decreases |b|
  {
    if b == [] {
      assert a + b == a;
    } else {
      CountJoins(a, b[..|b| - 1], npa);
      assert (a + b)[..|a + b| - 1] == a + b[..|b| - 1];
    }
  }

  lemma {:induction false} CountRepeats(calls: seq<Npa>, npa: Npa, x: Npa)
    requires forall i :: 0 <= i < |calls| ==> calls[i] == npa
    ensures Count(calls, x) == if x == npa then |calls| else 0
    decreases |calls|
  {
    if calls != [] {
      CountRepeats(calls[..|calls| - 1], npa, x);
    }
  }

  lemma {:induction false} FullLoadCounts(pools: seq<Pool>, cap: nat, x: Npa)
    requires OnePoolPerNpa(pools)
    ensures Count(FullLoad(pools, cap), x) == |PoolOf(pools, x)| * cap
    decreases |pools|
  {
    if pools != [] {
      var front, last := pools[..|pools| - 1], pools[|pools| - 1];
      var load := Repeat(last.npa, |last.dids| * cap);
      FullLoadCounts(front, cap, x);
      CountJoins(FullLoad(front, cap), load, x);
      CountRepeats(load, last.npa, x);
      if x == last.npa {
        NpaHasPool(front, x);
        assert PoolOf(front, x) == [];
      }
    }
  }

  lemma {:induction false} FullLoadLength(pools: seq<Pool>, cap: nat)
    ensures |FullLoad(pools, cap)| == |PoolDids(pools)| * cap
    decreases |pools|
  {
    if pools != [] {
      var front, last := pools[..|pools| - 1], pools[|pools| - 1];
      FullLoadLength(front, cap);
      assert (|PoolDids(front)| + |last.dids|) * cap == |PoolDids(front)| * cap + |last.dids| * cap;
    }
  }

  lemma {:induction false} FullLoadNpas(pools: seq<Pool>, cap: nat)
    ensures forall c :: c in FullLoad(pools, cap) ==> exists i :: 0 <= i < |pools| && pools[i].npa == c
    decreases |pools|
  {
    if pools != [] {
      var front, last := pools[..|pools| - 1], pools[|pools| - 1];
      FullLoadNpas(front, cap);
      forall c | c in FullLoad(pools, cap) ensures exists i :: 0 <= i < |pools| && pools[i].npa == c {
        if c in FullLoad(front, cap) {
          var i :| 0 <= i < |front| && front[i].npa == c;
          assert pools[i].npa == c;
        } else {
          assert pools[|pools| - 1].npa == c;
        }
      }
    }
  }

  /** The rows of a full day on which one area also asks for all of overflow. */
  function Rows(npas: seq<Npa>, day: Day, calls: seq<Npa>): seq<NpaDemand> {
    seq(|npas|, i requires 0 <= i < |npas| => NpaDemand(npas[i], map[day := Count(calls, npas[i])]))
  }

  lemma {:induction false} RowsSpill(npas: seq<Npa>, day: Day, calls: seq<Npa>, sizes: map<Npa, int>, extra: nat,
                                     cap: nat)
    requires forall i :: 0 <= i < |npas| ==>
               Count(calls, npas[i]) == Size(sizes, npas[i]) * cap + if i == 0 then extra else 0
    ensures Spill(Rows(npas, day, calls), day, sizes, cap) <= extra
    decreases |npas|
  {
    if npas != [] {
      var n := |npas| - 1;
      var front, rows := npas[..n], Rows(npas, day, calls);
      assert rows[..n] == Rows(front, day, calls);
      RowsSpill(front, day, calls, sizes, extra, cap);
      if n == 0 {
        assert Spill(rows[..0], day, sizes, cap) == 0;
      }
    }
  }

  /** The areas a full day names: the pools' own, or a single area without a pool if there are none. */
  function FullDayAreas(pools: seq<Pool>): (npas: seq<Npa>)
    ensures |npas| >= 1
  {
    if pools == [] then [""] else seq(|pools|, i requires 0 <= i < |pools| => pools[i].npa)
  }

  function FullDay(fleet: Fleet, cap: nat): seq<Npa> {
    FullLoad(fleet.pools, cap) + Repeat(FullDayAreas(fleet.pools)[0], |fleet.overflow| * cap)
  }

  lemma FullDayTotals(fleet: Fleet, day: Day, cap: nat)
    requires OnePoolPerNpa(fleet.pools)
    ensures var calls, npas := FullDay(fleet, cap), FullDayAreas(fleet.pools);
            TotalsOf(Rows(npas, day, calls), day, calls)
            && Projected(Rows(npas, day, calls), day, Sizes(fleet), |fleet.overflow|, cap) == 0
  {
    var calls, npas := FullDay(fleet, cap), FullDayAreas(fleet.pools);
    var rows := Rows(npas, day, calls);
    var extra := Repeat(npas[0], |fleet.overflow| * cap);
    FullLoadNpas(fleet.pools, cap);
    forall c | c in calls ensures exists i :: 0 <= i < |rows| && rows[i].npa == c {
      if c in FullLoad(fleet.pools, cap) {
        var i :| 0 <= i < |fleet.pools| && fleet.pools[i].npa == c;
        assert rows[i].npa == c;
      } else {
        assert rows[0].npa == c;
      }
    }
    forall i | 0 <= i < |npas|
      ensures Count(calls, npas[i]) == Size(Sizes(fleet), npas[i]) * cap + if i == 0 then |fleet.overflow| * cap else 0
    {
      FullLoadCounts(fleet.pools, cap, npas[i]);
      CountJoins(FullLoad(fleet.pools, cap), extra, npas[i]);
      CountRepeats(extra, npas[0], npas[i]);
      SizeIsPoolLength(fleet, npas[i]);
    }
    RowsSpill(npas, day, calls, Sizes(fleet), |fleet.overflow| * cap, cap);
  }

  /** However the calls are ordered, the fleet serves no more than its distinct numbers can carry. */
  lemma DistinctNumbersBoundService(fleet: Fleet, rotors: map<PoolKey, nat>, calls: seq<Npa>, cap: nat)
    requires OnePoolPerNpa(fleet.pools)
    ensures RefusedCalls(PlaceAll(fleet, rotors, calls, cap).outcomes) >= |calls| - |Members(AllDids(fleet))| * cap
  {
    ServedAreCounted(fleet, rotors, calls, cap);
    EveryDayOk(fleet, rotors, calls, cap);
    SumBounds(Members(AllDids(fleet)), PlaceAll(fleet, rotors, calls, cap).box.counts, cap);
  }

  lemma FullDayLength(fleet: Fleet, cap: nat)
    ensures |FullDay(fleet, cap)| == |AllDids(fleet)| * cap
  {
    FullLoadLength(fleet.pools, cap);
    assert (|PoolDids(fleet.pools)| + |fleet.overflow|) * cap == |PoolDids(fleet.pools)| * cap + |fleet.overflow| * cap;
  }

  lemma FewerMembersThanDids(fleet: Fleet, cap: nat)
    requires !Unshared(fleet) && cap >= 1
    ensures |Members(AllDids(fleet))| * cap < |AllDids(fleet)| * cap
  {
    var all := AllDids(fleet);
    MembersOnce(all);
    var d :| multiset(all)[d] > 1;
    MultiplesKeepOrder(|Members(all)|, |all|, cap);
  }

  /** If some number serves twice, there is a day projected without refusals that does refuse calls, from any rotors. */
  lemma SharedNumberRefuses(fleet: Fleet, rotors: map<PoolKey, nat>, day: Day, cap: nat)
    requires OnePoolPerNpa(fleet.pools) && !Unshared(fleet) && cap >= 1
    ensures var calls := FullDay(fleet, cap);
            var rows := Rows(FullDayAreas(fleet.pools), day, calls);
            && TotalsOf(rows, day, calls)
            && Projected(rows, day, Sizes(fleet), |fleet.overflow|, cap) == 0
            && RefusedCalls(PlaceAll(fleet, rotors, calls, cap).outcomes) > 0
  {
    FullDayTotals(fleet, day, cap);
    FullDayLength(fleet, cap);
    FewerMembersThanDids(fleet, cap);
    DistinctNumbersBoundService(fleet, rotors, FullDay(fleet, cap), cap);
  }

  /**
   The projection from daily totals is exact for every day, order of calls and rotor position
   if and only if no number serves two pools or one pool twice.
   */
  lemma ExactIffUnshared(fleet: Fleet, cap: nat)
    requires OnePoolPerNpa(fleet.pools) && cap >= 1
    ensures Unshared(fleet) <==>
            forall rotors: map<PoolKey, nat>, demand: seq<NpaDemand>, day: Day, calls: seq<Npa> ::
              TotalsOf(demand, day, calls) ==>
                RefusedCalls(PlaceAll(fleet, rotors, calls, cap).outcomes)
                == Projected(demand, day, Sizes(fleet), |fleet.overflow|, cap)
  {
    if Unshared(fleet) {
      forall rotors: map<PoolKey, nat>, demand: seq<NpaDemand>, day: Day, calls: seq<Npa> | TotalsOf(demand, day, calls)
        ensures RefusedCalls(PlaceAll(fleet, rotors, calls, cap).outcomes)
                == Projected(demand, day, Sizes(fleet), |fleet.overflow|, cap)
      {
        ProjectionIsExact(fleet, rotors, demand, day, calls, cap);
      }
    } else {
      SharedNumberRefuses(fleet, map[], "", cap);
    }
  }
}
