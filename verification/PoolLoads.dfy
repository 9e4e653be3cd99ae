/** How a day of calls loads each pool: whatever else is called in between, every pool goes round its own ring. */
module PoolLoads {
  import opened Common
  import opened DidRing
  import opened Projection
  import opened Refusals

  function RotorOf(rotors: map<PoolKey, nat>, key: PoolKey): nat {
    if key in rotors then rotors[key] else 0
  }

  /** On the pool's members the counters say the same. */
  ghost predicate SameOn(pool: seq<Did>, a: map<Did, nat>, b: map<Did, nat>) {
    forall d :: d in pool ==> Used(a, d) == Used(b, d)
  }

  lemma {:induction false} PickDependsOnMembers(pool: seq<Did>, rot: nat, i: nat, cap: nat, a: map<Did, nat>,
                                                b: map<Did, nat>)
    requires SameOn(pool, a, b)
    ensures PickFrom(pool, rot, i, cap, a) == PickFrom(pool, rot, i, cap, b)
    decreases |pool| - i
  {
    if i < |pool| {
      PickDependsOnMembers(pool, rot, i + 1, cap, a, b);
    }
  }

  /** After `k` picks from the pool, whose rotor stood at `start`: the counters of its members and its rotor. */
  ghost predicate Loaded(box: Box, key: PoolKey, pool: seq<Did>, start: nat, k: nat, cap: nat) {
    && SameOn(pool, box.counts, AfterPicks(pool, start, k, cap).counts)
    && (|pool| >= 1 ==> RotorOf(box.rotors, key) == start + k)
  }

  lemma OneMorePick(box: Box, key: PoolKey, pool: seq<Did>, start: nat, k: nat, cap: nat)
    requires Loaded(box, key, pool, start, k, cap)
    ensures Loaded(PickPool(box, key, pool, cap).1, key, pool, start, k + 1, cap)
  {
    if |pool| >= 1 {
      PickDependsOnMembers(pool, start + k + 1, 0, cap, box.counts, AfterPicks(pool, start, k, cap).counts);
      assert start + (k + 1) == start + k + 1;
    }
  }

  /** A pick from another pool leaves this one's members and rotor alone. */
  lemma OthersPick(box: Box, key: PoolKey, pool: seq<Did>, start: nat, k: nat, cap: nat, other: PoolKey, dids: seq<Did>)
    requires Loaded(box, key, pool, start, k, cap) && other != key && forall d :: d in dids ==> d !in pool
    ensures Loaded(PickPool(box, other, dids, cap).1, key, pool, start, k, cap)
  {
    if |dids| >= 1 {
      PickFromMeaning(dids, RotorOf(box.rotors, other) + 1, 0, cap, box.counts);
    }
  }

  lemma ApartPools(fleet: Fleet, x: Npa, y: Npa)
    requires OnePoolPerNpa(fleet.pools) && Unshared(fleet)
    ensures forall d :: d in PoolOf(fleet.pools, x) ==>
              d !in fleet.overflow && (x != y ==> d !in PoolOf(fleet.pools, y))
  {
    forall d | d in PoolOf(fleet.pools, x)
      ensures d !in fleet.overflow && (x != y ==> d !in PoolOf(fleet.pools, y))
    {
      DrawnOnce(fleet, x, d);
    }
  }

  lemma PlaceOwn(fleet: Fleet, box: Box, npa: Npa, start: nat, k: nat, cap: nat)
    requires OnePoolPerNpa(fleet.pools) && Unshared(fleet)
    requires Loaded(box, Area(npa), PoolOf(fleet.pools, npa), start, k, cap)
    ensures Loaded(Place(fleet, box, npa, cap).1, Area(npa), PoolOf(fleet.pools, npa), start, k + 1, cap)
  {
    var pool := PoolOf(fleet.pools, npa);
    OneMorePick(box, Area(npa), pool, start, k, cap);
    ApartPools(fleet, npa, npa);
    OthersPick(PickPool(box, Area(npa), pool, cap).1, Area(npa), pool, start, k + 1, cap, OverflowPool, fleet.overflow);
  }

  lemma PlaceOther(fleet: Fleet, box: Box, other: Npa, npa: Npa, start: nat, k: nat, cap: nat)
    requires OnePoolPerNpa(fleet.pools) && Unshared(fleet) && other != npa
    requires Loaded(box, Area(npa), PoolOf(fleet.pools, npa), start, k, cap)
    ensures Loaded(Place(fleet, box, other, cap).1, Area(npa), PoolOf(fleet.pools, npa), start, k, cap)
  {
    var pool, dids := PoolOf(fleet.pools, npa), PoolOf(fleet.pools, other);
    ApartPools(fleet, npa, other);
    OthersPick(box, Area(npa), pool, start, k, cap, Area(other), dids);
    OthersPick(PickPool(box, Area(other), dids, cap).1, Area(npa), pool, start, k, cap, OverflowPool, fleet.overflow);
  }

  lemma NothingPicked(rotors: map<PoolKey, nat>, key: PoolKey, pool: seq<Did>, cap: nat)
    ensures Loaded(Box(rotors, map[]), key, pool, RotorOf(rotors, key), 0, cap)
  {
  }

  /** Whatever calls to other areas come between, an area's calls draw from its pool as if they were alone. */
  lemma {:induction false} AreaGoesRoundItsRing(fleet: Fleet, rotors: map<PoolKey, nat>, calls: seq<Npa>, npa: Npa,
                                                cap: nat)
    requires OnePoolPerNpa(fleet.pools) && Unshared(fleet)
    ensures Loaded(PlaceAll(fleet, rotors, calls, cap).box, Area(npa), PoolOf(fleet.pools, npa),
                   RotorOf(rotors, Area(npa)), Count(calls, npa), cap)
    decreases |calls|
  {
    var pool, start := PoolOf(fleet.pools, npa), RotorOf(rotors, Area(npa));
    if calls == [] {
      NothingPicked(rotors, Area(npa), pool, cap);
    } else {
      var front, last := calls[..|calls| - 1], calls[|calls| - 1];
      AreaGoesRoundItsRing(fleet, rotors, front, npa, cap);
      var box := PlaceAll(fleet, rotors, front, cap).box;
      if last == npa {
        PlaceOwn(fleet, box, npa, start, Count(front, npa), cap);
      } else {
        PlaceOther(fleet, box, last, npa, start, Count(front, npa), cap);
      }
    }
  }

  // ---- Overflow ----

  lemma OverflowTurns(fleet: Fleet, box: Box, npa: Npa, start: nat, k: nat, cap: nat)
    requires OnePoolPerNpa(fleet.pools) && Unshared(fleet)
    requires Loaded(box, OverflowPool, fleet.overflow, start, k, cap)
    ensures var (o, after) := Place(fleet, box, npa, cap);
            Loaded(after, OverflowPool, fleet.overflow, start, k + if o.NpaMatch? then 0 else 1, cap)
  {
    var dids := PoolOf(fleet.pools, npa);
    ApartPools(fleet, npa, npa);
    OthersPick(box, OverflowPool, fleet.overflow, start, k, cap, Area(npa), dids);
    OneMorePick(PickPool(box, Area(npa), dids, cap).1, OverflowPool, fleet.overflow, start, k, cap);
  }

  /** Calls that their own area did not serve. */
  function Unmatched(outcomes: seq<Outcome>): nat {
    Spilled(outcomes) + RefusedCalls(outcomes)
  }

  lemma UnmatchedGrows(outcomes: seq<Outcome>, o: Outcome)
    ensures Unmatched(outcomes + [o]) == Unmatched(outcomes) + if o.NpaMatch? then 0 else 1
  {
    assert (outcomes + [o])[..|outcomes|] == outcomes;
  }

  lemma OverflowAfterOne(fleet: Fleet, log: DayLog, npa: Npa, start: nat, cap: nat)
    requires OnePoolPerNpa(fleet.pools) && Unshared(fleet)
    requires Loaded(log.box, OverflowPool, fleet.overflow, start, Unmatched(log.outcomes), cap)
    ensures var (o, after) := Place(fleet, log.box, npa, cap);
            Loaded(after, OverflowPool, fleet.overflow, start, Unmatched(log.outcomes + [o]), cap)
  {
    OverflowTurns(fleet, log.box, npa, start, Unmatched(log.outcomes), cap);
    UnmatchedGrows(log.outcomes, Place(fleet, log.box, npa, cap).0);
  }

  /** Overflow is asked exactly by the calls their own pool could not serve, and goes round its own ring. */
  lemma {:induction false} OverflowGoesRoundItsRing(fleet: Fleet, rotors: map<PoolKey, nat>, calls: seq<Npa>, cap: nat)
    requires OnePoolPerNpa(fleet.pools) && Unshared(fleet)
    ensures var log := PlaceAll(fleet, rotors, calls, cap);
            Loaded(log.box, OverflowPool, fleet.overflow, RotorOf(rotors, OverflowPool),
                   Unmatched(log.outcomes), cap)
    decreases |calls|
  {
    if calls == [] {
      NothingPicked(rotors, OverflowPool, fleet.overflow, cap);
    } else {
      var front, last := calls[..|calls| - 1], calls[|calls| - 1];
      OverflowGoesRoundItsRing(fleet, rotors, front, cap);
      var log := PlaceAll(fleet, rotors, front, cap);
      OverflowAfterOne(fleet, log, last, RotorOf(rotors, OverflowPool), cap);
    }
  }

  ghost predicate Even(pool: seq<Did>, counts: map<Did, nat>) {
    forall d, e :: d in pool && e in pool ==> Used(counts, d) <= Used(counts, e) + 1
  }

  lemma LoadIsEven(box: Box, key: PoolKey, pool: seq<Did>, start: nat, k: nat, cap: nat)
    requires Loaded(box, key, pool, start, k, cap) && Distinct(pool)
    ensures Even(pool, box.counts)
  {
    if |pool| > 0 {
      FreshDay(pool, start, k, cap);
    }
  }

  lemma UnsharedIsDistinct(fleet: Fleet, npa: Npa)
    requires OnePoolPerNpa(fleet.pools) && Unshared(fleet)
    ensures Distinct(PoolOf(fleet.pools, npa)) && Distinct(fleet.overflow)
  {
    forall d ensures multiset(PoolOf(fleet.pools, npa))[d] <= 1 && multiset(fleet.overflow)[d] <= 1 {
      DrawnOnce(fleet, npa, d);
    }
    OnceIsDistinct(PoolOf(fleet.pools, npa));
    OnceIsDistinct(fleet.overflow);
  }

  lemma TwoPlacesAreTwo(dids: seq<Did>, i: nat, j: nat)
    requires i < j < |dids| && dids[i] == dids[j]
    ensures multiset(dids)[dids[i]] >= 2
  {
    assert dids == dids[..j] + [dids[j]] + dids[j + 1..];
    assert dids[..j][i] == dids[i];
    assert multiset(dids[..j])[dids[i]] >= 1;
  }

  lemma OnceIsDistinct(dids: seq<Did>)
    requires forall d :: multiset(dids)[d] <= 1
    ensures Distinct(dids)
  {
    forall i, j | 0 <= i < j < |dids| ensures dids[i] != dids[j] {
      if dids[i] == dids[j] {
        TwoPlacesAreTwo(dids, i, j);
      }
    }
  }

  /**
   Over a day of calls to any areas in any order, from any rotors, the numbers of one pool are never more than
   one call apart, overflow's included.
   */
  lemma EveryPoolIsEven(fleet: Fleet, rotors: map<PoolKey, nat>, calls: seq<Npa>, npa: Npa, cap: nat)
    requires OnePoolPerNpa(fleet.pools) && Unshared(fleet)
    ensures Even(PoolOf(fleet.pools, npa), PlaceAll(fleet, rotors, calls, cap).box.counts)
    ensures Even(fleet.overflow, PlaceAll(fleet, rotors, calls, cap).box.counts)
  {
    UnsharedIsDistinct(fleet, npa);
    AreaIsEven(fleet, rotors, calls, npa, cap);
    OverflowIsEven(fleet, rotors, calls, cap);
  }

  lemma AreaIsEven(fleet: Fleet, rotors: map<PoolKey, nat>, calls: seq<Npa>, npa: Npa, cap: nat)
    requires OnePoolPerNpa(fleet.pools) && Unshared(fleet) && Distinct(PoolOf(fleet.pools, npa))
    ensures Even(PoolOf(fleet.pools, npa), PlaceAll(fleet, rotors, calls, cap).box.counts)
  {
    AreaGoesRoundItsRing(fleet, rotors, calls, npa, cap);
    LoadIsEven(PlaceAll(fleet, rotors, calls, cap).box, Area(npa), PoolOf(fleet.pools, npa),
               RotorOf(rotors, Area(npa)), Count(calls, npa), cap);
  }

  lemma OverflowIsEven(fleet: Fleet, rotors: map<PoolKey, nat>, calls: seq<Npa>, cap: nat)
    requires OnePoolPerNpa(fleet.pools) && Unshared(fleet) && Distinct(fleet.overflow)
    ensures Even(fleet.overflow, PlaceAll(fleet, rotors, calls, cap).box.counts)
  {
    var log := PlaceAll(fleet, rotors, calls, cap);
    OverflowGoesRoundItsRing(fleet, rotors, calls, cap);
    LoadIsEven(log.box, OverflowPool, fleet.overflow, RotorOf(rotors, OverflowPool),
               Unmatched(log.outcomes), cap);
  }

  // ---- One call ----

  /** The rotor names the first number to look at; the first from there that is under its cap is the one picked. */
  lemma {:induction false} PickIsTheFirst(pool: seq<Did>, rot: nat, i: nat, cap: nat, counts: map<Did, nat>)
      returns (j: nat)
    requires PickFrom(pool, rot, i, cap, counts).Some?
    ensures i <= j < |pool| && PickFrom(pool, rot, i, cap, counts) == Some(pool[(rot + j) % |pool|])
    ensures Used(counts, pool[(rot + j) % |pool|]) < cap
    ensures forall k: nat :: i <= k < j ==> Used(counts, RingAt(pool, rot, k)) >= cap
    decreases |pool| - i
  {
    if Used(counts, RingAt(pool, rot, i)) < cap {
      j := i;
    } else {
      j := PickIsTheFirst(pool, rot, i + 1, cap, counts);
    }
  }

  /** A call is served from its own area while one of the area's numbers is under the cap, and from overflow else. */
  lemma OwnPoolFirst(fleet: Fleet, box: Box, npa: Npa, cap: nat)
    ensures var o := Place(fleet, box, npa, cap).0;
            var own := PoolOf(fleet.pools, npa);
            && (o.NpaMatch? <==> exists d :: d in own && Used(box.counts, d) < cap)
            && (o.FromOverflow? <==> (forall d :: d in own ==> Used(box.counts, d) >= cap)
                                     && exists d :: d in fleet.overflow && Used(box.counts, d) < cap)
            && (o.NpaMatch? ==> o.did in own && Used(box.counts, o.did) < cap)
            && (o.FromOverflow? ==> o.did in fleet.overflow && Used(box.counts, o.did) < cap)
  {
    var own := PoolOf(fleet.pools, npa);
    var first := PickPool(box, Area(npa), own, cap);
    EmptyIffAllCapped(own, RotorOf(box.rotors, Area(npa)) + 1, cap, box.counts);
    EmptyIffAllCapped(fleet.overflow, RotorOf(first.1.rotors, OverflowPool) + 1, cap, box.counts);
  }
}
