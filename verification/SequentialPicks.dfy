/** Channels that pick one after another: the protocol's runs that the sequential account of a day describes. */
module SequentialPicks {
  import opened Common
  import opened DidRing
  import opened DidProtocol
  import opened DidRefinement

  lemma {:induction false} RunsJoin(s: State, a: seq<ChannelId>, b: seq<ChannelId>, cap: nat)
    ensures Run(s, a + b, cap) == Run(Run(s, a, cap), b, cap)
    decreases |b|
  {
    if b == [] {
      assert a + b == a;
      assert Run(Run(s, a, cap), [], cap) == Run(s, a, cap);
    } else {
      RunsJoin(s, a, b[..|b| - 1], cap);
      assert (a + b)[..|a + b| - 1] == a + b[..|b| - 1];
    }
  }

  lemma {:induction false} SameCountsSameWalk(pool: seq<Did>, rot: nat, i: nat, cap: nat, a: map<Did, nat>,
                                              b: map<Did, nat>)
    requires forall d :: Used(a, d) == Used(b, d)
    ensures PickFrom(pool, rot, i, cap, a) == PickFrom(pool, rot, i, cap, b)
    decreases |pool| - i
  {
    if i < |pool| {
      SameCountsSameWalk(pool, rot, i + 1, cap, a, b);
    }
  }

  /** The counters of the day are those of the ledger. */
  ghost predicate Agree(counters: map<Key, nat>, day: Day, counts: map<Did, nat>) {
    forall d :: Counter(counters, Key(day, d)) == Used(counts, d)
  }

  lemma AgreeOnDay(counters: map<Key, nat>, day: Day, counts: map<Did, nat>)
    requires Agree(counters, day, counts)
    ensures forall d :: Used(DayCounts(counters, day), d) == Used(counts, d)
  {
    forall d ensures Used(DayCounts(counters, day), d) == Used(counts, d) {
      assert Used(DayCounts(counters, day), d) == Counter(counters, Key(day, d));
    }
  }

  predicate StandsBefore(f: Frame, day: Day, key: PoolKey, pool: seq<Did>) {
    f.pc == Enter && f.day == day && f.key == key && f.pool == pool
  }

  /** Every channel that has not run still stands before the pool, and nothing is locked. */
  ghost predicate Waiting(s: State, t: State, ids: seq<ChannelId>, day: Day, key: PoolKey, pool: seq<Did>) {
    && t.locks == map[] && t.frames.Keys == s.frames.Keys
    && (forall id :: id in ids ==> id in t.frames && t.frames[id].pc == Returned)
    && (forall id :: id in t.frames && id !in ids ==> StandsBefore(t.frames[id], day, key, pool))
  }

  function Served(s: State, ids: seq<ChannelId>): nat
    requires forall id :: id in ids ==> id in s.frames
  {
    if ids == [] then 0
    else Served(s, ids[..|ids| - 1]) + if s.frames[ids[|ids| - 1]].did.Some? then 1 else 0
  }

  /** Counters, rotor and successes as a ledger and a rotor position say. */
  ghost predicate Tallied(t: State, ids: seq<ChannelId>, day: Day, key: PoolKey, rot: nat, ledger: Ledger) {
    && (forall id :: id in ids ==> id in t.frames)
    && RotorAt(t.rotors, key) == rot && Agree(t.counters, day, ledger.counts) && Served(t, ids) == ledger.served
  }

  lemma {:induction false} ServedDependsOn(s: State, t: State, ids: seq<ChannelId>)
    requires forall id :: id in ids ==> id in s.frames && id in t.frames && t.frames[id] == s.frames[id]
    ensures Served(s, ids) == Served(t, ids)
    decreases |ids|
  {
    if ids != [] {
      ServedDependsOn(s, t, ids[..|ids| - 1]);
    }
  }

  lemma ServedOneMore(t: State, ids: seq<ChannelId>, id: ChannelId)
    requires (forall i :: i in ids ==> i in t.frames) && id in t.frames
    ensures Served(t, ids + [id]) == Served(t, ids) + if t.frames[id].did.Some? then 1 else 0
  {
    assert (ids + [id])[..|ids|] == ids;
  }

  lemma WaitingOneMore(s: State, t: State, u: State, ids: seq<ChannelId>, id: ChannelId, day: Day, key: PoolKey,
                       pool: seq<Did>)
    requires Waiting(s, t, ids, day, key, pool) && id !in ids
    requires RotatedAlone(t, u, id) && u.frames[id].pc == Returned && u.locks == t.locks
    ensures Waiting(s, u, ids + [id], day, key, pool)
  {
  }

  /** A lone pick raises the day's counters as the ledger's. */
  lemma AgreeOneMore(before: map<Key, nat>, after: map<Key, nat>, day: Day, counts: map<Did, nat>, r: Option<Did>)
    requires Agree(before, day, counts)
    requires r.None? ==> after == before
    requires r.Some? ==> after == before[Key(day, r.value) := Counter(before, Key(day, r.value)) + 1]
    ensures Agree(after, day, if r.Some? then Raise(counts, r.value) else counts)
  {
  }

  function Charged(before: Ledger, r: Option<Did>): Ledger {
    if r.Some? then Ledger(Raise(before.counts, r.value), before.served + 1) else before
  }

  lemma RotorMoved(t: State, u: State, id: ChannelId, day: Day, key: PoolKey, pool: seq<Did>)
    requires id in t.frames && StandsBefore(t.frames[id], day, key, pool) && |pool| >= 1 && RotatedAlone(t, u, id)
    ensures RotorAt(u.rotors, key) == RotorAt(t.rotors, key) + 1
  {
  }

  lemma ServedAfter(t: State, u: State, ids: seq<ChannelId>, id: ChannelId)
    requires RotatedAlone(t, u, id) && id !in ids && forall i :: i in ids ==> i in t.frames
    ensures Served(u, ids + [id]) == Served(t, ids) + if u.frames[id].did.Some? then 1 else 0
  {
    ServedDependsOn(t, u, ids);
    ServedOneMore(u, ids, id);
  }

  lemma TalliedOneMore(t: State, u: State, ids: seq<ChannelId>, id: ChannelId, day: Day, key: PoolKey, pool: seq<Did>,
                       rot: nat, before: Ledger, r: Option<Did>)
    requires Tallied(t, ids, day, key, rot, before) && |pool| >= 1 && id !in ids
    requires RotatedAlone(t, u, id) && StandsBefore(t.frames[id], day, key, pool) && PickedAlone(t, u, id, day, r)
    ensures Tallied(u, ids + [id], day, key, rot + 1, Charged(before, r))
  {
    RotorMoved(t, u, id, day, key, pool);
    AgreeOneMore(t.counters, u.counters, day, before.counts, r);
    ServedAfter(t, u, ids, id);
  }

  /** The ledger's next pick, kept apart so that what follows does not look into the ring. */
  ghost predicate NextIs(pool: seq<Did>, rot: nat, cap: nat, before: Ledger, r: Option<Did>) {
    r == PickFrom(pool, rot + 1, 0, cap, before.counts)
  }

  /** The next channel's pick, from counters that agree with the ledger, is the ledger's next pick. */
  lemma ChoiceIsNextPick(s: State, f: Frame, before: Ledger, cap: nat)
    requires Agree(s.counters, f.day, before.counts)
    ensures NextIs(f.pool, RotorAt(s.rotors, f.key), cap, before, Choice(s, Entering(s, f), cap))
  {
    AgreeOnDay(s.counters, f.day, before.counts);
    SameCountsSameWalk(f.pool, RotorAt(s.rotors, f.key) + 1, 0, cap, DayCounts(s.counters, f.day), before.counts);
  }

  /** Further turns of a channel that has returned change nothing. */
  lemma {:induction false} Rests(t: State, id: ChannelId, n: nat, cap: nat)
    requires id in t.frames && t.frames[id].pc == Returned
    ensures Alone(t, id, n, cap) == t
    decreases n
  {
    if n > 0 {
      assert Step(t, id, cap) == t;
      Rests(t, id, n - 1, cap);
    }
  }

  ghost predicate HasReturned(t: State, id: ChannelId) {
    id in t.frames && t.frames[id].pc == Returned
  }

  /** However long a channel keeps its turns, it returns in the same state. */
  lemma EndsOnce(t: State, id: ChannelId, m: nat, n: nat, cap: nat)
    requires HasReturned(Alone(t, id, m, cap), id) && HasReturned(Alone(t, id, n, cap), id)
    ensures Alone(t, id, m, cap) == Alone(t, id, n, cap)
  {
    if m <= n {
      AloneJoins(t, id, m, n - m, cap);
      Rests(Alone(t, id, m, cap), id, n - m, cap);
    } else {
      EndsOnce(t, id, n, m, cap);
    }
  }

  lemma NextPick(t: State, id: ChannelId, n: nat, day: Day, key: PoolKey, pool: seq<Did>, cap: nat, rot: nat,
                 before: Ledger)
      returns (r: Option<Did>)
    requires id in t.frames && StandsBefore(t.frames[id], day, key, pool) && t.locks == map[]
    requires RotorAt(t.rotors, key) == rot && Agree(t.counters, day, before.counts)
    requires HasReturned(Alone(t, id, n, cap), id)
    ensures PickedAlone(t, Alone(t, id, n, cap), id, day, r) && RotatedAlone(t, Alone(t, id, n, cap), id)
    ensures NextIs(pool, rot, cap, before, r)
  {
    var m, u := AlonePicksFromRing(t, id, cap);
    AloneIsARun(t, id, m, cap);
    EndsOnce(t, id, m, n, cap);
    r := Choice(t, Entering(t, t.frames[id]), cap);
    ChoiceIsNextPick(t, t.frames[id], before, cap);
  }

  lemma LedgerOneMore(pool: seq<Did>, rot: nat, k: nat, cap: nat, r: Option<Did>)
    requires NextIs(pool, rot + k, cap, AfterPicks(pool, rot, k, cap), r)
    ensures AfterPicks(pool, rot, k + 1, cap) == Charged(AfterPicks(pool, rot, k, cap), r)
  {
    assert rot + (k + 1) == rot + k + 1;
  }

  /** The channels of `ids` have picked and the others have not begun. */
  ghost predicate Reached(s: State, t: State, ids: seq<ChannelId>, day: Day, key: PoolKey, pool: seq<Did>, rot: nat,
                          ledger: Ledger) {
    Waiting(s, t, ids, day, key, pool) && Tallied(t, ids, day, key, rot, ledger)
  }

  lemma OneNext(s: State, t: State, ids: seq<ChannelId>, id: ChannelId, n: nat, day: Day, key: PoolKey, pool: seq<Did>,
                cap: nat, rot: nat, before: Ledger)
      returns (r: Option<Did>)
    requires Reached(s, t, ids, day, key, pool, rot, before) && HasReturned(Alone(t, id, n, cap), id)
    requires id in s.frames && id !in ids && |pool| >= 1
    ensures Reached(s, Alone(t, id, n, cap), ids + [id], day, key, pool, rot + 1, Charged(before, r))
    ensures NextIs(pool, rot, cap, before, r)
  {
    r := NextPick(t, id, n, day, key, pool, cap, rot, before);
    WaitingOneMore(s, t, Alone(t, id, n, cap), ids, id, day, key, pool);
    TalliedOneMore(t, Alone(t, id, n, cap), ids, id, day, key, pool, rot, before, r);
  }

  /** The channels of `ids` have picked, from the rotor position `rot` on. */
  ghost predicate Picked(s: State, t: State, ids: seq<ChannelId>, day: Day, key: PoolKey, pool: seq<Did>, cap: nat,
                         rot: nat) {
    Reached(s, t, ids, day, key, pool, rot + |ids|, AfterPicks(pool, rot, |ids|, cap))
  }

  lemma OnTheLedger(s: State, u: State, ids: seq<ChannelId>, id: ChannelId, day: Day, key: PoolKey, pool: seq<Did>,
                    cap: nat, rot: nat, after: Ledger)
    requires Reached(s, u, ids + [id], day, key, pool, rot + |ids| + 1, after)
    requires after == AfterPicks(pool, rot, |ids| + 1, cap)
    ensures Picked(s, u, ids + [id], day, key, pool, cap, rot)
  {
    assert |ids + [id]| == |ids| + 1;
  }

  lemma PickedOneMore(s: State, t: State, ids: seq<ChannelId>, id: ChannelId, n: nat, day: Day, key: PoolKey,
                      pool: seq<Did>, cap: nat, rot: nat)
    requires Picked(s, t, ids, day, key, pool, cap, rot) && HasReturned(Alone(t, id, n, cap), id)
    requires id in s.frames && id !in ids && |pool| >= 1
    ensures Picked(s, Alone(t, id, n, cap), ids + [id], day, key, pool, cap, rot)
  {
    var before := AfterPicks(pool, rot, |ids|, cap);
    var r := OneNext(s, t, ids, id, n, day, key, pool, cap, rot + |ids|, before);
    LedgerOneMore(pool, rot, |ids|, cap, r);
    OnTheLedger(s, Alone(t, id, n, cap), ids, id, day, key, pool, cap, rot, Charged(before, r));
  }

  lemma NoneYet(s: State, day: Day, key: PoolKey, pool: seq<Did>, cap: nat)
    requires Initial(s) && forall id :: id in s.frames ==> StandsBefore(s.frames[id], day, key, pool)
    ensures Picked(s, s, [], day, key, pool, cap, RotorAt(s.rotors, key))
  {
    assert Served(s, []) == 0;
  }

  /** The schedule in which each channel keeps its turns to the end: `turns[i]` of them for `ids[i]`. */
  function Blocks(ids: seq<ChannelId>, turns: seq<nat>): seq<ChannelId>
    requires |ids| == |turns|
    decreases |ids|
  {
    if ids == [] then []
    else
      var n := |ids| - 1;
      Blocks(ids[..n], turns[..n]) + seq(turns[n], _ => ids[n])
  }

  lemma LastBlock(s: State, ids: seq<ChannelId>, turns: seq<nat>, cap: nat)
    requires |ids| == |turns| > 0
    ensures var n := |ids| - 1;
            Run(s, Blocks(ids, turns), cap) == Alone(Run(s, Blocks(ids[..n], turns[..n]), cap), ids[n], turns[n], cap)
  {
    var n := |ids| - 1;
    RunsJoin(s, Blocks(ids[..n], turns[..n]), seq(turns[n], _ => ids[n]), cap);
    AloneIsARun(Run(s, Blocks(ids[..n], turns[..n]), cap), ids[n], turns[n], cap);
  }

  lemma OthersHadReturned(t: State, id: ChannelId, n: nat, cap: nat, ids: seq<ChannelId>)
    requires id !in ids && forall i :: i in ids ==> HasReturned(Alone(t, id, n, cap), i)
    ensures forall i :: i in ids ==> HasReturned(t, i)
  {
    AloneLeavesOthers(t, id, n, cap);
  }

  lemma FrontOf(ids: seq<ChannelId>)
    requires Distinct(ids) && ids != []
    ensures Distinct(ids[..|ids| - 1]) && ids == ids[..|ids| - 1] + [ids[|ids| - 1]]
    ensures ids[|ids| - 1] !in ids[..|ids| - 1]
  {
  }

  /** Channels that pick one after another from one pool leave the counters, rotor and successes of `AfterPicks`. */
  lemma {:induction false} OneAfterAnother(s: State, ids: seq<ChannelId>, turns: seq<nat>, day: Day, key: PoolKey,
                                           pool: seq<Did>, cap: nat)
    requires Initial(s) && |pool| >= 1 && Distinct(ids) && |turns| == |ids|
    requires forall id :: id in s.frames ==> StandsBefore(s.frames[id], day, key, pool)
    requires forall id :: id in ids ==> id in s.frames && HasReturned(Run(s, Blocks(ids, turns), cap), id)
    ensures Picked(s, Run(s, Blocks(ids, turns), cap), ids, day, key, pool, cap, RotorAt(s.rotors, key))
    decreases |ids|
  {
    if ids == [] {
      NoneYet(s, day, key, pool, cap);
    } else {
      var n := |ids| - 1;
      var t := Run(s, Blocks(ids[..n], turns[..n]), cap);
      FrontOf(ids);
      LastBlock(s, ids, turns, cap);
      OthersHadReturned(t, ids[n], turns[n], cap, ids[..n]);
      OneAfterAnother(s, ids[..n], turns[..n], day, key, pool, cap);
      PickedOneMore(s, t, ids[..n], ids[n], turns[n], day, key, pool, cap, RotorAt(s.rotors, key));
    }
  }

  /** So a sequential day at one pool serves the lesser of the calls and the capacity, whatever its rotor. */
  lemma ASequentialDay(s: State, ids: seq<ChannelId>, turns: seq<nat>, day: Day, key: PoolKey, pool: seq<Did>, cap: nat)
    requires Initial(s) && |pool| >= 1 && Distinct(pool) && Distinct(ids) && |turns| == |ids|
    requires forall id :: id in s.frames ==> StandsBefore(s.frames[id], day, key, pool)
    requires forall id :: id in ids ==> id in s.frames && HasReturned(Run(s, Blocks(ids, turns), cap), id)
    ensures forall id :: id in ids ==> id in Run(s, Blocks(ids, turns), cap).frames
    ensures Served(Run(s, Blocks(ids, turns), cap), ids) == if |ids| < |pool| * cap then |ids| else |pool| * cap
  {
    OneAfterAnother(s, ids, turns, day, key, pool, cap);
    FreshDay(pool, RotorAt(s.rotors, key), |ids|, cap);
  }
}
