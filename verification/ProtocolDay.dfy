/**
 A day of concurrent calls: each runs the pick subroutine for its area's pool and, if that came back
 empty, again for overflow. Any number of picks are under way at once.
 */
module ProtocolDay {
  import opened Common
  import opened DidRing
  import opened Projection
  import opened Refusals
  import opened DidProtocol
  import opened Planner
  import opened PlanEffects
  import opened Reallocate
  import opened Capacity

  /** The pool a channel asks: channel `c` asks for call `c` at its area, channel `|calls| + c` at overflow. */
  function Asked(fleet: Fleet, calls: seq<Npa>, id: ChannelId): seq<Did> {
    if id < |calls| then PoolOf(fleet.pools, calls[id]) else fleet.overflow
  }

  function SpareOf(calls: seq<Npa>, c: nat): ChannelId {
    |calls| + c
  }

  ghost predicate Calling(s: State, fleet: Fleet, calls: seq<Npa>, day: string) {
    && (forall id: ChannelId :: id in s.frames <==> id < |calls| + |calls|)
    && (forall id :: id in s.frames ==> s.frames[id].day == day && s.frames[id].pool == Asked(fleet, calls, id))
  }

  /** A call is done once its own pick returned and overflow was asked exactly if that pick came back empty. */
  predicate Answered(own: Frame, spare: Frame) {
    own.pc == Returned && spare.pc == if own.did.None? then Returned else Enter
  }

  ghost predicate AllAnswered(t: State, calls: seq<Npa>) {
    forall c: nat :: c < |calls| ==>
                       c in t.frames && SpareOf(calls, c) in t.frames
                         && Answered(t.frames[c], t.frames[SpareOf(calls, c)])
  }

  function OutcomeOf(own: Frame, spare: Frame): Outcome {
    if own.did.Some? then NpaMatch(own.did.value)
    else if spare.did.Some? then FromOverflow(spare.did.value)
    else Refused
  }

  ghost function Outcomes(t: State, calls: seq<Npa>): (r: seq<Outcome>)
    requires AllAnswered(t, calls)
    ensures |r| == |calls|
  {
    seq(|calls|, c requires 0 <= c < |calls| => OutcomeOf(t.frames[c], t.frames[SpareOf(calls, c)]))
  }

  // ---- Counting the channels behind the outcomes ----

  function MatchedCalls(calls: seq<Npa>, outcomes: seq<Outcome>, npa: Npa): set<ChannelId>
    requires |calls| == |outcomes|
  {
    set c: nat | c < |calls| && calls[c] == npa && outcomes[c].NpaMatch?
  }

  lemma {:induction false} MatchedCallsAreMatches(calls: seq<Npa>, outcomes: seq<Outcome>, npa: Npa)
    requires |calls| == |outcomes|
    ensures |MatchedCalls(calls, outcomes, npa)| == Matches(calls, outcomes, npa) <= Count(calls, npa)
    decreases |calls|
  {
    if calls != [] {
      var n := |calls| - 1;
      var front := MatchedCalls(calls[..n], outcomes[..n], npa);
      MatchedCallsAreMatches(calls[..n], outcomes[..n], npa);
      assert MatchedCalls(calls, outcomes, npa) == front + if calls[n] == npa && outcomes[n].NpaMatch? then {n} else {};
    }
  }

  function SpareChannels(outcomes: seq<Outcome>, n: nat): set<ChannelId> {
    set c: nat | c < |outcomes| && outcomes[c].FromOverflow? :: n + c
  }

  lemma {:induction false} SpareChannelsAreSpilled(outcomes: seq<Outcome>, n: nat)
    ensures |SpareChannels(outcomes, n)| == Spilled(outcomes)
    decreases |outcomes|
  {
    if outcomes != [] {
      var last := |outcomes| - 1;
      var front := SpareChannels(outcomes[..last], n);
      SpareChannelsAreSpilled(outcomes[..last], n);
      assert SpareChannels(outcomes, n) == front + if outcomes[last].FromOverflow? then {n + last} else {};
    }
  }

  /** A missed call is one whose own pick came back empty. */
  lemma {:induction false} SomeCallMissed(calls: seq<Npa>, outcomes: seq<Outcome>, npa: Npa) returns (c: nat)
    requires |calls| == |outcomes| && Count(calls, npa) > Matches(calls, outcomes, npa)
    ensures c < |calls| && calls[c] == npa && !outcomes[c].NpaMatch?
    decreases |calls|
  {
    var n := |calls| - 1;
    if calls[n] == npa && !outcomes[n].NpaMatch? {
      c := n;
    } else {
      c := SomeCallMissed(calls[..n], outcomes[..n], npa);
    }
  }

  lemma {:induction false} SomeCallRefused(outcomes: seq<Outcome>) returns (c: nat)
    requires RefusedCalls(outcomes) > 0
    ensures c < |outcomes| && outcomes[c].Refused?
    decreases |outcomes|
  {
    var n := |outcomes| - 1;
    if outcomes[n].Refused? {
      c := n;
    } else {
      c := SomeCallRefused(outcomes[..n]);
    }
  }

  /** The counts are the returned picks. */
  ghost predicate Tallies(t: State, day: string, counts: map<Did, nat>) {
    forall d :: Used(counts, d) == |Returners(t, Key(day, d))|
  }

  function ReturnCounts(t: State, day: string): (counts: map<Did, nat>)
    ensures Tallies(t, day, counts)
  {
    var dids := set id | id in t.frames && t.frames[id].did.Some? :: t.frames[id].did.value;
    var counts := map d | d in dids :: |Returners(t, Key(day, d))|;
    assert forall d :: d !in dids ==> Returners(t, Key(day, d)) == {};
    counts
  }

  ghost predicate HoldOneOf(t: State, xs: set<ChannelId>, day: string, dids: seq<Did>) {
    forall id :: id in xs ==>
                   id in t.frames && t.frames[id].pc == Returned && t.frames[id].day == day
                   && t.frames[id].did.Some? && t.frames[id].did.value in dids
  }

  ghost predicate HoldAllOf(t: State, xs: set<ChannelId>, day: string, dids: seq<Did>) {
    forall d :: d in dids ==> Returners(t, Key(day, d)) <= xs && multiset(dids)[d] <= 1
  }

  function HoldersOf(t: State, xs: set<ChannelId>, d: Did): set<ChannelId> {
    set id | id in xs && id in t.frames && t.frames[id].did == Some(d)
  }

  lemma HoldersOfOne(t: State, xs: set<ChannelId>, day: string, front: seq<Did>, last: Did)
    requires HoldOneOf(t, xs, day, front + [last])
    ensures var here := HoldersOf(t, xs, last);
            && HoldOneOf(t, xs - here, day, front) && |xs| == |xs - here| + |here|
            && |here| <= |Returners(t, Key(day, last))|
  {
    var here := HoldersOf(t, xs, last);
    SubsetSize(here, Returners(t, Key(day, last)));
    assert xs == (xs - here) + here;
  }

  lemma AllHoldersOfOne(t: State, xs: set<ChannelId>, day: string, front: seq<Did>, last: Did)
    requires HoldOneOf(t, xs, day, front + [last]) && HoldAllOf(t, xs, day, front + [last])
    ensures HoldersOf(t, xs, last) == Returners(t, Key(day, last))
    ensures HoldAllOf(t, xs - HoldersOf(t, xs, last), day, front)
  {
    assert last in front + [last];
    forall d | d in front
      ensures Returners(t, Key(day, d)) <= xs - HoldersOf(t, xs, last) && multiset(front)[d] <= 1
    {
      assert d in front + [last];
      assert multiset(front + [last])[d] == multiset(front)[d] + if d == last then 1 else 0;
      assert multiset(front)[d] >= 1;
    }
  }

  /**
   Channels that hold numbers of a pool are at most what its
   counters add up to, and exactly that if they are all of them.
   */
  lemma {:induction false} HoldersAreCounted(t: State, xs: set<ChannelId>, day: string, dids: seq<Did>,
                                             counts: map<Did, nat>)
    requires Tallies(t, day, counts) && HoldOneOf(t, xs, day, dids)
    ensures |xs| <= SumUsed(dids, counts)
    ensures HoldAllOf(t, xs, day, dids) ==> |xs| == SumUsed(dids, counts)
    decreases |dids|
  {
    if dids == [] {
      assert xs == {};
    } else {
      var front, last := dids[..|dids| - 1], dids[|dids| - 1];
      assert dids == front + [last];
      HoldersOfOne(t, xs, day, front, last);
      HoldersAreCounted(t, xs - HoldersOf(t, xs, last), day, front, counts);
      if HoldAllOf(t, xs, day, dids) {
        AllHoldersOfOne(t, xs, day, front, last);
      }
    }
  }

  // ---- What a run leaves ----

  lemma StepKeepsPools(s: State, id: ChannelId, fleet: Fleet, calls: seq<Npa>, day: string, cap: nat)
    requires Calling(s, fleet, calls, day)
    ensures Calling(Step(s, id, cap), fleet, calls, day)
  {
    if id in s.frames {
      var f := FrameAfter(s, id, s.frames[id], cap);
      assert f.day == s.frames[id].day && f.pool == s.frames[id].pool;
    }
  }

  lemma {:induction false} ChannelsKeepTheirPools(s: State, schedule: seq<ChannelId>, fleet: Fleet, calls: seq<Npa>,
                                                  day: string, cap: nat)
    requires Calling(s, fleet, calls, day)
    ensures Calling(Run(s, schedule, cap), fleet, calls, day)
    decreases |schedule|
  {
    if schedule != [] {
      ChannelsKeepTheirPools(s, schedule[..|schedule| - 1], fleet, calls, day, cap);
      StepKeepsPools(Run(s, schedule[..|schedule| - 1], cap), schedule[|schedule| - 1], fleet, calls, day, cap);
    }
  }

  /** What every finished run satisfies, timeouts or not. */
  ghost predicate Finished(t: State, fleet: Fleet, calls: seq<Npa>, day: string, counts: map<Did, nat>, cap: nat) {
    && Calling(t, fleet, calls, day) && AllAnswered(t, calls) && Tallies(t, day, counts)
    && (forall id :: id in t.frames ==> ResultOk(t.frames[id]))
    && (forall id :: id in t.frames && t.frames[id].pc == Returned && t.frames[id].did.None? ==>
                       AllCapped(t.frames[id].pool, counts, cap))
  }

  lemma AnsweredIsIdle(t: State, fleet: Fleet, calls: seq<Npa>, day: string)
    requires Calling(t, fleet, calls, day) && AllAnswered(t, calls)
    ensures Idle(t)
  {
    forall id | id in t.frames ensures t.frames[id].pc == Returned || t.frames[id].pc == Enter {
      var c: nat := if id < |calls| then id else id - |calls|;
      assert Answered(t.frames[c], t.frames[SpareOf(calls, c)]);
    }
  }

  lemma RunIsFinished(s: State, schedule: seq<ChannelId>, fleet: Fleet, calls: seq<Npa>, day: string, cap: nat)
    requires Initial(s) && Calling(s, fleet, calls, day) && AllAnswered(Run(s, schedule, cap), calls)
    ensures var t := Run(s, schedule, cap);
            && Finished(t, fleet, calls, day, ReturnCounts(t, day), cap)
            && (Clean(t.log) ==> WithinCap(ReturnCounts(t, day), cap))
  {
    var t := Run(s, schedule, cap);
    ChannelsKeepTheirPools(s, schedule, fleet, calls, day, cap);
    AnsweredIsIdle(t, fleet, calls, day);
    EachChargedOnce(s, schedule, cap);
    forall d ensures Picks(t.log, Key(day, d)) == Used(ReturnCounts(t, day), d)
      ensures Clean(t.log) ==> Used(ReturnCounts(t, day), d) <= cap
    {
      CountersCountReturns(s, schedule, cap, Key(day, d));
    }
    forall id | id in t.frames && t.frames[id].pc == Returned && t.frames[id].did.None?
      ensures AllCapped(t.frames[id].pool, ReturnCounts(t, day), cap)
    {
      EmptyMeansAllCapped(s, schedule, cap, id);
    }
  }

  ghost function LogOf(t: State, calls: seq<Npa>, counts: map<Did, nat>): DayLog
    requires AllAnswered(t, calls)
  {
    DayLog(Box(map[], counts), Outcomes(t, calls))
  }

  /** In an unshared fleet the channels that hold a number of an area's pool are calls to that area. */
  lemma OwnersAreMatched(t: State, fleet: Fleet, calls: seq<Npa>, day: string, counts: map<Did, nat>, cap: nat,
                         npa: Npa)
    requires Finished(t, fleet, calls, day, counts, cap) && OnePoolPerNpa(fleet.pools) && Unshared(fleet)
    ensures HoldAllOf(t, MatchedCalls(calls, Outcomes(t, calls), npa), day, PoolOf(fleet.pools, npa))
  {
    var matched := MatchedCalls(calls, Outcomes(t, calls), npa);
    forall d | d in PoolOf(fleet.pools, npa)
      ensures Returners(t, Key(day, d)) <= matched && multiset(PoolOf(fleet.pools, npa))[d] <= 1
    {
      DrawnOnce(fleet, npa, d);
      forall id | id in Returners(t, Key(day, d)) ensures id in matched {
        assert d in t.frames[id].pool && t.frames[id].pool == Asked(fleet, calls, id);
      }
    }
  }

  lemma OwnersAreSpilled(t: State, fleet: Fleet, calls: seq<Npa>, day: string, counts: map<Did, nat>, cap: nat)
    requires Finished(t, fleet, calls, day, counts, cap) && OnePoolPerNpa(fleet.pools) && Unshared(fleet)
    ensures HoldAllOf(t, SpareChannels(Outcomes(t, calls), |calls|), day, fleet.overflow)
  {
    var outcomes := Outcomes(t, calls);
    forall d | d in fleet.overflow
      ensures Returners(t, Key(day, d)) <= SpareChannels(outcomes, |calls|) && multiset(fleet.overflow)[d] <= 1
    {
      DrawnOnce(fleet, "", d);
      forall id | id in Returners(t, Key(day, d)) ensures id in SpareChannels(outcomes, |calls|) {
        assert d in t.frames[id].pool && t.frames[id].pool == Asked(fleet, calls, id);
        if id < |calls| {
          DrawnOnce(fleet, calls[id], d);
        } else {
          var c: nat := id - |calls|;
          assert id == SpareOf(calls, c) && Answered(t.frames[c], t.frames[SpareOf(calls, c)]);
          assert outcomes[c].FromOverflow?;
        }
      }
    }
  }

  lemma FinishedAreaAccounted(t: State, fleet: Fleet, calls: seq<Npa>, day: string, counts: map<Did, nat>, cap: nat,
                              npa: Npa)
    requires Finished(t, fleet, calls, day, counts, cap) && OnePoolPerNpa(fleet.pools)
    ensures AreaAccounted(fleet, calls, LogOf(t, calls, counts), npa, cap)
  {
    var outcomes := Outcomes(t, calls);
    var matched := MatchedCalls(calls, outcomes, npa);
    MatchedCallsAreMatches(calls, outcomes, npa);
    HoldersAreCounted(t, matched, day, PoolOf(fleet.pools, npa), counts);
    if Unshared(fleet) {
      OwnersAreMatched(t, fleet, calls, day, counts, cap, npa);
    }
    if Count(calls, npa) > Matches(calls, outcomes, npa) {
      var c := SomeCallMissed(calls, outcomes, npa);
      assert Answered(t.frames[c], t.frames[SpareOf(calls, c)]);
      assert t.frames[c].pool == Asked(fleet, calls, c);
    }
  }

  lemma SparesHoldOverflow(t: State, fleet: Fleet, calls: seq<Npa>, day: string, counts: map<Did, nat>, cap: nat)
    requires Finished(t, fleet, calls, day, counts, cap)
    ensures HoldOneOf(t, SpareChannels(Outcomes(t, calls), |calls|), day, fleet.overflow)
  {
    var outcomes := Outcomes(t, calls);
    forall c: nat | c < |calls| && outcomes[c].FromOverflow?
      ensures var f := t.frames[SpareOf(calls, c)];
              f.pc == Returned && f.day == day && f.did.Some? && f.did.value in fleet.overflow
    {
      assert Answered(t.frames[c], t.frames[SpareOf(calls, c)]);
      assert t.frames[SpareOf(calls, c)].pool == Asked(fleet, calls, SpareOf(calls, c));
    }
  }

  lemma FinishedOverflowAccounted(t: State, fleet: Fleet, calls: seq<Npa>, day: string, counts: map<Did, nat>, cap: nat)
    requires Finished(t, fleet, calls, day, counts, cap) && OnePoolPerNpa(fleet.pools)
    ensures OverflowAccounted(fleet, LogOf(t, calls, counts), cap)
  {
    var outcomes := Outcomes(t, calls);
    var spares := SpareChannels(outcomes, |calls|);
    SpareChannelsAreSpilled(outcomes, |calls|);
    SparesHoldOverflow(t, fleet, calls, day, counts, cap);
    HoldersAreCounted(t, spares, day, fleet.overflow, counts);
    if Unshared(fleet) {
      OwnersAreSpilled(t, fleet, calls, day, counts, cap);
    }
    if RefusedCalls(outcomes) > 0 {
      var c := SomeCallRefused(outcomes);
      assert Answered(t.frames[c], t.frames[SpareOf(calls, c)]);
      assert t.frames[SpareOf(calls, c)].pool == Asked(fleet, calls, SpareOf(calls, c));
    }
  }

  // ---- The dialplan's order leads there ----

  predicate CameBackEmpty(t: State, c: ChannelId) {
    c in t.frames && t.frames[c].pc == Returned && t.frames[c].did.None?
  }

  /** A call asks overflow only once its own pick came back empty. */
  ghost predicate OwnFirst(s: State, schedule: seq<ChannelId>, calls: seq<Npa>, cap: nat)
    decreases |schedule|
  {
    schedule == []
    || (var front, last := schedule[..|schedule| - 1], schedule[|schedule| - 1];
        && OwnFirst(s, front, calls, cap)
        && (last >= |calls| ==> CameBackEmpty(Run(s, front, cap), last - |calls|)))
  }

  ghost predicate SparesWait(t: State, calls: seq<Npa>) {
    forall c: nat :: c < |calls| && SpareOf(calls, c) in t.frames ==>
                       t.frames[SpareOf(calls, c)].pc == Enter || CameBackEmpty(t, c)
  }

  lemma {:induction false} OwnFirstKeepsSparesWaiting(s: State, schedule: seq<ChannelId>, calls: seq<Npa>, cap: nat)
    requires Initial(s) && OwnFirst(s, schedule, calls, cap)
    ensures SparesWait(Run(s, schedule, cap), calls)
    decreases |schedule|
  {
    if schedule != [] {
      var front := schedule[..|schedule| - 1];
      OwnFirstKeepsSparesWaiting(s, front, calls, cap);
      StepKeepsSparesWaiting(Run(s, front, cap), schedule[|schedule| - 1], calls, cap);
    }
  }

  lemma StepKeepsSparesWaiting(t: State, id: ChannelId, calls: seq<Npa>, cap: nat)
    requires SparesWait(t, calls) && (id >= |calls| ==> CameBackEmpty(t, id - |calls|))
    ensures SparesWait(Step(t, id, cap), calls)
  {
    forall c: nat | CameBackEmpty(t, c) ensures CameBackEmpty(Step(t, id, cap), c) {
    }
  }

  /** Enough turns for every pick a call needs. */
  ghost predicate Patient(s: State, schedule: seq<ChannelId>, fleet: Fleet, calls: seq<Npa>, cap: nat) {
    forall c: nat :: c < |calls| ==>
                       && Turns(schedule, c) >= 12 * |Asked(fleet, calls, c)| + 3
                       && (CameBackEmpty(Run(s, schedule, cap), c) ==>
                             Turns(schedule, SpareOf(calls, c)) >= 12 * |fleet.overflow| + 3)
  }

  /** Under any schedule with the dialplan's order and enough turns, every call of the day is answered. */
  lemma EveryCallIsAnswered(s: State, schedule: seq<ChannelId>, fleet: Fleet, calls: seq<Npa>, day: string, cap: nat)
    requires Initial(s) && Calling(s, fleet, calls, day)
    requires OwnFirst(s, schedule, calls, cap) && Patient(s, schedule, fleet, calls, cap)
    ensures AllAnswered(Run(s, schedule, cap), calls)
  {
    var t := Run(s, schedule, cap);
    OwnFirstKeepsSparesWaiting(s, schedule, calls, cap);
    ChannelsKeepTheirPools(s, schedule, fleet, calls, day, cap);
    forall c: nat | c < |calls|
      ensures c in t.frames && SpareOf(calls, c) in t.frames && Answered(t.frames[c], t.frames[SpareOf(calls, c)])
    {
      PickTerminates(s, schedule, cap, c);
      if CameBackEmpty(t, c) {
        PickTerminates(s, schedule, cap, SpareOf(calls, c));
      }
    }
  }

  ghost function DayOf(t: State, calls: seq<Npa>, day: string): DayLog
    requires AllAnswered(t, calls)
  {
    LogOf(t, calls, ReturnCounts(t, day))
  }

  /**
   However the picks of a day's calls interleave, the day is accounted for call by call, and within the cap
   if none timed out.
   */
  lemma EveryInterleavingIsAccounted(s: State, schedule: seq<ChannelId>, fleet: Fleet, calls: seq<Npa>, day: string,
                                     cap: nat)
    requires Initial(s) && Calling(s, fleet, calls, day) && OnePoolPerNpa(fleet.pools)
    requires AllAnswered(Run(s, schedule, cap), calls)
    ensures var t := Run(s, schedule, cap);
            && DayAccounted(fleet, calls, DayOf(t, calls, day), cap)
            && (Clean(t.log) ==> DayOk(fleet, calls, DayOf(t, calls, day), cap))
  {
    var t := Run(s, schedule, cap);
    var counts := ReturnCounts(t, day);
    RunIsFinished(s, schedule, fleet, calls, day, cap);
    forall npa ensures AreaAccounted(fleet, calls, LogOf(t, calls, counts), npa, cap) {
      FinishedAreaAccounted(t, fleet, calls, day, counts, cap, npa);
    }
    FinishedOverflowAccounted(t, fleet, calls, day, counts, cap);
  }

  /**
   Whatever the interleaving, timeouts and all: when no number is shared, at most the projected calls are left
   without a number. If none timed out, at least the projected calls are, whatever is shared.
   */
  lemma EveryInterleavingIsProjected(s: State, schedule: seq<ChannelId>, fleet: Fleet, calls: seq<Npa>, day: string,
                                     demand: seq<NpaDemand>, cap: nat)
    requires Initial(s) && Calling(s, fleet, calls, day) && OnePoolPerNpa(fleet.pools) && TotalsOf(demand, day, calls)
    requires AllAnswered(Run(s, schedule, cap), calls)
    ensures var refused := RefusedCalls(Outcomes(Run(s, schedule, cap), calls));
            var projected := Projected(demand, day, Sizes(fleet), |fleet.overflow|, cap);
            && (Unshared(fleet) ==> refused <= projected)
            && (Clean(Run(s, schedule, cap).log) ==> refused >= projected)
  {
    EveryInterleavingIsAccounted(s, schedule, fleet, calls, day, cap);
    AccountedIsProjected(fleet, demand, day, calls, DayOf(Run(s, schedule, cap), calls, day), cap);
  }

  /**
   Timeouts and all: in an unshared fleet the calls left without a number are exactly the projection if and only
   if none is projected or no pool handed out more than its numbers at the cap.
   */
  lemma ProjectedIffNoPoolOverdrawn(s: State, schedule: seq<ChannelId>, fleet: Fleet, calls: seq<Npa>, day: string,
                                    demand: seq<NpaDemand>, cap: nat)
    requires Initial(s) && Calling(s, fleet, calls, day) && OnePoolPerNpa(fleet.pools) && Unshared(fleet)
    requires TotalsOf(demand, day, calls) && AllAnswered(Run(s, schedule, cap), calls)
    ensures var t := Run(s, schedule, cap);
            var projected := Projected(demand, day, Sizes(fleet), |fleet.overflow|, cap);
            RefusedCalls(Outcomes(t, calls)) == projected
            <==> projected == 0 || !(SomeAreaOverdrawn(fleet, demand, ReturnCounts(t, day), cap)
                                     || Overdrawn(fleet.overflow, ReturnCounts(t, day), cap))
  {
    EveryInterleavingIsAccounted(s, schedule, fleet, calls, day, cap);
    ProjectedIffNotOverdrawn(fleet, demand, day, calls, DayOf(Run(s, schedule, cap), calls, day), cap);
  }

  /**
   End to end with concurrent calls: take any interleaving without timeouts of a measured day's picks on the fleet
   before the plan, and any at all on the fleet its execution leaves. The second leaves no more calls without a number.
   */
  lemma ReallocationHelpsEveryInterleaving(i: Inputs, headroom: real, rules: Rules, pools: Pools,
                                           rows: seq<Planner.Entry>, was: State, first: seq<ChannelId>,
                                           now: State, second: seq<ChannelId>, day: string, calls: seq<Npa>)
    requires Reported(i, headroom) && headroom >= -20.0 && SameBox(i, rules, pools)
    requires Unshared(FleetOf(i.recs, pools)) && multiset(rows) == multiset(i.FinalPlan())
    requires day in i.days && TotalsOf(i.demand, day, calls)
    requires Initial(was) && Calling(was, FleetOf(i.recs, pools), calls, day)
    requires Initial(now) && Calling(now, FleetOf(i.recs, Executed(rules, pools, rows).pools), calls, day)
    requires Clean(Run(was, first, i.cap).log) && AllAnswered(Run(was, first, i.cap), calls)
    requires AllAnswered(Run(now, second, i.cap), calls)
    ensures NoWorse(i, Executed(rules, pools, rows), DayOf(Run(was, first, i.cap), calls, day),
                    DayOf(Run(now, second, i.cap), calls, day))
  {
    var earlier, later := FleetOf(i.recs, pools), FleetOf(i.recs, Executed(rules, pools, rows).pools);
    assert OnePoolPerNpa(earlier.pools) && OnePoolPerNpa(later.pools);
    EveryInterleavingIsAccounted(was, first, earlier, calls, day, i.cap);
    EveryInterleavingIsAccounted(now, second, later, calls, day, i.cap);
    AnyAccountedDay(i, headroom, rules, pools, rows, DayOf(Run(was, first, i.cap), calls, day),
                    DayOf(Run(now, second, i.cap), calls, day), day, calls);
  }
}
