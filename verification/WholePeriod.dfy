/** A report over several days: its totals are the calls of all of them and how many were refused. */
module WholePeriod {
  import opened DidRing
  import opened Projection
  import opened Refusals

  /** The days one after another: counters start fresh every day, rotors stand where the day before left them. */
  function PlaceDays(fleet: Fleet, rotors: map<PoolKey, nat>, days: seq<seq<Npa>>, cap: nat)
      : (seq<Outcome>, map<PoolKey, nat>)
    decreases |days|
  {
    if days == [] then ([], rotors)
    else
      var (before, stand) := PlaceDays(fleet, rotors, days[..|days| - 1], cap);
      var last := PlaceAll(fleet, stand, days[|days| - 1], cap);
      (before + last.outcomes, last.box.rotors)
  }

  lemma {:induction false} RefusedJoin(a: seq<Outcome>, b: seq<Outcome>)
    ensures RefusedCalls(a + b) == RefusedCalls(a) + RefusedCalls(b)
    decreases |b|
  {
    if b == [] {
      assert a + b == a;
    } else {
      assert (a + b)[..|a + b| - 1] == a + b[..|b| - 1];
      RefusedJoin(a, b[..|b| - 1]);
    }
  }

  function Counted(demand: seq<NpaDemand>, calls: seq<Npa>): nat {
    if demand == [] then 0
    else Counted(demand[..|demand| - 1], calls) + Count(calls, demand[|demand| - 1].npa)
  }

  lemma {:induction false} NothingCounted(demand: seq<NpaDemand>)
    ensures Counted(demand, []) == 0
    decreases |demand|
  {
    if demand != [] {
      NothingCounted(demand[..|demand| - 1]);
    }
  }

  ghost predicate HasRow(demand: seq<NpaDemand>, npa: Npa) {
    exists i :: 0 <= i < |demand| && demand[i].npa == npa
  }

  lemma RowOfMore(demand: seq<NpaDemand>, npa: Npa)
    requires demand != []
    ensures HasRow(demand, npa) <==> HasRow(demand[..|demand| - 1], npa) || demand[|demand| - 1].npa == npa
  {
    var front := demand[..|demand| - 1];
    if i :| 0 <= i < |front| && front[i].npa == npa {
      assert demand[i].npa == npa;
    }
    if i :| 0 <= i < |demand| && demand[i].npa == npa {
      assert i < |front| ==> front[i].npa == npa;
    }
  }

  /** One call more counts for the row of its area, and for no other. */
  lemma {:induction false} CountedOnce(demand: seq<NpaDemand>, calls: seq<Npa>, c: Npa)
    requires DistinctNpas(demand)
    ensures Counted(demand, calls + [c])
            == Counted(demand, calls) + if HasRow(demand, c) then 1 else 0
    decreases |demand|
  {
    if demand != [] {
      var front, last := demand[..|demand| - 1], demand[|demand| - 1];
      CountedOnce(front, calls, c);
      RowOfMore(demand, c);
      assert (calls + [c])[..|calls|] == calls;
      if HasRow(front, c) {
        var i :| 0 <= i < |front| && front[i].npa == c;
        assert demand[i].npa == c;
      }
    }
  }

  lemma {:induction false} EveryCallCounts(demand: seq<NpaDemand>, calls: seq<Npa>)
    requires DistinctNpas(demand)
    requires forall c :: c in calls ==> HasRow(demand, c)
    ensures Counted(demand, calls) == |calls|
    decreases |calls|
  {
    if calls == [] {
      NothingCounted(demand);
    } else {
      var front, last := calls[..|calls| - 1], calls[|calls| - 1];
      assert calls == front + [last];
      assert last in calls;
      EveryCallCounts(demand, front);
      CountedOnce(demand, front, last);
    }
  }

  lemma {:induction false} TotalIsCounted(demand: seq<NpaDemand>, day: Day, calls: seq<Npa>)
    requires forall i :: 0 <= i < |demand| ==> On(demand[i], day) == Count(calls, demand[i].npa)
    ensures TotalOn(demand, day) == Counted(demand, calls)
    decreases |demand|
  {
    if demand != [] {
      TotalIsCounted(demand[..|demand| - 1], day, calls);
    }
  }

  lemma OneDayIsExact(fleet: Fleet, rotors: map<PoolKey, nat>, demand: seq<NpaDemand>, date: Day, calls: seq<Npa>,
                      cap: nat)
    requires OnePoolPerNpa(fleet.pools) && Unshared(fleet) && TotalsOf(demand, date, calls)
    ensures var outcomes := PlaceAll(fleet, rotors, calls, cap).outcomes;
            && TotalOn(demand, date) == |outcomes|
            && Projected(demand, date, Sizes(fleet), |fleet.overflow|, cap) == RefusedCalls(outcomes)
  {
    TotalIsCounted(demand, date, calls);
    forall c | c in calls ensures HasRow(demand, c) {
    }
    EveryCallCounts(demand, calls);
    ProjectionIsExact(fleet, rotors, demand, date, calls, cap);
  }

  ghost predicate DatedTotals(demand: seq<NpaDemand>, dates: seq<Day>, days: seq<seq<Npa>>) {
    |dates| == |days| && forall i :: 0 <= i < |days| ==> TotalsOf(demand, dates[i], days[i])
  }

  /**
   On an unshared fleet the two totals of a report over any days, made from daily totals alone, are the number of
   calls of those days and the number refused, in whatever order the calls came and wherever the rotors stood.
   */
  lemma {:induction false} TheReportIsExact(fleet: Fleet, rotors: map<PoolKey, nat>, demand: seq<NpaDemand>,
                                            dates: seq<Day>, days: seq<seq<Npa>>, cap: nat)
    requires OnePoolPerNpa(fleet.pools) && Unshared(fleet) && DatedTotals(demand, dates, days)
    ensures var outcomes := PlaceDays(fleet, rotors, days, cap).0;
            && TotalDemand(demand, dates) == |outcomes|
            && TotalProjected(demand, dates, Sizes(fleet), |fleet.overflow|, cap) == RefusedCalls(outcomes)
    decreases |days|
  {
    if days != [] {
      var n := |days| - 1;
      TheReportIsExact(fleet, rotors, demand, dates[..n], days[..n], cap);
      var (before, stand) := PlaceDays(fleet, rotors, days[..n], cap);
      RefusedJoin(before, PlaceAll(fleet, stand, days[n], cap).outcomes);
      OneDayIsExact(fleet, stand, demand, dates[n], days[n], cap);
    }
  }
}
