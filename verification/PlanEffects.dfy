/** What applying a reallocation plan does to pools, to the fleet and to projected refusals. */
module PlanEffects {
  import opened Common
  import opened Numbers
  import opened Projection
  import opened Refusals
  import opened Sorting
  import opened Planner

  // ---- Pool sizes after the plan ----

  lemma {:induction false} TakenSize(sizes: map<Npa, int>, from: seq<Share>, x: Npa)
    ensures Size(Taken(sizes, from), x) == Size(sizes, x) - DrawnFrom(from, Area(x))
    decreases |from|
  {
    if from != [] {
      var next := match from[0].source
        case OverflowPool => sizes
        case Area(npa) => sizes[npa := Size(sizes, npa) - from[0].n];
      TakenSize(next, from[1..], x);
    }
  }

  lemma {:induction false} SettledSize(sizes: map<Npa, int>, plan: seq<Entry>, x: Npa)
    ensures Size(SettledSizes(sizes, plan), x) == Size(sizes, x) + Received(plan, x) - GivenBy(plan, Area(x))
    decreases |plan|
  {
    if plan != [] {
      var enlarged := sizes[plan[0].npa := Size(sizes, plan[0].npa) + plan[0].realloc];
      TakenSize(enlarged, plan[0].from, x);
      SettledSize(Taken(enlarged, plan[0].from), plan[1..], x);
    }
  }

  lemma {:induction false} EnlargedSize(sizes: map<Npa, int>, plan: seq<Entry>, x: Npa)
    ensures Size(Enlarged(sizes, plan), x) == Size(sizes, x) + Received(plan, x)
    decreases |plan|
  {
    if plan != [] {
      EnlargedSize(sizes[plan[0].npa := Size(sizes, plan[0].npa) + plan[0].realloc], plan[1..], x);
    }
  }

  predicate DistinctRecs(recs: seq<Rec>) {
    forall i, j :: 0 <= i < j < |recs| ==> recs[i].npa != recs[j].npa
  }

  lemma {:induction false} BaseSize(recs: seq<Rec>, r: Rec)
    requires DistinctRecs(recs) && r in recs
    ensures Size(Base(recs), r.npa) == r.poolSize
    decreases |recs|
  {
    var front, last := recs[..|recs| - 1], recs[|recs| - 1];
    if r != last {
      assert r in front;
      BaseSize(front, r);
    }
  }

  // ---- Who can give how much ----

  lemma {:induction false} AvailJoins(a: seq<Donor>, b: seq<Donor>, s: PoolKey)
    ensures AvailFrom(a + b, s) == AvailFrom(a, s) + AvailFrom(b, s)
    ensures Avail(a + b) == Avail(a) + Avail(b)
    decreases |a|
  {
    if a == [] {
      assert a + b == b;
    } else {
      AvailJoins(a[1..], b, s);
      assert (a + b)[1..] == a[1..] + b;
    }
  }

  lemma {:induction false} InsertKeepsAvail(x: Donor, xs: seq<Donor>, le: (Donor, Donor) -> bool, s: PoolKey)
    ensures AvailFrom(Insert(x, xs, le), s) == AvailFrom(xs + [x], s)
    ensures Avail(Insert(x, xs, le)) == Avail(xs + [x])
    decreases |xs|
  {
    if xs == [] {
      assert xs + [x] == [x];
    } else {
      var front, last := xs[..|xs| - 1], xs[|xs| - 1];
      InsertKeepsAvail(x, front, le, s);
      AvailJoins(Insert(x, front, le), [last], s);
      AvailJoins(front, [x], s);
      AvailJoins(front, [last], s);
      AvailJoins(xs, [x], s);
      assert xs == front + [last];
    }
  }

  lemma {:induction false} SortKeepsAvail(xs: seq<Donor>, le: (Donor, Donor) -> bool, s: PoolKey)
    ensures AvailFrom(Sort(xs, le), s) == AvailFrom(xs, s) && Avail(Sort(xs, le)) == Avail(xs)
    decreases |xs|
  {
    if xs != [] {
      var front, last := xs[..|xs| - 1], xs[|xs| - 1];
      SortKeepsAvail(front, le, s);
      InsertKeepsAvail(last, Sort(front, le), le, s);
      AvailJoins(Sort(front, le), [last], s);
      AvailJoins(front, [last], s);
      assert xs == front + [last];
    }
  }

  lemma {:induction false} NpaDonorsAvail(recs: seq<Rec>, r: Rec)
    requires DistinctRecs(recs)
    ensures r in recs ==> AvailFrom(NpaDonors(recs), Area(r.npa)) == Max(0, Surplus(r))
    ensures (forall q :: q in recs ==> q.npa != r.npa) ==> AvailFrom(NpaDonors(recs), Area(r.npa)) == 0
    ensures AvailFrom(NpaDonors(recs), OverflowPool) == 0
    decreases |recs|
  {
    if recs != [] {
      var front, last := recs[..|recs| - 1], recs[|recs| - 1];
      var tail := if Surplus(last) > 0 then [Donor(Area(last.npa), Surplus(last))] else [];
      NpaDonorsAvail(front, r);
      AvailJoins(NpaDonors(front), tail, Area(r.npa));
      AvailJoins(NpaDonors(front), tail, OverflowPool);
      assert recs == front + [last];
      if r == last {
        assert forall q :: q in front ==> q.npa != r.npa;
      }
    }
  }

  /** The inputs of one planning run. */
  datatype Inputs = Inputs(demand: seq<NpaDemand>, days: seq<Day>, recs: seq<Rec>, overflow: nat,
                           cap: nat, overflowMin: nat, priority: seq<Npa>)
  {
    function Donors(): seq<Donor>
      requires cap > 0
    {
      AllDonors(demand, days, recs, overflow, cap, overflowMin, priority)
    }

    function FirstPlan(): seq<Entry> {
      Allot(ShortList(recs, priority), FirstDonors(recs), priority)
    }

    function FinalPlan(): seq<Entry>
      requires cap > 0
    {
      Plan(demand, days, recs, overflow, cap, overflowMin, priority)
    }

    function SizesBefore(): map<Npa, int> {
      Base(recs)
    }

    function SizesAfter(): map<Npa, int>
      requires cap > 0
    {
      SettledSizes(Base(recs), FinalPlan())
    }

    function OverflowAfter(): nat
      requires cap > 0
    {
      Max(overflow - GivenBy(FinalPlan(), OverflowPool), 0)
    }

    function Spare(): nat
      requires cap > 0
    {
      OverflowSurplus(demand, days, recs, overflow, cap, overflowMin, priority)
    }
  }

  lemma FirstAvail(recs: seq<Rec>, r: Rec)
    requires DistinctRecs(recs) && r in recs
    ensures AvailFrom(FirstDonors(recs), Area(r.npa)) == Max(0, Surplus(r))
    ensures AvailFrom(FirstDonors(recs), OverflowPool) == 0
  {
    SortKeepsAvail(NpaDonors(recs), MoreSurplusFirst, Area(r.npa));
    SortKeepsAvail(NpaDonors(recs), MoreSurplusFirst, OverflowPool);
    NpaDonorsAvail(recs, r);
  }

  lemma SpareJoins(donors: seq<Donor>, spare: nat, key: PoolKey)
    ensures var all := donors + if spare > 0 then [Donor(OverflowPool, spare)] else [];
            && AvailFrom(all, key) == AvailFrom(donors, key) + (if key == OverflowPool then spare else 0)
            && Avail(donors) <= Avail(all)
  {
    AvailJoins(donors, if spare > 0 then [Donor(OverflowPool, spare)] else [], key);
  }

  lemma DonorsAvail(i: Inputs, r: Rec)
    requires i.cap > 0 && DistinctRecs(i.recs) && r in i.recs
    ensures AvailFrom(i.Donors(), Area(r.npa)) == Max(0, Surplus(r))
    ensures AvailFrom(i.Donors(), OverflowPool) == i.Spare()
    ensures Avail(FirstDonors(i.recs)) <= Avail(i.Donors())
  {
    FirstAvail(i.recs, r);
    SpareJoins(FirstDonors(i.recs), i.Spare(), Area(r.npa));
    SpareJoins(FirstDonors(i.recs), i.Spare(), OverflowPool);
  }

  /** No donor is drawn below what it must keep, and no area shrinks unless it is a donor. */
  lemma AreaAfterPlan(i: Inputs, r: Rec)
    requires i.cap > 0 && DistinctRecs(i.recs) && r in i.recs
    ensures Surplus(r) > 0 ==> Size(i.SizesAfter(), r.npa) >= DonorRetain(r.need)
    ensures Surplus(r) <= 0 ==>
              Size(i.SizesAfter(), r.npa) >= Size(Enlarged(Base(i.recs), i.FirstPlan()), r.npa) >= r.poolSize
    ensures Size(i.SizesBefore(), r.npa) == r.poolSize
  {
    var short := ShortList(i.recs, i.priority);
    BaseSize(i.recs, r);
    SettledSize(Base(i.recs), i.FinalPlan(), r.npa);
    EnlargedSize(Base(i.recs), i.FirstPlan(), r.npa);
    DonorsAvail(i, r);
    AllotCovers(short, i.Donors(), i.priority);
    assert GivenBy(i.FinalPlan(), Area(r.npa)) <= AvailFrom(i.Donors(), Area(r.npa));
    MoreSurplusGivesMore(short, FirstDonors(i.recs), i.Donors(), i.priority, r.npa);
  }

  // ---- Projected refusals ----

  /** `p` is the busiest day's demand; zero if there is none. */
  ghost predicate IsPeak(p: nat, perDay: map<Day, nat>) {
    && (forall day :: day in perDay ==> perDay[day] <= p)
    && (p == 0 || exists day :: day in perDay && perDay[day] == p)
  }

  /** The report's records: one per NPA with demand or a pool, need derived from its own peak. */
  ghost predicate Reported(i: Inputs, headroom: real) {
    && i.cap > 0
    && DistinctRecs(i.recs)
    && DistinctNpas(i.demand)
    && (forall r :: r in i.recs ==> r.need == NeededDids(r.peak, i.cap, headroom))
    && (forall d :: d in i.demand ==> exists r :: r in i.recs && r.npa == d.npa && IsPeak(r.peak, d.perDay))
  }

  lemma ScaleBy(x: real, y: real, k: real)
    requires x <= y && k >= 0.0
    ensures x * k <= y * k
  {
  }

  lemma LoadTimesCap(peak: nat, cap: nat, factor: real)
    requires cap > 0
    ensures Load(peak, cap, factor) * cap as real == peak as real * factor
  {
  }

  lemma QuarterOut(x: real, y: real)
    ensures (x * 1.25) * y == (x * y) * 1.25
  {
  }

  lemma ProductOfWholes(m: int, n: int)
    ensures (m * n) as real == m as real * n as real
  {
  }

  /** Over reals: a quarter more than a load sized at four fifths of the peak carries the peak. */
  lemma QuarterCarries(peak: real, cap: real, factor: real, load: real, need: real, keep: real)
    requires cap > 0.0 && factor >= 0.8 && peak >= 0.0
    requires load * cap == peak * factor && need >= load && keep >= need * 1.25
    ensures keep * cap >= peak
  {
    ScaleBy(load, need, cap);
    ScaleBy(0.8, factor, peak);
    ScaleBy(need * 1.25, keep, cap);
    QuarterOut(need, cap);
  }

  lemma QuarterMore(peak: nat, cap: nat, factor: real, need: int, keep: int)
    requires cap > 0 && factor >= 0.8
    requires need as real >= Load(peak, cap, factor) && keep as real >= need as real * 1.25
    ensures keep * cap >= peak
  {
    LoadTimesCap(peak, cap, factor);
    QuarterCarries(peak as real, cap as real, factor, Load(peak, cap, factor), need as real, keep as real);
    ProductOfWholes(keep, cap);
  }

  /** A donor's retention carries its own peak unless headroom is below -20 percent. */
  lemma RetentionCarriesPeak(peak: nat, cap: nat, headroom: real)
    requires cap > 0 && headroom >= -20.0
    ensures DonorRetain(NeededDids(peak, cap, headroom)) * cap >= peak
  {
    var need := NeededDids(peak, cap, headroom);
    if peak > 0 {
      QuarterMore(peak, cap, Factor(headroom), need, DonorRetain(need));
    } else {
      BiggerPoolCarriesMore(0, DonorRetain(need), cap);
    }
  }

  lemma SignOfFactor(x: real, y: real)
    requires y > 0.0 && x * y <= 0.0
    ensures x <= 0.0
  {
  }

  lemma NoLoad(peak: nat, cap: nat, factor: real)
    requires cap > 0 && factor <= 0.0
    ensures Load(peak, cap, factor) <= 0.0
  {
    LoadTimesCap(peak, cap, factor);
    ScaleBy(factor, 0.0, peak as real);
    SignOfFactor(Load(peak, cap, factor), cap as real);
  }

  lemma BiggerPoolCarriesMore(small: int, big: int, cap: nat)
    requires small <= big
    ensures small * cap <= big * cap
  {
    assert big * cap - small * cap == (big - small) * cap;
    assert (big - small) * cap >= 0;
  }

  lemma SmallerExcess(d: NpaDemand, day: Day, fewer: map<Npa, int>, more: map<Npa, int>, cap: nat)
    requires Size(fewer, d.npa) <= Size(more, d.npa) || On(d, day) <= Size(more, d.npa) * cap
    ensures Excess(d, day, more, cap) <= Excess(d, day, fewer, cap)
  {
    if Size(fewer, d.npa) <= Size(more, d.npa) {
      BiggerPoolCarriesMore(Size(fewer, d.npa), Size(more, d.npa), cap);
    }
  }

  lemma {:induction false} SmallerSpill(demand: seq<NpaDemand>, day: Day, fewer: map<Npa, int>, more: map<Npa, int>,
                                        cap: nat)
    requires forall d :: d in demand ==>
               Size(fewer, d.npa) <= Size(more, d.npa) || On(d, day) <= Size(more, d.npa) * cap
    ensures Spill(demand, day, more, cap) <= Spill(demand, day, fewer, cap)
    decreases |demand|
  {
    if demand != [] {
      assert forall d :: d in demand[..|demand| - 1] ==> d in demand;
      SmallerSpill(demand[..|demand| - 1], day, fewer, more, cap);
      SmallerExcess(demand[|demand| - 1], day, fewer, more, cap);
    }
  }

  /** Every area ends with at least what it had, at least what overflow's need assumed, or enough for its own peak. */
  lemma EnoughEverywhere(i: Inputs, headroom: real, d: NpaDemand, day: Day)
    requires Reported(i, headroom) && headroom >= -20.0 && d in i.demand
    ensures Size(i.SizesBefore(), d.npa) <= Size(i.SizesAfter(), d.npa)
            || On(d, day) <= Size(i.SizesAfter(), d.npa) * i.cap
    ensures Size(Enlarged(Base(i.recs), i.FirstPlan()), d.npa) <= Size(i.SizesAfter(), d.npa)
            || On(d, day) <= Size(i.SizesAfter(), d.npa) * i.cap
  {
    var r :| r in i.recs && r.npa == d.npa && IsPeak(r.peak, d.perDay);
    AreaAfterPlan(i, r);
    if Surplus(r) > 0 {
      RetentionCarriesPeak(r.peak, i.cap, headroom);
      BiggerPoolCarriesMore(DonorRetain(r.need), Size(i.SizesAfter(), d.npa), i.cap);
    }
  }

  lemma {:induction false} WorstIsWorst(demand: seq<NpaDemand>, days: seq<Day>, sizes: map<Npa, int>, cap: nat,
                                        day: Day)
    requires day in days
    ensures Spill(demand, day, sizes, cap) <= WorstSpill(demand, days, sizes, cap)
    decreases |days|
  {
    if day != days[|days| - 1] {
      assert day in days[..|days| - 1];
      WorstIsWorst(demand, days[..|days| - 1], sizes, cap, day);
    }
  }

  lemma CeilCovers(worst: nat, cap: nat)
    requires cap > 0
    ensures Ceil(worst as real / cap as real) * cap >= worst
  {
    var c := Ceil(worst as real / cap as real);
    ScaleBy(worst as real / cap as real, c as real, cap as real);
    assert (c * cap) as real == c as real * cap as real;
  }

  /** Overflow is never drawn below its measured need, unless it started there. */
  lemma OverflowKeepsItsNeed(i: Inputs)
    requires i.cap > 0 && DistinctRecs(i.recs)
    ensures i.OverflowAfter() == i.overflow - GivenBy(i.FinalPlan(), OverflowPool)
    ensures GivenBy(i.FinalPlan(), OverflowPool) > 0 ==>
              i.OverflowAfter() >= OverflowNeed(i.demand, i.days, i.recs, i.FirstPlan(), i.cap, i.overflowMin)
  {
    var r := Rec("", 0, 0, 0);
    AllotCovers(ShortList(i.recs, i.priority), i.Donors(), i.priority);
    var tail := if i.Spare() > 0 then [Donor(OverflowPool, i.Spare())] else [];
    SortKeepsAvail(NpaDonors(i.recs), MoreSurplusFirst, OverflowPool);
    NpaDonorsAvail(i.recs, r);
    AvailJoins(FirstDonors(i.recs), tail, OverflowPool);
    assert GivenBy(i.FinalPlan(), OverflowPool) <= AvailFrom(i.Donors(), OverflowPool);
  }

  function RefusedBefore(i: Inputs, day: Day): nat {
    Projected(i.demand, day, i.SizesBefore(), i.overflow, i.cap)
  }

  function RefusedAfter(i: Inputs, day: Day): nat
    requires i.cap > 0
  {
    Projected(i.demand, day, i.SizesAfter(), i.OverflowAfter(), i.cap)
  }

  /** If overflow gives up even one number, nothing is projected refused on any measured day. */
  lemma OverflowGivesOnlyWhatIsIdle(i: Inputs, headroom: real, day: Day)
    requires Reported(i, headroom) && headroom >= -20.0 && day in i.days
    requires GivenBy(i.FinalPlan(), OverflowPool) > 0
    ensures RefusedAfter(i, day) == 0
  {
    var first := Enlarged(Base(i.recs), i.FirstPlan());
    forall d | d in i.demand
      ensures Size(first, d.npa) <= Size(i.SizesAfter(), d.npa) || On(d, day) <= Size(i.SizesAfter(), d.npa) * i.cap
    {
      EnoughEverywhere(i, headroom, d, day);
    }
    SmallerSpill(i.demand, day, first, i.SizesAfter(), i.cap);
    WorstIsWorst(i.demand, i.days, first, i.cap, day);
    OverflowKeepsItsNeed(i);
    var worst := WorstSpill(i.demand, i.days, first, i.cap);
    CeilCovers(worst, i.cap);
    BiggerPoolCarriesMore(Ceil(worst as real / i.cap as real), i.OverflowAfter(), i.cap);
  }

  /** The plan never adds a projected refusal on any measured day. */
  lemma PlanNeverAddsRefusals(i: Inputs, headroom: real, day: Day)
    requires Reported(i, headroom) && headroom >= -20.0 && day in i.days
    ensures RefusedAfter(i, day) <= RefusedBefore(i, day)
  {
    OverflowKeepsItsNeed(i);
    if GivenBy(i.FinalPlan(), OverflowPool) > 0 {
      OverflowGivesOnlyWhatIsIdle(i, headroom, day);
    } else {
      forall d | d in i.demand
        ensures Size(i.SizesBefore(), d.npa) <= Size(i.SizesAfter(), d.npa)
                || On(d, day) <= Size(i.SizesAfter(), d.npa) * i.cap
      {
        EnoughEverywhere(i, headroom, d, day);
      }
      SmallerSpill(i.demand, day, i.SizesBefore(), i.SizesAfter(), i.cap);
    }
  }

  // ---- Exactly which headrooms are safe ----

  lemma HasMember(recs: seq<Rec>)
    requires recs != []
    ensures exists r :: r in recs
  {
    assert recs[0] in recs;
  }

  /** At or below -100 percent nothing is ever short, so nothing moves. */
  lemma NothingShort(i: Inputs, headroom: real)
    requires Reported(i, headroom) && headroom <= -100.0
    ensures i.FinalPlan() == []
  {
    forall r | r in i.recs ensures Shortfall(r) <= 0 {
      NoLoad(r.peak, i.cap, Factor(headroom));
    }
    if ShortList(i.recs, i.priority) != [] {
      HasMember(ShortList(i.recs, i.priority));
    }
  }

  /** A pool big enough that, sized with too little headroom, it gives away a number its busiest day uses. */
  function BigPool(factor: real): nat
    requires 0.0 < factor < 0.8
  {
    GapIsPositive(factor);
    Ceil(4.0 / (1.0 - 1.25 * factor)) + 1
  }

  lemma GapIsPositive(factor: real)
    requires 0.0 < factor < 0.8
    ensures 0.0 < 1.0 - 1.25 * factor < 1.0
    ensures 4.0 / (1.0 - 1.25 * factor) > 4.0
  {
    var gap := 1.0 - 1.25 * factor;
    assert 4.0 / gap * gap == 4.0;
    if 4.0 / gap <= 4.0 {
      ScaleBy(4.0 / gap, 4.0, gap);
    }
  }

  lemma BigPoolGap(factor: real)
    requires 0.0 < factor < 0.8
    ensures var n := BigPool(factor);
            Load(n, 1, factor) >= 0.0 && n as real - Load(n, 1, factor) * 1.25 >= 4.0
  {
    GapIsPositive(factor);
    var n, gap := BigPool(factor), 1.0 - 1.25 * factor;
    LoadTimesCap(n, 1, factor);
    ScaleBy(4.0 / gap, n as real, gap);
    ScaleBy(0.0, factor, n as real);
    assert n as real * gap == n as real - (n as real * factor) * 1.25;
  }

  lemma RetainsLess(n: nat, load: real)
    requires load >= 0.0 && n as real - load * 1.25 >= 4.0
    ensures DonorRetain(Ceil(load)) < n
  {
    var need := Ceil(load);
    assert (Ceil(need as real * 1.25) - 1) as real < need as real * 1.25;
  }

  lemma BigPoolRetainsLess(factor: real)
    requires 0.0 < factor < 0.8
    ensures var n := BigPool(factor); DonorRetain(Ceil(Load(n, 1, factor))) < n && Ceil(Load(n, 1, factor)) <= n
  {
    BigPoolGap(factor);
    RetainsLess(BigPool(factor), Load(BigPool(factor), 1, factor));
  }

  /** Two areas: the big one is busy on one day, the other on another, and overflow is empty. */
  function Undersized(factor: real): Inputs
    requires 0.0 < factor < 0.8
  {
    TwoAreas(BigPool(factor), Ceil(Load(BigPool(factor), 1, factor)))
  }

  function TwoAreas(n: nat, need: int): Inputs {
    Inputs([NpaDemand("201", map["d1" := n]), NpaDemand("202", map["d2" := 1])], ["d1", "d2"],
           [Rec("201", n, n, need), Rec("202", 0, 1, 1)], 0, 1, 0, [])
  }

  lemma UndersizedIsReported(headroom: real)
    requires -100.0 < headroom < -20.0
    ensures Reported(Undersized(Factor(headroom)), headroom)
  {
    var factor := Factor(headroom);
    var i := Undersized(factor);
    BigPoolRetainsLess(factor);
    LoadTimesCap(1, 1, factor);
    assert Load(1, 1, factor) == factor;
    assert i.recs[0] in i.recs && i.recs[1] in i.recs;
    var n := BigPool(factor);
    assert IsPeak(n, map["d1" := n]) by {
      assert "d1" in map["d1" := n];
    }
    assert IsPeak(1, map["d2" := 1]) by {
      assert "d2" in map["d2" := 1];
    }
  }

  lemma TwoAreaShort(a: Rec, b: Rec)
    requires Shortfall(a) <= 0 && Shortfall(b) >= 1
    ensures ShortRecs([a, b]) == [b]
  {
    assert [a, b][..1] == [a] && [a][..0] == [];
    assert ShortRecs([a]) == [];
  }

  lemma TwoAreaDonors(a: Rec, b: Rec)
    requires Surplus(a) >= 1 && Surplus(b) <= 0
    ensures NpaDonors([a, b]) == [Donor(Area(a.npa), Surplus(a))]
  {
    assert [a, b][..1] == [a] && [a][..0] == [];
    assert NpaDonors([a]) == [Donor(Area(a.npa), Surplus(a))];
  }

  lemma SortOne<T>(x: T, before: (T, T) -> bool)
    ensures Sort([x], before) == [x]
  {
    assert [x][..0] == [];
  }

  lemma TwoAreaLists(i: Inputs, a: Rec, b: Rec)
    requires i.recs == [a, b] && i.priority == []
    requires Surplus(a) >= 1 && Shortfall(a) <= 0 && Surplus(b) <= 0 && Shortfall(b) == 1
    ensures ShortList(i.recs, i.priority) == [b] && FirstDonors(i.recs) == [Donor(Area(a.npa), Surplus(a))]
  {
    TwoAreaShort(a, b);
    TwoAreaDonors(a, b);
    SortOne(b, ShortOrder([]));
    SortOne(Donor(Area(a.npa), Surplus(a)), MoreSurplusFirst);
  }

  lemma TwoAreaPlan(i: Inputs, a: Rec, b: Rec)
    requires i.recs == [a, b] && i.priority == [] && i.cap > 0 && i.overflow == 0
    requires Surplus(a) >= 1 && Shortfall(a) <= 0 && Surplus(b) <= 0 && Shortfall(b) == 1
    ensures i.FinalPlan() == [Entry(b.npa, 1, 0, [Share(Area(a.npa), 1)], false)]
  {
    TwoAreaLists(i, a, b);
    var d := Donor(Area(a.npa), Surplus(a));
    assert i.Spare() == 0;
    assert i.Donors() == [d];
    var from := [Share(Area(a.npa), 1)];
    var left := [d.(avail := d.avail - 1)];
    assert [d][1..] == [] && Draw(left, 0) == ([], left);
    assert left + [d][1..] == left && from + [] == from;
    assert Draw([d], 1) == (from, left);
    assert from[1..] == [] && Drawn(from) == 1;
    assert [b][1..] == [];
    assert Allot([b], [d], []) == [Entry(b.npa, 1, 0, from, false)];
  }

  lemma TwoAreasPlanned(n: nat, need: int)
    requires 0 <= need <= n && DonorRetain(need) < n
    ensures TwoAreas(n, need).FinalPlan() == [Entry("202", 1, 0, [Share(Area("201"), 1)], false)]
  {
    var i := TwoAreas(n, need);
    TwoAreaPlan(i, i.recs[0], i.recs[1]);
  }

  lemma OneShare(plan: seq<Entry>)
    requires plan == [Entry("202", 1, 0, [Share(Area("201"), 1)], false)]
    ensures Received(plan, "201") == 0 && GivenBy(plan, Area("201")) == 1 && GivenBy(plan, OverflowPool) == 0
  {
    assert plan[1..] == [] && plan[0].from[1..] == [];
  }

  lemma TwoAreasSizes(n: nat, need: int)
    requires 0 <= need <= n && DonorRetain(need) < n
    ensures var i := TwoAreas(n, need);
            Size(i.SizesBefore(), "201") == n && Size(i.SizesAfter(), "201") == n - 1 && i.OverflowAfter() == 0
  {
    var i := TwoAreas(n, need);
    TwoAreasPlanned(n, need);
    OneShare(i.FinalPlan());
    BaseSize(i.recs, i.recs[0]);
    SettledSize(Base(i.recs), i.FinalPlan(), "201");
  }

  lemma OneAreaSpill(a: NpaDemand, day: Day, sizes: map<Npa, int>, cap: nat)
    ensures Spill([a], day, sizes, cap) == Excess(a, day, sizes, cap)
  {
    assert [a][..0] == [];
  }

  lemma TwoAreaSpill(a: NpaDemand, b: NpaDemand, day: Day, sizes: map<Npa, int>, cap: nat)
    ensures Spill([a, b], day, sizes, cap) == Excess(a, day, sizes, cap) + Excess(b, day, sizes, cap)
  {
    assert [a, b][..1] == [a];
    OneAreaSpill(a, day, sizes, cap);
  }

  /** On the busy day of the big area one call is refused that was not before. */
  lemma TwoAreasRefuse(n: nat, need: int)
    requires 0 <= need <= n && DonorRetain(need) < n
    ensures var i := TwoAreas(n, need); RefusedBefore(i, "d1") == 0 && RefusedAfter(i, "d1") == 1
  {
    var i := TwoAreas(n, need);
    TwoAreasSizes(n, need);
    TwoAreaSpill(i.demand[0], i.demand[1], "d1", i.SizesBefore(), 1);
    TwoAreaSpill(i.demand[0], i.demand[1], "d1", i.SizesAfter(), 1);
    assert On(i.demand[0], "d1") == n && On(i.demand[1], "d1") == 0;
  }

  /** With headroom strictly between -100 and -20 percent the plan can add refusals. */
  lemma TooLittleHeadroomAddsRefusals(headroom: real)
    requires -100.0 < headroom < -20.0
    ensures var i := Undersized(Factor(headroom));
            Reported(i, headroom) && "d1" in i.days && RefusedBefore(i, "d1") == 0 && RefusedAfter(i, "d1") == 1
  {
    var factor := Factor(headroom);
    UndersizedIsReported(headroom);
    BigPoolRetainsLess(factor);
    TwoAreasRefuse(BigPool(factor), Ceil(Load(BigPool(factor), 1, factor)));
  }

  /**
   The plan never adds a projected refusal, on any report sized with this headroom, if and only if
   the headroom is at least -20 percent or at most -100 percent.
   */
  lemma SafeHeadrooms(headroom: real)
    ensures (headroom >= -20.0 || headroom <= -100.0) <==>
            forall i: Inputs, day: Day :: Reported(i, headroom) && day in i.days ==>
              RefusedAfter(i, day) <= RefusedBefore(i, day)
  {
    if headroom >= -20.0 {
      forall i: Inputs, day: Day | Reported(i, headroom) && day in i.days
        ensures RefusedAfter(i, day) <= RefusedBefore(i, day)
      {
        PlanNeverAddsRefusals(i, headroom, day);
      }
    } else if headroom <= -100.0 {
      forall i: Inputs, day: Day | Reported(i, headroom) && day in i.days
        ensures RefusedAfter(i, day) <= RefusedBefore(i, day)
      {
        NothingShort(i, headroom);
      }
    } else {
      TooLittleHeadroomAddsRefusals(headroom);
    }
  }

  // ---- Coverage and conservation ----

  function TotalSurplus(recs: seq<Rec>): nat {
    if recs == [] then 0 else TotalSurplus(recs[..|recs| - 1]) + Max(0, Surplus(recs[|recs| - 1]))
  }

  lemma {:induction false} DonorsHoldTheSurplus(recs: seq<Rec>)
    ensures Avail(NpaDonors(recs)) == TotalSurplus(recs)
    decreases |recs|
  {
    if recs != [] {
      var front, last := recs[..|recs| - 1], recs[|recs| - 1];
      DonorsHoldTheSurplus(front);
      AvailJoins(NpaDonors(front), if Surplus(last) > 0 then [Donor(Area(last.npa), Surplus(last))] else [],
                 OverflowPool);
    }
  }

  lemma DonorsTotal(i: Inputs)
    requires i.cap > 0
    ensures Avail(i.Donors()) == TotalSurplus(i.recs) + i.Spare()
  {
    var tail := if i.Spare() > 0 then [Donor(OverflowPool, i.Spare())] else [];
    assert i.Donors() == FirstDonors(i.recs) + tail;
    assert Avail(tail) == i.Spare();
    SortKeepsAvail(NpaDonors(i.recs), MoreSurplusFirst, OverflowPool);
    DonorsHoldTheSurplus(i.recs);
    AvailJoins(FirstDonors(i.recs), tail, OverflowPool);
  }

  /** The plan moves exactly the lesser of what is short and what can be spared, and the rest is the purchase. */
  lemma PlanCovers(i: Inputs)
    requires i.cap > 0
    ensures var short, plan := ShortList(i.recs, i.priority), i.FinalPlan();
            && Moved(plan) == Min(TotalShort(short), TotalSurplus(i.recs) + i.Spare())
            && |plan| == |short|
            && forall k :: 0 <= k < |plan| ==>
                 plan[k].npa == short[k].npa && plan[k].buy >= 0
                 && plan[k].realloc + plan[k].buy == short[k].need - short[k].poolSize
  {
    DonorsTotal(i);
    CoversInFull(ShortList(i.recs, i.priority), i.Donors(), i.priority);
  }

  lemma CoversInFull(short: seq<Rec>, donors: seq<Donor>, priority: seq<Npa>)
    requires forall r :: r in short ==> Shortfall(r) > 0
    ensures var plan := Allot(short, donors, priority);
            && Moved(plan) == Min(TotalShort(short), Avail(donors))
            && |plan| == |short|
            && forall k :: 0 <= k < |plan| ==>
                 plan[k].npa == short[k].npa && plan[k].buy >= 0
                 && plan[k].realloc + plan[k].buy == short[k].need - short[k].poolSize
  {
    AllotCovers(short, donors, priority);
  }

  predicate KnownSource(recs: seq<Rec>, s: PoolKey) {
    s.OverflowPool? || exists r :: r in recs && Area(r.npa) == s
  }

  predicate KnownDonors(recs: seq<Rec>, donors: seq<Donor>) {
    forall d :: d in donors ==> KnownSource(recs, d.source)
  }

  lemma {:induction false} DrawKnown(recs: seq<Rec>, donors: seq<Donor>, want: nat)
    requires KnownDonors(recs, donors)
    ensures var (from, rest) := Draw(donors, want);
            KnownDonors(recs, rest) && forall s :: s in from ==> KnownSource(recs, s.source)
    decreases |donors|, want
  {
    if want > 0 && donors != [] {
      if donors[0].avail == 0 {
        DrawKnown(recs, donors[1..], want);
      } else {
        var take := Min(donors[0].avail, want);
        DrawKnown(recs, [donors[0].(avail := donors[0].avail - take)] + donors[1..], want - take);
      }
    }
  }

  ghost predicate KnownPlan(recs: seq<Rec>, plan: seq<Entry>) {
    forall e :: e in plan ==>
      && (exists r :: r in recs && r.npa == e.npa)
      && e.realloc == Drawn(e.from)
      && (forall s :: s in e.from ==> KnownSource(recs, s.source))
  }

  lemma {:induction false} AllotKnown(recs: seq<Rec>, short: seq<Rec>, donors: seq<Donor>, priority: seq<Npa>)
    requires forall r :: r in short ==> r in recs && Shortfall(r) > 0
    requires KnownDonors(recs, donors)
    ensures KnownPlan(recs, Allot(short, donors, priority))
    decreases |short|
  {
    if short != [] {
      DrawKnown(recs, donors, Shortfall(short[0]));
      AllotKnown(recs, short[1..], Draw(donors, Shortfall(short[0])).1, priority);
    }
  }

  lemma {:induction false} NpaDonorsKnown(all: seq<Rec>, recs: seq<Rec>)
    requires forall r :: r in recs ==> r in all
    ensures KnownDonors(all, NpaDonors(recs))
    decreases |recs|
  {
    if recs != [] {
      assert forall r :: r in recs[..|recs| - 1] ==> r in recs;
      NpaDonorsKnown(all, recs[..|recs| - 1]);
    }
  }

  lemma PlanKnown(i: Inputs)
    requires i.cap > 0
    ensures KnownPlan(i.recs, i.FinalPlan())
  {
    NpaDonorsKnown(i.recs, i.recs);
    SortMembers(NpaDonors(i.recs), MoreSurplusFirst);
    AllotKnown(i.recs, ShortList(i.recs, i.priority), i.Donors(), i.priority);
  }

  function SumSizes(recs: seq<Rec>, sizes: map<Npa, int>): int {
    if recs == [] then 0 else SumSizes(recs[..|recs| - 1], sizes) + Size(sizes, recs[|recs| - 1].npa)
  }

  lemma {:induction false} SumAfterUpdate(recs: seq<Rec>, sizes: map<Npa, int>, npa: Npa, v: int)
    requires DistinctRecs(recs)
    ensures SumSizes(recs, sizes[npa := v]) == SumSizes(recs, sizes)
              + if exists r :: r in recs && r.npa == npa then v - Size(sizes, npa) else 0
    decreases |recs|
  {
    if recs != [] {
      var front, last := recs[..|recs| - 1], recs[|recs| - 1];
      SumAfterUpdate(front, sizes, npa, v);
      assert recs == front + [last];
    }
  }

  lemma {:induction false} TakenSum(recs: seq<Rec>, sizes: map<Npa, int>, from: seq<Share>)
    requires DistinctRecs(recs) && forall s :: s in from ==> KnownSource(recs, s.source)
    ensures SumSizes(recs, Taken(sizes, from)) == SumSizes(recs, sizes) - Drawn(from) + DrawnFrom(from, OverflowPool)
    decreases |from|
  {
    if from != [] {
      var next := match from[0].source
        case OverflowPool => sizes
        case Area(npa) => sizes[npa := Size(sizes, npa) - from[0].n];
      TakenSum(recs, next, from[1..]);
      assert KnownSource(recs, from[0].source);
      if from[0].source.Area? {
        SumAfterUpdate(recs, sizes, from[0].source.npa, Size(sizes, from[0].source.npa) - from[0].n);
      }
    }
  }

  lemma {:induction false} SettledSum(recs: seq<Rec>, sizes: map<Npa, int>, plan: seq<Entry>)
    requires DistinctRecs(recs) && KnownPlan(recs, plan)
    ensures SumSizes(recs, SettledSizes(sizes, plan)) == SumSizes(recs, sizes) + GivenBy(plan, OverflowPool)
    decreases |plan|
  {
    if plan != [] {
      var e := plan[0];
      var enlarged := sizes[e.npa := Size(sizes, e.npa) + e.realloc];
      SumAfterUpdate(recs, sizes, e.npa, Size(sizes, e.npa) + e.realloc);
      TakenSum(recs, enlarged, e.from);
      SettledSum(recs, Taken(enlarged, e.from), plan[1..]);
    }
  }

  /** Nothing is created or lost: the areas and overflow together hold as many numbers as before. */
  lemma FleetConserved(i: Inputs)
    requires i.cap > 0 && DistinctRecs(i.recs)
    ensures SumSizes(i.recs, i.SizesAfter()) + i.OverflowAfter() == SumSizes(i.recs, i.SizesBefore()) + i.overflow
  {
    PlanKnown(i);
    SettledSum(i.recs, Base(i.recs), i.FinalPlan());
    OverflowKeepsItsNeed(i);
  }
}
