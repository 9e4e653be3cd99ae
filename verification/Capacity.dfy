/** Planner, executor and dialplan together: what a reallocation does to the calls of a day. */
module Capacity {
  import opened DidRing
  import opened Projection
  import opened Refusals
  import opened Planner
  import opened PlanEffects
  import opened Reallocate

  // ---- Rows in any provision order total the same ----

  lemma {:induction false} TotalsJoin(a: seq<Entry>, b: seq<Entry>, s: PoolKey, npa: Npa)
    ensures GivenBy(a + b, s) == GivenBy(a, s) + GivenBy(b, s)
    ensures Received(a + b, npa) == Received(a, npa) + Received(b, npa)
    decreases |a|
  {
    if a == [] {
      assert a + b == b;
    } else {
      TotalsJoin(a[1..], b, s, npa);
      assert (a + b)[1..] == a[1..] + b;
    }
  }

  lemma TakeOut(rows: seq<Entry>, plan: seq<Entry>) returns (j: nat)
    requires rows != [] && multiset(rows) == multiset(plan)
    ensures j < |plan| && plan[j] == rows[0] && multiset(rows[1..]) == multiset(plan[..j] + plan[j + 1..])
  {
    assert rows[0] in multiset(plan);
    j :| 0 <= j < |plan| && plan[j] == rows[0];
    assert rows == [rows[0]] + rows[1..];
    assert plan == plan[..j] + ([rows[0]] + plan[j + 1..]);
    assert multiset(rows[1..]) == multiset(rows) - multiset{rows[0]};
    assert multiset(plan[..j] + plan[j + 1..]) == multiset(plan) - multiset{rows[0]};
  }

  lemma TotalsAround(plan: seq<Entry>, j: nat, s: PoolKey, npa: Npa)
    requires j < |plan|
    ensures GivenBy(plan, s) == DrawnFrom(plan[j].from, s) + GivenBy(plan[..j] + plan[j + 1..], s)
    ensures Received(plan, npa) == (if plan[j].npa == npa then plan[j].realloc else 0)
            + Received(plan[..j] + plan[j + 1..], npa)
  {
    assert plan == plan[..j] + plan[j..];
    TotalsJoin(plan[..j], plan[j..], s, npa);
    TotalsJoin(plan[..j], plan[j + 1..], s, npa);
    assert plan[j..][1..] == plan[j + 1..];
  }

  lemma {:induction false} OrderDoesNotMatter(rows: seq<Entry>, plan: seq<Entry>, s: PoolKey, npa: Npa)
    requires multiset(rows) == multiset(plan)
    ensures GivenBy(rows, s) == GivenBy(plan, s) && Received(rows, npa) == Received(plan, npa)
    decreases |rows|
  {
    if rows == [] {
      assert |multiset(plan)| == 0;
    } else {
      var j := TakeOut(rows, plan);
      OrderDoesNotMatter(rows[1..], plan[..j] + plan[j + 1..], s, npa);
      TotalsAround(plan, j, s, npa);
    }
  }

  // ---- From rows to moves ----

  /** Rows as the planner writes them: amounts add up, no empty share, every name known. */
  ghost predicate GoodRows(recs: seq<Rec>, rows: seq<Entry>) {
    && KnownPlan(recs, rows)
    && forall e, x :: e in rows && x in e.from ==> x.n > 0
  }

  lemma {:induction false} DrawPositive(donors: seq<Donor>, want: nat)
    ensures forall x :: x in Draw(donors, want).0 ==> x.n > 0
    decreases |donors|, want
  {
    DrawTakes(donors, want);
  }

  lemma {:induction false} AllotPositive(short: seq<Rec>, donors: seq<Donor>, priority: seq<Npa>)
    requires forall r :: r in short ==> Shortfall(r) > 0
    ensures forall e, x :: e in Allot(short, donors, priority) && x in e.from ==> x.n > 0
    decreases |short|
  {
    if short != [] {
      DrawPositive(donors, Shortfall(short[0]));
      AllotPositive(short[1..], Draw(donors, Shortfall(short[0])).1, priority);
    }
  }

  lemma PlanRowsGood(i: Inputs, rows: seq<Entry>)
    requires i.cap > 0 && multiset(rows) == multiset(i.FinalPlan())
    ensures GoodRows(i.recs, rows)
  {
    PlanKnown(i);
    AllotPositive(ShortList(i.recs, i.priority), i.Donors(), i.priority);
    forall e | e in rows ensures e in i.FinalPlan() {
      assert e in multiset(rows);
    }
  }

  lemma {:induction false} MoveTotalsJoin(a: seq<Move>, b: seq<Move>, k: PoolKey)
    ensures Out(a + b, k) == Out(a, k) + Out(b, k) && In(a + b, k) == In(a, k) + In(b, k)
    decreases |a|
  {
    if a == [] {
      assert a + b == b;
    } else {
      MoveTotalsJoin(a[1..], b, k);
      assert (a + b)[1..] == a[1..] + b;
    }
  }

  lemma {:induction false} SharesTotal(npa: Npa, from: seq<Share>, k: PoolKey)
    ensures Out(MovesInto(npa, from), k) == DrawnFrom(from, k)
    ensures In(MovesInto(npa, from), k) == if k == Area(npa) then Drawn(from) else 0
    decreases |from|
  {
    if from != [] {
      SharesTotal(npa, from[1..], k);
      assert MovesInto(npa, from)[1..] == MovesInto(npa, from[1..]);
    }
  }

  lemma {:induction false} NothingDrawn(from: seq<Share>, k: PoolKey)
    requires Drawn(from) == 0
    ensures DrawnFrom(from, k) == 0
    decreases |from|
  {
    if from != [] {
      NothingDrawn(from[1..], k);
    }
  }

  lemma RowTotal(e: Entry, k: PoolKey)
    requires e.realloc == Drawn(e.from)
    ensures Out(RowMoves(e), k) == DrawnFrom(e.from, k)
    ensures In(RowMoves(e), k) == if k == Area(e.npa) then e.realloc else 0
  {
    if e.realloc > 0 {
      SharesTotal(e.npa, e.from, k);
    } else {
      NothingDrawn(e.from, k);
    }
  }

  function ReceivedAt(rows: seq<Entry>, k: PoolKey): nat {
    match k
    case Area(npa) => Received(rows, npa)
    case OverflowPool => 0
  }

  lemma {:induction false} RowsTotal(rows: seq<Entry>, k: PoolKey)
    requires forall e :: e in rows ==> e.realloc == Drawn(e.from)
    ensures Out(PlanMoves(rows), k) == GivenBy(rows, k)
    ensures In(PlanMoves(rows), k) == ReceivedAt(rows, k)
    decreases |rows|
  {
    if rows != [] {
      RowTotal(rows[0], k);
      RowsTotal(rows[1..], k);
      MoveTotalsJoin(RowMoves(rows[0]), PlanMoves(rows[1..]), k);
    }
  }

  lemma {:induction false} MoveOrigins(recs: seq<Rec>, rows: seq<Entry>)
    requires GoodRows(recs, rows)
    ensures forall m :: m in PlanMoves(rows) ==> m.n > 0 && KnownSource(recs, m.src) && KnownSource(recs, m.dst)
    decreases |rows|
  {
    if rows != [] {
      assert forall e :: e in rows[1..] ==> e in rows;
      MoveOrigins(recs, rows[1..]);
      forall m | m in RowMoves(rows[0]) ensures m.n > 0 && KnownSource(recs, m.src) && KnownSource(recs, m.dst) {
        var j :| 0 <= j < |rows[0].from| && m == Move(rows[0].from[j].source, Area(rows[0].npa), rows[0].from[j].n);
        assert rows[0].from[j] in rows[0].from;
      }
    }
  }

  lemma {:induction false} OutIncludes(moves: seq<Move>, m: Move)
    requires m in moves
    ensures Out(moves, m.src) >= m.n
    decreases |moves|
  {
    if m != moves[0] {
      assert m in moves[1..];
      OutIncludes(moves[1..], m);
    }
  }

  // ---- A plan, its pools and its execution ----

  /** The pools the report counted, and the executor's rules read from the plan's own columns. */
  ghost predicate SameBox(i: Inputs, rules: Rules, pools: Pools) {
    && (forall r :: r in i.recs ==> |Held(pools, Area(r.npa))| == r.poolSize)
    && |Held(pools, OverflowPool)| == i.overflow
    && (forall r :: r in i.recs ==> r.npa in rules.need && rules.need[r.npa] == r.need)
    && rules.overflowMin == i.overflowMin
  }

  lemma NeedsAreNatural(i: Inputs, headroom: real, r: Rec)
    requires Reported(i, headroom) && headroom > -100.0 && r in i.recs
    ensures DonorRetain(r.need) >= 0
  {
    ScaleBy(0.0, Factor(headroom), r.peak as real);
    LoadTimesCap(r.peak, i.cap, Factor(headroom));
    if Load(r.peak, i.cap, Factor(headroom)) < 0.0 {
      ScaleBy(1.0, i.cap as real, -Load(r.peak, i.cap, Factor(headroom)));
    }
  }

  lemma AreaCanAfford(i: Inputs, headroom: real, rules: Rules, pools: Pools, r: Rec)
    requires Reported(i, headroom) && headroom > -100.0 && SameBox(i, rules, pools) && r in i.recs
    requires GivenBy(i.FinalPlan(), Area(r.npa)) > 0
    ensures |Held(pools, Area(r.npa))| - GivenBy(i.FinalPlan(), Area(r.npa)) >= Floor(rules, Area(r.npa)) >= 0
  {
    AllotCovers(ShortList(i.recs, i.priority), i.Donors(), i.priority);
    DonorsAvail(i, r);
    RetentionsAgree(r.need);
    NeedsAreNatural(i, headroom, r);
    assert GivenBy(i.FinalPlan(), Area(r.npa)) <= AvailFrom(i.Donors(), Area(r.npa));
  }

  lemma SourceCanAfford(i: Inputs, headroom: real, rules: Rules, pools: Pools, k: PoolKey)
    requires Reported(i, headroom) && headroom > -100.0 && SameBox(i, rules, pools)
    requires KnownSource(i.recs, k) && GivenBy(i.FinalPlan(), k) > 0
    ensures |Held(pools, k)| - GivenBy(i.FinalPlan(), k) >= Floor(rules, k) >= 0
  {
    if k.OverflowPool? {
      OverflowKeepsItsNeed(i);
    } else {
      var r :| r in i.recs && Area(r.npa) == k;
      AreaCanAfford(i, headroom, rules, pools, r);
    }
  }

  /** Executed on the same pools, in any row order, the plan trips no guard. */
  lemma PlanIsAffordable(i: Inputs, headroom: real, rules: Rules, pools: Pools, rows: seq<Entry>)
    requires Reported(i, headroom) && SameBox(i, rules, pools)
    requires multiset(rows) == multiset(i.FinalPlan())
    ensures Affordable(rules, pools, PlanMoves(rows))
  {
    PlanRowsGood(i, rows);
    MoveOrigins(i.recs, rows);
    var moves := PlanMoves(rows);
    if headroom <= -100.0 {
      NothingShort(i, headroom);
      assert |multiset(rows)| == 0;
      return;
    }
    forall m | m in moves
      ensures |Held(pools, m.src)| - Out(moves, m.src) >= Floor(rules, m.src)
              && |Held(pools, m.src)| >= Out(moves, m.src)
    {
      OutIncludes(moves, m);
      RowsTotal(rows, m.src);
      OrderDoesNotMatter(rows, i.FinalPlan(), m.src, "");
      SourceCanAfford(i, headroom, rules, pools, m.src);
    }
  }

  function Executed(rules: Rules, pools: Pools, rows: seq<Entry>): Books {
    MoveAll(rules, Books(pools, 0, 0), PlanMoves(rows))
  }

  lemma AreaSettles(i: Inputs, headroom: real, rules: Rules, pools: Pools, rows: seq<Entry>, r: Rec)
    requires Reported(i, headroom) && SameBox(i, rules, pools) && r in i.recs
    requires multiset(rows) == multiset(i.FinalPlan()) && GoodRows(i.recs, rows)
    ensures |Held(pools, Area(r.npa))| - Out(PlanMoves(rows), Area(r.npa)) + In(PlanMoves(rows), Area(r.npa)) ==
            Size(i.SizesAfter(), r.npa)
  {
    RowsTotal(rows, Area(r.npa));
    OrderDoesNotMatter(rows, i.FinalPlan(), Area(r.npa), r.npa);
    SettledSize(Base(i.recs), i.FinalPlan(), r.npa);
    BaseSize(i.recs, r);
  }

  lemma OverflowSettles(i: Inputs, rules: Rules, pools: Pools, rows: seq<Entry>)
    requires i.cap > 0 && DistinctRecs(i.recs) && SameBox(i, rules, pools)
    requires multiset(rows) == multiset(i.FinalPlan()) && GoodRows(i.recs, rows)
    ensures |Held(pools, OverflowPool)| - Out(PlanMoves(rows), OverflowPool) + In(PlanMoves(rows), OverflowPool) ==
            i.OverflowAfter()
  {
    RowsTotal(rows, OverflowPool);
    OrderDoesNotMatter(rows, i.FinalPlan(), OverflowPool, "");
    OverflowKeepsItsNeed(i);
  }

  /** ...and leaves every pool at exactly the size the planner projected. */
  lemma ExecutionMatchesPlan(i: Inputs, headroom: real, rules: Rules, pools: Pools, rows: seq<Entry>)
    requires Reported(i, headroom) && SameBox(i, rules, pools)
    requires multiset(rows) == multiset(i.FinalPlan())
    ensures var after := Executed(rules, pools, rows);
            && after.blocked == 0
            && (forall r :: r in i.recs ==> |Held(after.pools, Area(r.npa))| == Size(i.SizesAfter(), r.npa))
            && |Held(after.pools, OverflowPool)| == i.OverflowAfter()
  {
    var moves := PlanMoves(rows);
    PlanIsAffordable(i, headroom, rules, pools, rows);
    AffordableRuns(rules, Books(pools, 0, 0), moves);
    PlanRowsGood(i, rows);
    forall r | r in i.recs
      ensures |Held(pools, Area(r.npa))| - Out(moves, Area(r.npa)) + In(moves, Area(r.npa)) ==
              Size(i.SizesAfter(), r.npa)
    {
      AreaSettles(i, headroom, rules, pools, rows, r);
    }
    OverflowSettles(i, rules, pools, rows);
  }

  // ---- End to end ----

  /** The report's areas with the pools the executor holds for them. */
  function AreaPools(recs: seq<Rec>, pools: Pools): (areas: seq<Pool>)
    ensures |areas| == |recs| && forall j :: 0 <= j < |recs| ==>
              areas[j] == Pool(recs[j].npa, Held(pools, Area(recs[j].npa)))
  {
    if recs == [] then []
    else
      var r := recs[|recs| - 1];
      AreaPools(recs[..|recs| - 1], pools) + [Pool(r.npa, Held(pools, Area(r.npa)))]
  }

  /** The dialplan's fleet, read from the executor's pool table. */
  function FleetOf(recs: seq<Rec>, pools: Pools): Fleet {
    Fleet(AreaPools(recs, pools), Held(pools, OverflowPool))
  }

  function AreaKeys(recs: seq<Rec>): (keys: seq<PoolKey>)
    ensures |keys| == |recs| && forall j :: 0 <= j < |recs| ==> keys[j] == Area(recs[j].npa)
  {
    if recs == [] then [] else AreaKeys(recs[..|recs| - 1]) + [Area(recs[|recs| - 1].npa)]
  }

  function Keys(recs: seq<Rec>): seq<PoolKey> {
    [OverflowPool] + AreaKeys(recs)
  }

  lemma {:induction false} FleetPool(pools: seq<Pool>, j: nat)
    requires OnePoolPerNpa(pools) && j < |pools|
    ensures PoolOf(pools, pools[j].npa) == pools[j].dids
    decreases |pools|
  {
    if j < |pools| - 1 {
      FleetPool(pools[..|pools| - 1], j);
    }
  }

  lemma {:induction false} AreaCopies(recs: seq<Rec>, pools: Pools, d: Did)
    ensures multiset(PoolDids(AreaPools(recs, pools)))[d] == Copies(AreaKeys(recs), pools, d)
    decreases |recs|
  {
    if recs != [] {
      var front, last := recs[..|recs| - 1], Area(recs[|recs| - 1].npa);
      AreaCopies(front, pools, d);
      CopiesJoin(AreaKeys(front), [last], pools, d);
      assert Copies([last], pools, d) == multiset(Held(pools, last))[d];
      var all := AreaPools(recs, pools);
      assert all[..|all| - 1] == AreaPools(front, pools);
    }
  }

  lemma {:induction false} CopiesJoin(a: seq<PoolKey>, b: seq<PoolKey>, pools: Pools, d: Did)
    ensures Copies(a + b, pools, d) == Copies(a, pools, d) + Copies(b, pools, d)
    decreases |a|
  {
    if a == [] {
      assert a + b == b;
    } else {
      CopiesJoin(a[1..], b, pools, d);
      assert (a + b)[1..] == a[1..] + b;
    }
  }

  lemma FleetCopies(recs: seq<Rec>, pools: Pools, d: Did)
    ensures multiset(AllDids(FleetOf(recs, pools)))[d] == Copies(Keys(recs), pools, d)
  {
    AreaCopies(recs, pools, d);
    CopiesJoin([OverflowPool], AreaKeys(recs), pools, d);
    assert Copies([OverflowPool], pools, d) == multiset(Held(pools, OverflowPool))[d];
  }

  lemma KnownSourceIsKey(recs: seq<Rec>, s: PoolKey)
    requires KnownSource(recs, s)
    ensures s in Keys(recs)
  {
    if s.OverflowPool? {
      assert Keys(recs)[0] == s;
    } else {
      var r :| r in recs && Area(r.npa) == s;
      var j :| 0 <= j < |recs| && recs[j] == r;
      assert Keys(recs)[j + 1] == s;
    }
  }

  /** Executing the plan's rows keeps the set of numbers, each exactly as often as before. */
  lemma ExecutionKeepsNumbers(i: Inputs, rules: Rules, pools: Pools, rows: seq<Entry>)
    requires i.cap > 0 && DistinctRecs(i.recs) && multiset(rows) == multiset(i.FinalPlan())
    ensures multiset(AllDids(FleetOf(i.recs, Executed(rules, pools, rows).pools))) ==
              multiset(AllDids(FleetOf(i.recs, pools)))
  {
    PlanMovesKnown(i, rows);
    forall d: Did
      ensures multiset(AllDids(FleetOf(i.recs, Executed(rules, pools, rows).pools)))[d] ==
                multiset(AllDids(FleetOf(i.recs, pools)))[d]
    {
      RunKeepsNumbers(rules, Books(pools, 0, 0), PlanMoves(rows), Keys(i.recs), d);
      FleetCopies(i.recs, pools, d);
      FleetCopies(i.recs, Executed(rules, pools, rows).pools, d);
    }
  }

  lemma PlanMovesKnown(i: Inputs, rows: seq<Entry>)
    requires i.cap > 0 && DistinctRecs(i.recs) && multiset(rows) == multiset(i.FinalPlan())
    ensures DistinctKeys(Keys(i.recs)) && KnownMoves(Keys(i.recs), PlanMoves(rows))
  {
    PlanRowsGood(i, rows);
    MoveOrigins(i.recs, rows);
    forall m | m in PlanMoves(rows) ensures m.src in Keys(i.recs) && m.dst in Keys(i.recs) {
      KnownSourceIsKey(i.recs, m.src);
      KnownSourceIsKey(i.recs, m.dst);
    }
  }

  lemma {:induction false} SpillDependsOnSizes(demand: seq<NpaDemand>, day: Day, a: map<Npa, int>, b: map<Npa, int>,
                                               cap: nat)
    requires forall d :: d in demand ==> Size(a, d.npa) == Size(b, d.npa)
    ensures Spill(demand, day, a, cap) == Spill(demand, day, b, cap)
    decreases |demand|
  {
    if demand != [] {
      assert forall d :: d in demand[..|demand| - 1] ==> d in demand;
      SpillDependsOnSizes(demand[..|demand| - 1], day, a, b, cap);
    }
  }

  lemma FleetSize(i: Inputs, pools: Pools, r: Rec)
    requires DistinctRecs(i.recs) && r in i.recs
    ensures OnePoolPerNpa(FleetOf(i.recs, pools).pools)
    ensures Size(Sizes(FleetOf(i.recs, pools)), r.npa) == |Held(pools, Area(r.npa))|
  {
    var fleet := FleetOf(i.recs, pools);
    var j :| 0 <= j < |i.recs| && i.recs[j] == r;
    FleetPool(fleet.pools, j);
    SizeIsPoolLength(fleet, r.npa);
  }

  /** The calls refused on an accounted day compare with the projection from any sizes that agree with its pools. */
  lemma RefusalsAreProjected(i: Inputs, headroom: real, pools: Pools, sizes: map<Npa, int>, log: DayLog, day: Day,
                             calls: seq<Npa>)
    requires Reported(i, headroom) && TotalsOf(i.demand, day, calls) && Unshared(FleetOf(i.recs, pools))
    requires forall r :: r in i.recs ==> |Held(pools, Area(r.npa))| == Size(sizes, r.npa)
    requires DayAccounted(FleetOf(i.recs, pools), calls, log, i.cap)
    ensures RefusedCalls(log.outcomes) <= Projected(i.demand, day, sizes, |Held(pools, OverflowPool)|, i.cap)
    ensures WithinCap(log.box.counts, i.cap) ==>
              RefusedCalls(log.outcomes) == Projected(i.demand, day, sizes, |Held(pools, OverflowPool)|, i.cap)
  {
    var fleet := FleetOf(i.recs, pools);
    forall d | d in i.demand ensures Size(Sizes(fleet), d.npa) == Size(sizes, d.npa) {
      var r :| r in i.recs && r.npa == d.npa && IsPeak(r.peak, d.perDay);
      FleetSize(i, pools, r);
    }
    SpillDependsOnSizes(i.demand, day, Sizes(fleet), sizes, i.cap);
    AccountedIsProjected(fleet, i.demand, day, calls, log, i.cap);
  }

  /** The plan, executed in any row order, was not blocked and refuses no more calls than before it. */
  ghost predicate NoWorse(i: Inputs, done: Books, was: DayLog, now: DayLog)
    requires i.cap > 0
  {
    && done.blocked == 0
    && RefusedCalls(now.outcomes) <= RefusedCalls(was.outcomes)
    && (GivenBy(i.FinalPlan(), OverflowPool) > 0 ==> RefusedCalls(now.outcomes) == 0)
  }

  /** However the day's calls were placed before the plan and after it, as long as both days are accounted for
      and the first kept within the cap. */
  lemma AnyAccountedDay(i: Inputs, headroom: real, rules: Rules, pools: Pools, rows: seq<Entry>, was: DayLog,
                        now: DayLog, day: Day, calls: seq<Npa>)
    requires Reported(i, headroom) && headroom >= -20.0 && SameBox(i, rules, pools)
    requires Unshared(FleetOf(i.recs, pools))
    requires multiset(rows) == multiset(i.FinalPlan())
    requires day in i.days && TotalsOf(i.demand, day, calls)
    requires DayOk(FleetOf(i.recs, pools), calls, was, i.cap)
    requires DayAccounted(FleetOf(i.recs, Executed(rules, pools, rows).pools), calls, now, i.cap)
    ensures NoWorse(i, Executed(rules, pools, rows), was, now)
  {
    var done := Executed(rules, pools, rows);
    ExecutionMatchesPlan(i, headroom, rules, pools, rows);
    ExecutionKeepsNumbers(i, rules, pools, rows);
    forall r | r in i.recs ensures |Held(pools, Area(r.npa))| == Size(i.SizesBefore(), r.npa) {
      BaseSize(i.recs, r);
    }
    RefusalsAreProjected(i, headroom, pools, i.SizesBefore(), was, day, calls);
    RefusalsAreProjected(i, headroom, done.pools, i.SizesAfter(), now, day, calls);
    PlanNeverAddsRefusals(i, headroom, day);
    if GivenBy(i.FinalPlan(), OverflowPool) > 0 {
      OverflowGivesOnlyWhatIsIdle(i, headroom, day);
    }
  }

  /**
   End to end: plan from the measured demand, execute the plan's rows in any order on the box's own pools,
   and on every measured day, in every order of its calls and from any rotors, the dialplan refuses no more
   calls than before; and none at all if overflow gave up even one number.
   */
  lemma ReallocationNeverRefusesMore(i: Inputs, headroom: real, rules: Rules, pools: Pools, rows: seq<Entry>,
                                     before: map<PoolKey, nat>, after: map<PoolKey, nat>, day: Day, calls: seq<Npa>)
    requires Reported(i, headroom) && headroom >= -20.0 && SameBox(i, rules, pools)
    requires Unshared(FleetOf(i.recs, pools))
    requires multiset(rows) == multiset(i.FinalPlan())
    requires day in i.days && TotalsOf(i.demand, day, calls)
    ensures var fleet := FleetOf(i.recs, Executed(rules, pools, rows).pools);
            var refused := RefusedCalls(PlaceAll(fleet, after, calls, i.cap).outcomes);
            && Executed(rules, pools, rows).blocked == 0
            && refused <= RefusedCalls(PlaceAll(FleetOf(i.recs, pools), before, calls, i.cap).outcomes)
            && (GivenBy(i.FinalPlan(), OverflowPool) > 0 ==> refused == 0)
  {
    var earlier, later := FleetOf(i.recs, pools), FleetOf(i.recs, Executed(rules, pools, rows).pools);
    assert OnePoolPerNpa(earlier.pools) && OnePoolPerNpa(later.pools);
    EveryDayOk(earlier, before, calls, i.cap);
    EveryDayOk(later, after, calls, i.cap);
    AnyAccountedDay(i, headroom, rules, pools, rows, PlaceAll(earlier, before, calls, i.cap),
                    PlaceAll(later, after, calls, i.cap), day, calls);
  }
}
