/** Who goes without and who gives first: the plan serves the most urgent areas, from the largest surpluses. */
module PlanOrder {
  import opened Common
  import opened Numbers
  import opened DidRing
  import opened Projection
  import opened Refusals
  import opened Sorting
  import opened Planner
  import opened PlanEffects

  // ---- Sizes ----

  /** The numbers needed are the fewest that carry the peak and its headroom, each up to the cap. */
  lemma NeededIsLeast(peak: nat, cap: nat, headroom: real)
    requires cap > 0 && peak > 0
    ensures var n, load := NeededDids(peak, cap, headroom), peak as real * (1.0 + headroom / 100.0);
            n as real * cap as real >= load > (n - 1) as real * cap as real
  {
    var n, load := NeededDids(peak, cap, headroom), peak as real * (1.0 + headroom / 100.0);
    assert Load(peak, cap, Factor(headroom)) == load / cap as real;
    Scaled(n as real, load, cap as real);
    Scaled((n - 1) as real, load, cap as real);
  }

  lemma Scaled(x: real, y: real, k: real)
    requires k > 0.0
    ensures x >= y / k <==> x * k >= y
  {
    var q := y / k;
    assert q * k == y;
    if x >= q {
      assert (x - q) * k >= 0.0;
    } else {
      assert (q - x) * k > 0.0;
    }
  }

  /** A donor keeps the fewest that are at least two more and at least a quarter more than it needs. */
  lemma RetainedIsLeast(need: int)
    ensures var n := DonorRetain(need);
            && n >= need + 2 && n as real >= 1.25 * need as real
            && (n - 1 < need + 2 || (n - 1) as real < 1.25 * need as real)
  {
  }

  lemma {:induction false} WorstIsSome(demand: seq<NpaDemand>, days: seq<Day>, sizes: map<Npa, int>, cap: nat)
    ensures var worst := WorstSpill(demand, days, sizes, cap);
            worst == 0 || exists d :: d in days && worst == Spill(demand, d, sizes, cap)
    decreases |days|
  {
    if days != [] {
      WorstIsSome(demand, days[..|days| - 1], sizes, cap);
      assert days == days[..|days| - 1] + [days[|days| - 1]];
      assert days[|days| - 1] in days;
    }
  }

  lemma LeastToCarry(load: nat, cap: nat)
    requires cap > 0
    ensures var n := Ceil(load as real / cap as real);
            n >= 0 && n * cap >= load && (load == 0 ==> n == 0) && (load > 0 ==> load > (n - 1) * cap)
  {
    var n := Ceil(load as real / cap as real);
    Scaled(n as real, load as real, cap as real);
    Scaled((n - 1) as real, load as real, cap as real);
    assert n as real * cap as real == (n * cap) as real;
    assert (n - 1) as real * cap as real == ((n - 1) * cap) as real;
  }

  /** What overflow is to keep: the fewest that are its minimum or more and carry what spills on any measured day. */
  lemma OverflowNeedIsLeast(demand: seq<NpaDemand>, days: seq<Day>, recs: seq<Rec>, plan: seq<Entry>, cap: nat,
                            overflowMin: nat)
    requires cap > 0
    ensures var n, sizes := OverflowNeed(demand, days, recs, plan, cap, overflowMin), Enlarged(Base(recs), plan);
            && n >= overflowMin && (forall d :: d in days ==> n * cap >= Spill(demand, d, sizes, cap))
            && (n == overflowMin || exists d :: d in days && (n - 1) * cap < Spill(demand, d, sizes, cap))
  {
    var sizes := Enlarged(Base(recs), plan);
    var worst := WorstSpill(demand, days, sizes, cap);
    var carried := Ceil(worst as real / cap as real);
    WorstIsSome(demand, days, sizes, cap);
    LeastToCarry(worst, cap);
    forall d | d in days ensures Max(overflowMin, carried) * cap >= Spill(demand, d, sizes, cap) {
      WorstIsWorst(demand, days, sizes, cap, d);
      MoreCarriesMore(carried, Max(overflowMin, carried), cap);
    }
  }

  lemma MoreCarriesMore(few: int, many: int, cap: nat)
    requires few <= many
    ensures few * cap <= many * cap
  {
  }

  // ---- Who is served first ----

  /** The place of an area on a priority list that names each once, and after the whole list if it is not on it. */
  lemma {:induction false} RankIsPlace(npa: Npa, priority: seq<Npa>)
    requires Distinct(priority)
    ensures npa !in priority ==> Rank(npa, priority) == |priority|
    ensures forall i :: 0 <= i < |priority| && priority[i] == npa ==> Rank(npa, priority) == i
    decreases |priority|
  {
    if npa !in priority {
      DistinctSet(priority);
    } else if priority[|priority| - 1] != npa {
      var front := priority[..|priority| - 1];
      assert priority == front + [priority[|priority| - 1]];
      RankIsPlace(npa, front);
    }
  }

  lemma {:induction false} DistinctSet(xs: seq<Npa>)
    requires Distinct(xs)
    ensures |set x | x in xs| == |xs|
    decreases |xs|
  {
    if xs != [] {
      var front, last := xs[..|xs| - 1], xs[|xs| - 1];
      DistinctSet(front);
      assert xs == front + [last];
      assert (set x | x in xs) == (set x | x in front) + {last};
    }
  }

  /** `x` is to be served before `y`: listed before it, or listed alike and short of more numbers. */
  predicate MoreUrgent(x: Rec, y: Rec, priority: seq<Npa>) {
    if Rank(x.npa, priority) != Rank(y.npa, priority) then Rank(x.npa, priority) < Rank(y.npa, priority)
    else x.need - x.poolSize > y.need - y.poolSize
  }

  lemma ShortOrderIsAnOrder(priority: seq<Npa>)
    ensures TotalPreorder(ShortOrder(priority))
  {
  }

  /** A plan is the first area's entry and the plan of the others from what it left. */
  lemma AllotSplits(short: seq<Rec>, donors: seq<Donor>, priority: seq<Npa>) returns (rest: seq<Donor>)
    requires (forall r :: r in short ==> Shortfall(r) > 0) && short != []
    ensures var plan := Allot(short, donors, priority);
            && |plan| == |short| && plan[1..] == Allot(short[1..], rest, priority)
            && (plan[0].buy > 0 ==> Avail(rest) == 0)
  {
    rest := Draw(donors, Shortfall(short[0])).1;
    DrawTakes(donors, Shortfall(short[0]));
    AllotCovers(short, donors, priority);
  }

  /** Once an area has to buy, there was nothing left for those after it. */
  lemma {:induction false} BuyersLeaveNothing(short: seq<Rec>, donors: seq<Donor>, priority: seq<Npa>, i: nat, j: nat)
    requires (forall r :: r in short ==> Shortfall(r) > 0) && i < j < |short|
    ensures |Allot(short, donors, priority)| == |short|
    ensures Allot(short, donors, priority)[i].buy > 0 ==> Allot(short, donors, priority)[j].realloc == 0
    decreases |short|
  {
    var rest := AllotSplits(short, donors, priority);
    var plan := Allot(short, donors, priority);
    assert plan[j] == plan[1..][j - 1];
    if i > 0 {
      BuyersLeaveNothing(short[1..], rest, priority, i - 1, j - 1);
      assert plan[i] == plan[1..][i - 1];
    } else if plan[0].buy > 0 {
      NothingToAllot(short[1..], rest, priority, j - 1);
    }
  }

  lemma {:induction false} NothingToAllot(short: seq<Rec>, donors: seq<Donor>, priority: seq<Npa>, j: nat)
    requires (forall r :: r in short ==> Shortfall(r) > 0) && j < |short| && Avail(donors) == 0
    ensures |Allot(short, donors, priority)| == |short| && Allot(short, donors, priority)[j].realloc == 0
    decreases |short|
  {
    DrawTakes(donors, Shortfall(short[0]));
    AllotCovers(short[1..], Draw(donors, Shortfall(short[0])).1, priority);
    if j > 0 {
      NothingToAllot(short[1..], Draw(donors, Shortfall(short[0])).1, priority, j - 1);
    }
  }

  lemma UrgentIsEarlier(recs: seq<Rec>, priority: seq<Npa>, x: Rec, y: Rec) returns (i: nat, j: nat)
    requires x in ShortList(recs, priority) && y in ShortList(recs, priority) && MoreUrgent(x, y, priority)
    ensures i < j < |ShortList(recs, priority)|
    ensures ShortList(recs, priority)[i] == x && ShortList(recs, priority)[j] == y
  {
    var short := ShortList(recs, priority);
    ShortOrderIsAnOrder(priority);
    SortOrders(ShortRecs(recs), ShortOrder(priority));
    i :| 0 <= i < |short| && short[i] == x;
    j :| 0 <= j < |short| && short[j] == y;
    assert forall a, b :: 0 <= a < b < |short| ==> ShortOrder(priority)(short[a], short[b]);
  }

  /** Given by the plan to an area: the entry at its place in the order of serving. */
  lemma EntryOf(short: seq<Rec>, donors: seq<Donor>, priority: seq<Npa>, k: nat)
    requires (forall r :: r in short ==> Shortfall(r) > 0) && k < |short|
    ensures |Allot(short, donors, priority)| == |short| && Allot(short, donors, priority)[k].npa == short[k].npa
    ensures var e := Allot(short, donors, priority)[k];
            e.realloc + e.buy == short[k].need - short[k].poolSize
  {
    AllotCovers(short, donors, priority);
  }

  /** No area is given a number while one more urgent is left to buy. */
  lemma NobodyOvertakes(i: Inputs, x: Rec, y: Rec) returns (a: nat, b: nat)
    requires i.cap > 0 && x in i.recs && y in i.recs && x.need > x.poolSize && y.need > y.poolSize
    requires MoreUrgent(x, y, i.priority)
    ensures var plan := i.FinalPlan();
            && a < |plan| && b < |plan| && plan[a].npa == x.npa && plan[b].npa == y.npa
            && plan[a].realloc + plan[a].buy == x.need - x.poolSize
            && plan[b].realloc + plan[b].buy == y.need - y.poolSize
            && (plan[a].buy > 0 ==> plan[b].realloc == 0)
  {
    var short := ShortList(i.recs, i.priority);
    a, b := UrgentIsEarlier(i.recs, i.priority, x, y);
    EntryOf(short, i.Donors(), i.priority, a);
    EntryOf(short, i.Donors(), i.priority, b);
    BuyersLeaveNothing(short, i.Donors(), i.priority, a, b);
  }

  // ---- Who gives first ----

  /** In this list `a` gives only before place `k` and `b` only from there on. */
  predicate Turns(donors: seq<Donor>, k: nat, a: PoolKey, b: PoolKey) {
    && k <= |donors|
    && (forall i :: 0 <= i < k ==> donors[i].source != b)
    && (forall i :: k <= i < |donors| ==> donors[i].source != a)
  }

  lemma {:induction false} StrangersHaveNothing(donors: seq<Donor>, s: PoolKey)
    requires forall k :: 0 <= k < |donors| ==> donors[k].source != s
    ensures AvailFrom(donors, s) == 0
    decreases |donors|
  {
    if donors != [] {
      StrangersHaveNothing(donors[1..], s);
    }
  }

  /** A draw touches `b` only once `a` is drained. */
  lemma {:induction false} DrawInTurn(donors: seq<Donor>, want: nat, k: nat, a: PoolKey, b: PoolKey) returns (m: nat)
    requires Turns(donors, k, a, b) && a != b
    ensures var (from, rest) := Draw(donors, want);
            Turns(rest, m, a, b) && (DrawnFrom(from, b) > 0 ==> AvailFrom(rest, a) == 0)
    decreases |donors|, want
  {
    m := k;
    if want > 0 && donors != [] {
      DrawTakes(donors, want);
      if donors[0].avail == 0 {
        m := DrawInTurn(donors[1..], want, if k > 0 then k - 1 else 0, a, b);
      } else {
        var take := if donors[0].avail < want then donors[0].avail else want;
        var left := [donors[0].(avail := donors[0].avail - take)] + donors[1..];
        m := DrawInTurn(left, want - take, k, a, b);
        var more := Draw(left, want - take).0;
        assert ([Share(donors[0].source, take)] + more)[1..] == more;
        if donors[0].source == b {
          StrangersHaveNothing(donors, a);
        }
      }
    }
  }

  /** Over a whole plan: `b` gives only if `a` gives all it has. */
  lemma {:induction false} AllotInTurn(short: seq<Rec>, donors: seq<Donor>, priority: seq<Npa>, k: nat, a: PoolKey,
                                       b: PoolKey)
    requires (forall r :: r in short ==> Shortfall(r) > 0) && Turns(donors, k, a, b) && a != b
    ensures GivenBy(Allot(short, donors, priority), b) > 0 ==>
              GivenBy(Allot(short, donors, priority), a) == AvailFrom(donors, a)
    decreases |short|
  {
    if short != [] {
      var want := Shortfall(short[0]);
      var (from, rest) := Draw(donors, want);
      var m := DrawInTurn(donors, want, k, a, b);
      DrawTakes(donors, want);
      AllotCovers(short[1..], rest, priority);
      AllotInTurn(short[1..], rest, priority, m, a, b);
      var tail := Allot(short[1..], rest, priority);
      assert Allot(short, donors, priority)[1..] == tail && Allot(short, donors, priority)[0].from == from;
    }
  }

  /** A donor is an area with all of its surplus. */
  predicate GivesAs(d: Donor, r: Rec) {
    d.source == Area(r.npa) && d.avail == r.poolSize - DonorRetain(r.need)
  }

  lemma {:induction false} DonorsAreAreas(recs: seq<Rec>, d: Donor) returns (r: Rec)
    requires d in NpaDonors(recs)
    ensures r in recs && GivesAs(d, r)
    decreases |recs|
  {
    var front, last := recs[..|recs| - 1], recs[|recs| - 1];
    assert recs == front + [last];
    if d in NpaDonors(front) {
      r := DonorsAreAreas(front, d);
    } else {
      r := last;
    }
  }

  lemma MoreSurplusIsAnOrder()
    ensures TotalPreorder(MoreSurplusFirst)
  {
  }

  /** Overflow, which stands last, is touched only once every area with a surplus has given all of it. */
  lemma OverflowGivesLast(i: Inputs, r: Rec)
    requires i.cap > 0 && DistinctRecs(i.recs) && r in i.recs && GivenBy(i.FinalPlan(), OverflowPool) > 0
    ensures GivenBy(i.FinalPlan(), Area(r.npa)) == Max(0, r.poolSize - DonorRetain(r.need))
  {
    var first, donors := FirstDonors(i.recs), i.Donors();
    SortMembers(NpaDonors(i.recs), MoreSurplusFirst);
    forall k | 0 <= k < |first| ensures first[k].source.Area? {
      assert first[k] in first;
      var area := DonorsAreAreas(i.recs, first[k]);
    }
    assert Turns(donors, |first|, Area(r.npa), OverflowPool);
    AllotInTurn(ShortList(i.recs, i.priority), donors, i.priority, |first|, Area(r.npa), OverflowPool);
    AvailInAll(i, r);
  }

  lemma AvailInAll(i: Inputs, r: Rec)
    requires i.cap > 0 && DistinctRecs(i.recs) && r in i.recs
    ensures AvailFrom(i.Donors(), Area(r.npa)) == Max(0, Surplus(r))
  {
    var tail := if i.Spare() > 0 then [Donor(OverflowPool, i.Spare())] else [];
    FirstAvail(i.recs, r);
    AvailJoins(FirstDonors(i.recs), tail, Area(r.npa));
  }

  /** An area gives only once every area with a larger surplus has given all of it. */
  lemma LargerSurplusFirst(i: Inputs, x: Rec, y: Rec)
    requires i.cap > 0 && DistinctRecs(i.recs) && x in i.recs && y in i.recs
    requires x.poolSize - DonorRetain(x.need) > y.poolSize - DonorRetain(y.need)
    requires GivenBy(i.FinalPlan(), Area(y.npa)) > 0
    ensures GivenBy(i.FinalPlan(), Area(x.npa)) == x.poolSize - DonorRetain(x.need)
  {
    var first, donors := FirstDonors(i.recs), i.Donors();
    AllotCovers(ShortList(i.recs, i.priority), donors, i.priority);
    AvailInAll(i, y);
    AvailInAll(i, x);
    var k := SortedTurns(i.recs, x, y);
    assert Turns(donors, k, Area(x.npa), Area(y.npa));
    AllotInTurn(ShortList(i.recs, i.priority), donors, i.priority, k, Area(x.npa), Area(y.npa));
  }

  lemma SurplusOf(recs: seq<Rec>, d: Donor, x: Rec)
    requires DistinctRecs(recs) && x in recs && d in FirstDonors(recs) && d.source == Area(x.npa)
    ensures d.avail == Surplus(x)
  {
    SortMembers(NpaDonors(recs), MoreSurplusFirst);
    var r := DonorsAreAreas(recs, d);
    SameRec(recs, r, x);
  }

  /** In the donor list the larger surplus stands before the smaller. */
  lemma SortedTurns(recs: seq<Rec>, x: Rec, y: Rec) returns (k: nat)
    requires DistinctRecs(recs) && x in recs && y in recs && Surplus(x) > Surplus(y)
    ensures Turns(FirstDonors(recs), k, Area(x.npa), Area(y.npa)) && x.npa != y.npa
  {
    var first := FirstDonors(recs);
    MoreSurplusIsAnOrder();
    SortOrders(NpaDonors(recs), MoreSurplusFirst);
    k := FirstBelow(first, Surplus(x));
    forall j | 0 <= j < |first|
      ensures first[j].source == Area(x.npa) ==> j < k
      ensures first[j].source == Area(y.npa) ==> j >= k
    {
      assert first[j] in first;
      if first[j].source == Area(x.npa) {
        SurplusOf(recs, first[j], x);
      }
      if first[j].source == Area(y.npa) {
        SurplusOf(recs, first[j], y);
      }
    }
    SameRec(recs, x, y);
  }

  lemma SameRec(recs: seq<Rec>, r: Rec, x: Rec)
    requires DistinctRecs(recs) && r in recs && x in recs
    ensures r.npa == x.npa ==> r == x
  {
    var i :| 0 <= i < |recs| && recs[i] == r;
    var j :| 0 <= j < |recs| && recs[j] == x;
  }

  /** In a list of falling surpluses, where those below `n` begin. */
  lemma {:induction false} FirstBelow(donors: seq<Donor>, n: int) returns (k: nat)
    requires Ordered(donors, MoreSurplusFirst)
    ensures k <= |donors|
    ensures (forall i :: 0 <= i < k ==> donors[i].avail >= n) && forall i :: k <= i < |donors| ==> donors[i].avail < n
    decreases |donors|
  {
    k := |donors|;
    if donors != [] {
      var front := donors[..|donors| - 1];
      forall i | 0 <= i < |front| ensures donors[i].avail >= donors[|donors| - 1].avail && front[i] == donors[i] {
        assert MoreSurplusFirst(donors[i], donors[|donors| - 1]);
      }
      if donors[|donors| - 1].avail < n {
        k := FirstBelow(front, n);
      }
    }
  }
}
