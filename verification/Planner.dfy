/** Matching surplus DIDs to shortfalls, and what the plan does to projected refusals. */
module Planner {
  import opened Common
  import opened Numbers
  import opened DidRing
  import opened Projection
  import opened Refusals
  import opened Sorting

  // ---- Sizing ----

  function Factor(headroom: real): real {
    1.0 + headroom / 100.0
  }

  /** The load of `peak` calls scaled by `factor`, in numbers at their cap. */
  function Load(peak: nat, cap: nat, factor: real): real
    requires cap > 0
  {
    peak as real * factor / cap as real
  }

  /** Numbers needed to carry `peak` calls a day at `cap` each, with `headroom` percent to spare. */
  function NeededDids(peak: nat, cap: nat, headroom: real): int
    requires cap > 0
  {
    if peak <= 0 then 0 else Ceil(Load(peak, cap, Factor(headroom)))
  }

  /** What a donor keeps: two more than its need and a quarter more than its need. */
  function DonorRetain(need: int): int {
    Max(need + 2, Ceil(need as real * 1.25))
  }

  /** One NPA of the capacity report. */
  datatype Rec = Rec(npa: Npa, poolSize: nat, peak: nat, need: int)

  // ---- Greedy matching ----

  datatype Donor = Donor(source: PoolKey, avail: nat)

  datatype Share = Share(source: PoolKey, n: nat)

  datatype Entry = Entry(npa: Npa, realloc: nat, buy: int, from: seq<Share>, priority: bool)

  /** A priority area's place, the last if it is listed twice; any other area comes after as many as are listed. */
  function Rank(npa: Npa, priority: seq<Npa>): nat {
    if npa !in priority then |set p | p in priority|
    else if priority[|priority| - 1] == npa then |priority| - 1
    else Rank(npa, priority[..|priority| - 1])
  }

  function Shortfall(r: Rec): int {
    r.need - r.poolSize
  }

  function Surplus(r: Rec): int {
    r.poolSize - DonorRetain(r.need)
  }

  function ShortRecs(recs: seq<Rec>): seq<Rec> {
    if recs == [] then []
    else ShortRecs(recs[..|recs| - 1]) + if Shortfall(recs[|recs| - 1]) > 0 then [recs[|recs| - 1]] else []
  }

  function NpaDonors(recs: seq<Rec>): seq<Donor> {
    if recs == [] then []
    else
      var r := recs[|recs| - 1];
      NpaDonors(recs[..|recs| - 1]) + if Surplus(r) > 0 then [Donor(Area(r.npa), Surplus(r))] else []
  }

  predicate MoreSurplusFirst(x: Donor, y: Donor) {
    x.avail >= y.avail
  }

  /** Experiment NPAs first in their given order, then the largest shortfall. */
  function ShortOrder(priority: seq<Npa>): (Rec, Rec) -> bool {
    (x: Rec, y: Rec) =>
      Rank(x.npa, priority) < Rank(y.npa, priority)
      || (Rank(x.npa, priority) == Rank(y.npa, priority) && Shortfall(x) >= Shortfall(y))
  }

  /** Draw up to `want` numbers from the front of the donor list: what is drawn, and what is left. */
  function Draw(donors: seq<Donor>, want: nat): (seq<Share>, seq<Donor>)
    decreases |donors|, want
  {
    if want == 0 || donors == [] then ([], donors)
    else if donors[0].avail == 0 then Draw(donors[1..], want)
    else
      var take := if donors[0].avail < want then donors[0].avail else want;
      var left := [donors[0].(avail := donors[0].avail - take)] + donors[1..];
      var (more, rest) := Draw(left, want - take);
      ([Share(donors[0].source, take)] + more, rest)
  }

  lemma DrawOne(donors: seq<Donor>, want: nat, take: nat)
    requires want > 0 && donors != [] && donors[0].avail > 0
    requires take == if donors[0].avail < want then donors[0].avail else want
    ensures var left := [donors[0].(avail := donors[0].avail - take)] + donors[1..];
            var rest := Draw(left, want - take);
            Draw(donors, want) == ([Share(donors[0].source, take)] + rest.0, rest.1)
  {
  }

  function Drawn(shares: seq<Share>): nat {
    if shares == [] then 0 else shares[0].n + Drawn(shares[1..])
  }

  /** The plan for the short areas in order, drawing down one donor list. */
  function Allot(short: seq<Rec>, donors: seq<Donor>, priority: seq<Npa>): seq<Entry>
    requires forall r :: r in short ==> Shortfall(r) > 0
  {
    if short == [] then []
    else
      var r := short[0];
      var (from, rest) := Draw(donors, Shortfall(r));
      [Entry(r.npa, Drawn(from), Shortfall(r) - Drawn(from), from, r.npa in priority)]
      + Allot(short[1..], rest, priority)
  }

  lemma Slid(donors: seq<Donor>, di: nat, d: Donor)
    requires di < |donors|
    ensures donors[di := d][di..] == [d] + donors[di..][1..]
  {
  }

  lemma CoverStep(sources: seq<Share>, donors: seq<Donor>, want: nat, take: nat)
    requires want > 0 && donors != [] && donors[0].avail > 0
    requires take == if donors[0].avail < want then donors[0].avail else want
    ensures var share := Share(donors[0].source, take);
            var left := [donors[0].(avail := donors[0].avail - take)] + donors[1..];
            && (sources + [share]) + Draw(left, want - take).0 == sources + Draw(donors, want).0
            && Draw(left, want - take).1 == Draw(donors, want).1
            && Drawn(sources + [share]) == Drawn(sources) + take
  {
    var share := Share(donors[0].source, take);
    DrawOne(donors, want, take);
    DrawnJoins(sources, [share]);
    Associates(sources, [share], Draw([donors[0].(avail := donors[0].avail - take)] + donors[1..], want - take).0);
  }

  /** One area's turn: take from the donor at the index, move past the ones that are empty. */
  method Cover(start: seq<Donor>, from: nat, want: nat)
      returns (got: nat, sources: seq<Share>, donors: seq<Donor>, di: nat)
    requires from <= |start|
    ensures di <= |donors|
    ensures (sources, donors[di..]) == Draw(start[from..], want)
    ensures got == Drawn(sources) <= want
  {
    donors, di := start, from;
    got, sources := 0, [];
    ghost var all := Draw(start[from..], want);
    while want > got && di < |donors|
      invariant di <= |donors| && got <= want && Drawn(sources) == got
      invariant sources + Draw(donors[di..], want - got).0 == all.0 && Draw(donors[di..], want - got).1 == all.1
      decreases |donors| - di, want - got
    {
      var avail := donors[di].avail;
      if avail == 0 {
        assert donors[di..][1..] == donors[di + 1..];
        di := di + 1;
      } else {
        var take := if avail < want - got then avail else want - got;
        CoverStep(sources, donors[di..], want - got, take);
        Slid(donors, di, donors[di].(avail := avail - take));
        sources := sources + [Share(donors[di].source, take)];
        donors := donors[di := donors[di].(avail := avail - take)];
        got := got + take;
      }
    }
    assert Draw(donors[di..], want - got) == ([], donors[di..]);
    assert sources + [] == sources;
  }

  /** What an area gets out of this donor list, and what it leaves of it. */
  predicate Served(r: Rec, donors: seq<Donor>, priority: seq<Npa>, e: Entry, after: seq<Donor>)
    requires Shortfall(r) > 0
  {
    && (e.from, after) == Draw(donors, Shortfall(r))
    && e == Entry(r.npa, Drawn(e.from), Shortfall(r) - Drawn(e.from), e.from, r.npa in priority)
  }

  method Serve(r: Rec, start: seq<Donor>, from: nat, priority: seq<Npa>)
      returns (e: Entry, donors: seq<Donor>, di: nat)
    requires from <= |start| && Shortfall(r) > 0
    ensures di <= |donors| && Served(r, start[from..], priority, e, donors[di..])
  {
    var got, sources;
    got, sources, donors, di := Cover(start, from, Shortfall(r));
    e := Entry(r.npa, got, Shortfall(r) - got, sources, r.npa in priority);
  }

  /** The greedy matching as the report runs it: one index into a donor list that is copied, not shared. */
  method Match(recs: seq<Rec>, surplus: seq<Donor>, priority: seq<Npa>) returns (plan: seq<Entry>)
    ensures plan == Allot(ShortList(recs, priority), surplus, priority)
  {
    var donors := surplus;
    var short := ShortList(recs, priority);
    var di: nat := 0;
    plan := [];
    ghost var all := Allot(short, surplus, priority);
    for k := 0 to |short|
      invariant di <= |donors|
      invariant plan + Allot(short[k..], donors[di..], priority) == all
    {
      ghost var before, left := plan, donors[di..];
      var e;
      e, donors, di := Serve(short[k], donors, di, priority);
      plan := plan + [e];
      AllotStep(before, short, k, left, priority, e, donors[di..]);
    }
  }

  lemma AllotHead(short: seq<Rec>, donors: seq<Donor>, priority: seq<Npa>, e: Entry, after: seq<Donor>)
    requires short != [] && forall r :: r in short ==> Shortfall(r) > 0
    requires Served(short[0], donors, priority, e, after)
    ensures Allot(short, donors, priority) == [e] + Allot(short[1..], after, priority)
  {
  }

  lemma AllotStep(plan: seq<Entry>, short: seq<Rec>, k: nat, donors: seq<Donor>, priority: seq<Npa>, e: Entry,
                  after: seq<Donor>)
    requires k < |short| && forall r :: r in short ==> Shortfall(r) > 0
    requires Served(short[k], donors, priority, e, after)
    ensures plan + Allot(short[k..], donors, priority) == (plan + [e]) + Allot(short[k + 1..], after, priority)
  {
    assert short[k..][1..] == short[k + 1..];
    AllotHead(short[k..], donors, priority, e, after);
    Regroup(plan, e, Allot(short[k + 1..], after, priority));
  }

  lemma Regroup(plan: seq<Entry>, e: Entry, rest: seq<Entry>)
    ensures plan + ([e] + rest) == (plan + [e]) + rest
  {
  }

  lemma {:induction false} DrawnJoins(a: seq<Share>, b: seq<Share>)
    ensures Drawn(a + b) == Drawn(a) + Drawn(b)
    decreases |a|
  {
    if a == [] {
      assert a + b == b;
    } else {
      DrawnJoins(a[1..], b);
      assert (a + b)[1..] == a[1..] + b;
    }
  }

  lemma {:induction false} ShortRecsAreShort(recs: seq<Rec>)
    ensures forall r :: r in ShortRecs(recs) ==> Shortfall(r) > 0 && r in recs
    ensures forall r :: r in recs && Shortfall(r) > 0 ==> r in ShortRecs(recs)
    decreases |recs|
  {
    if recs != [] {
      ShortRecsAreShort(recs[..|recs| - 1]);
      assert recs == recs[..|recs| - 1] + [recs[|recs| - 1]];
    }
  }

  /** The short areas in the order they are served. */
  function ShortList(recs: seq<Rec>, priority: seq<Npa>): (short: seq<Rec>)
    ensures forall r :: r in short <==> r in recs && Shortfall(r) > 0
  {
    ShortRecsAreShort(recs);
    SortMembers(ShortRecs(recs), ShortOrder(priority));
    Sort(ShortRecs(recs), ShortOrder(priority))
  }

  // ---- What the greedy matching achieves ----

  function Avail(donors: seq<Donor>): nat {
    if donors == [] then 0 else donors[0].avail + Avail(donors[1..])
  }

  function AvailFrom(donors: seq<Donor>, source: PoolKey): nat {
    if donors == [] then 0
    else (if donors[0].source == source then donors[0].avail else 0) + AvailFrom(donors[1..], source)
  }

  function DrawnFrom(shares: seq<Share>, source: PoolKey): nat {
    if shares == [] then 0
    else (if shares[0].source == source then shares[0].n else 0) + DrawnFrom(shares[1..], source)
  }

  function GivenBy(plan: seq<Entry>, source: PoolKey): nat {
    if plan == [] then 0 else DrawnFrom(plan[0].from, source) + GivenBy(plan[1..], source)
  }

  function Received(plan: seq<Entry>, npa: Npa): nat {
    if plan == [] then 0 else (if plan[0].npa == npa then plan[0].realloc else 0) + Received(plan[1..], npa)
  }

  function Moved(plan: seq<Entry>): nat {
    if plan == [] then 0 else plan[0].realloc + Moved(plan[1..])
  }

  function TotalShort(short: seq<Rec>): int {
    if short == [] then 0 else Shortfall(short[0]) + TotalShort(short[1..])
  }

  /** A draw takes all it can, only from what each source had. */
  lemma {:induction false} DrawTakes(donors: seq<Donor>, want: nat)
    ensures var (from, rest) := Draw(donors, want);
            && Drawn(from) == Min(want, Avail(donors))
            && Avail(rest) == Avail(donors) - Drawn(from)
            && (forall s :: AvailFrom(rest, s) + DrawnFrom(from, s) == AvailFrom(donors, s))
            && (forall i :: 0 <= i < |from| ==> from[i].n > 0)
    decreases |donors|, want
  {
    if want > 0 && donors != [] {
      if donors[0].avail == 0 {
        DrawTakes(donors[1..], want);
      } else {
        var take := Min(donors[0].avail, want);
        var left := [donors[0].(avail := donors[0].avail - take)] + donors[1..];
        DrawTakes(left, want - take);
        var (more, rest) := Draw(left, want - take);
        assert ([Share(donors[0].source, take)] + more)[1..] == more;
        assert left[1..] == donors[1..];
      }
    }
  }

  lemma {:induction false} AllotEntries(short: seq<Rec>, donors: seq<Donor>, priority: seq<Npa>)
    requires forall r :: r in short ==> Shortfall(r) > 0
    ensures var plan := Allot(short, donors, priority);
            && |plan| == |short|
            && forall k :: 0 <= k < |plan| ==> plan[k].npa == short[k].npa && plan[k].realloc == Drawn(plan[k].from)
                                               && plan[k].realloc + plan[k].buy == Shortfall(short[k])
                                               && plan[k].buy >= 0
    decreases |short|
  {
    if short != [] {
      DrawTakes(donors, Shortfall(short[0]));
      AllotEntries(short[1..], Draw(donors, Shortfall(short[0])).1, priority);
    }
  }

  lemma {:induction false} AllotTotals(short: seq<Rec>, donors: seq<Donor>, priority: seq<Npa>)
    requires forall r :: r in short ==> Shortfall(r) > 0
    ensures var plan := Allot(short, donors, priority);
            && Moved(plan) == Min(TotalShort(short), Avail(donors))
            && (forall s :: GivenBy(plan, s) <= AvailFrom(donors, s))
    ensures TotalShort(short) >= 0
    decreases |short|
  {
    if short != [] {
      var after := Draw(donors, Shortfall(short[0])).1;
      DrawTakes(donors, Shortfall(short[0]));
      AllotTotals(short[1..], after, priority);
      assert Allot(short, donors, priority)[1..] == Allot(short[1..], after, priority);
    }
  }

  /** Greedy covers exactly the lesser of total shortfall and total surplus, and accounts for every shortfall. */
  lemma AllotCovers(short: seq<Rec>, donors: seq<Donor>, priority: seq<Npa>)
    requires forall r :: r in short ==> Shortfall(r) > 0
    ensures var plan := Allot(short, donors, priority);
            && |plan| == |short|
            && Moved(plan) == Min(TotalShort(short), Avail(donors))
            && (forall k :: 0 <= k < |plan| ==> plan[k].npa == short[k].npa && plan[k].realloc == Drawn(plan[k].from)
                                                 && plan[k].realloc + plan[k].buy == Shortfall(short[k])
                                                 && plan[k].buy >= 0)
            && (forall s :: GivenBy(plan, s) <= AvailFrom(donors, s))
    ensures TotalShort(short) >= 0
  {
    AllotEntries(short, donors, priority);
    AllotTotals(short, donors, priority);
  }

  /** More surplus never gives any area less. */
  lemma {:induction false} MoreSurplusGivesMore(short: seq<Rec>, fewer: seq<Donor>, more: seq<Donor>,
                                                priority: seq<Npa>, npa: Npa)
    requires forall r :: r in short ==> Shortfall(r) > 0
    requires Avail(fewer) <= Avail(more)
    ensures Received(Allot(short, fewer, priority), npa) <= Received(Allot(short, more, priority), npa)
    decreases |short|
  {
    if short != [] {
      var want := Shortfall(short[0]);
      DrawTakes(fewer, want);
      DrawTakes(more, want);
      MoreSurplusGivesMore(short[1..], Draw(fewer, want).1, Draw(more, want).1, priority, npa);
      assert Allot(short, fewer, priority)[1..] == Allot(short[1..], Draw(fewer, want).1, priority);
      assert Allot(short, more, priority)[1..] == Allot(short[1..], Draw(more, want).1, priority);
    }
  }

  // ---- Two passes: overflow donates only what the first pass leaves idle ----

  /** Pool sizes by NPA, before any move. */
  function Base(recs: seq<Rec>): map<Npa, int> {
    if recs == [] then map[] else Base(recs[..|recs| - 1])[recs[|recs| - 1].npa := recs[|recs| - 1].poolSize]
  }

  /** Pool sizes with what the plan brings in, and nothing taken out: what overflow's need is measured against. */
  function Enlarged(sizes: map<Npa, int>, plan: seq<Entry>): map<Npa, int>
    decreases |plan|
  {
    if plan == [] then sizes
    else Enlarged(sizes[plan[0].npa := Size(sizes, plan[0].npa) + plan[0].realloc], plan[1..])
  }

  function WorstSpill(demand: seq<NpaDemand>, days: seq<Day>, sizes: map<Npa, int>, cap: nat): nat {
    if days == [] then 0
    else Max(WorstSpill(demand, days[..|days| - 1], sizes, cap), Spill(demand, days[|days| - 1], sizes, cap))
  }

  function OverflowNeed(demand: seq<NpaDemand>, days: seq<Day>, recs: seq<Rec>, plan: seq<Entry>, cap: nat,
                        overflowMin: nat): nat
    requires cap > 0
  {
    var worst := WorstSpill(demand, days, Enlarged(Base(recs), plan), cap);
    Max(overflowMin, Ceil(worst as real / cap as real))
  }

  method MeasureOverflowNeed(demand: seq<NpaDemand>, days: seq<Day>, recs: seq<Rec>, plan: seq<Entry>, cap: nat,
                             overflowMin: nat)
      returns (need: nat)
    requires cap > 0
    ensures need == OverflowNeed(demand, days, recs, plan, cap, overflowMin)
  {
    var sizes := Base(recs);
    for k := 0 to |plan|
      invariant Enlarged(sizes, plan[k..]) == Enlarged(Base(recs), plan)
    {
      sizes := sizes[plan[k].npa := Size(sizes, plan[k].npa) + plan[k].realloc];
      assert plan[k..][1..] == plan[k + 1..];
    }
    var worst := 0;
    for i := 0 to |days|
      invariant worst == WorstSpill(demand, days[..i], sizes, cap)
    {
      assert days[..i + 1][..i] == days[..i];
      var spill, _ := ReplayDay(demand, days[i], sizes, cap);
      worst := Max(worst, spill);
    }
    assert days[..|days|] == days;
    need := Max(overflowMin, Ceil(worst as real / cap as real));
  }

  function FirstDonors(recs: seq<Rec>): seq<Donor> {
    Sort(NpaDonors(recs), MoreSurplusFirst)
  }

  function OverflowSurplus(demand: seq<NpaDemand>, days: seq<Day>, recs: seq<Rec>, overflow: nat, cap: nat,
                           overflowMin: nat, priority: seq<Npa>): nat
    requires cap > 0
  {
    var first := Allot(ShortList(recs, priority), FirstDonors(recs), priority);
    Max(0, overflow - OverflowNeed(demand, days, recs, first, cap, overflowMin))
  }

  /** Who may give, overflow last. */
  function AllDonors(demand: seq<NpaDemand>, days: seq<Day>, recs: seq<Rec>, overflow: nat, cap: nat,
                     overflowMin: nat, priority: seq<Npa>): seq<Donor>
    requires cap > 0
  {
    var spare := OverflowSurplus(demand, days, recs, overflow, cap, overflowMin, priority);
    FirstDonors(recs) + if spare > 0 then [Donor(OverflowPool, spare)] else []
  }

  function Plan(demand: seq<NpaDemand>, days: seq<Day>, recs: seq<Rec>, overflow: nat, cap: nat, overflowMin: nat,
                priority: seq<Npa>): seq<Entry>
    requires cap > 0
  {
    Allot(ShortList(recs, priority), AllDonors(demand, days, recs, overflow, cap, overflowMin, priority), priority)
  }

  method PlanReallocation(demand: seq<NpaDemand>, days: seq<Day>, recs: seq<Rec>, overflow: nat, cap: nat,
                          overflowMin: nat, priority: seq<Npa>)
      returns (plan: seq<Entry>)
    requires cap > 0
    ensures plan == Plan(demand, days, recs, overflow, cap, overflowMin, priority)
  {
    var donors := Sort(NpaDonors(recs), MoreSurplusFirst);
    var first := Match(recs, donors, priority);
    var need := MeasureOverflowNeed(demand, days, recs, first, cap, overflowMin);
    var spare := Max(0, overflow - need);
    if spare > 0 {
      donors := donors + [Donor(OverflowPool, spare)];
    }
    plan := Match(recs, donors, priority);
    assert donors == FirstDonors(recs) + if spare > 0 then [Donor(OverflowPool, spare)] else [];
  }

  /** Pool sizes and overflow once the plan is applied. */
  function SettledSizes(sizes: map<Npa, int>, plan: seq<Entry>): map<Npa, int>
    decreases |plan|
  {
    if plan == [] then sizes
    else SettledSizes(Taken(sizes[plan[0].npa := Size(sizes, plan[0].npa) + plan[0].realloc], plan[0].from), plan[1..])
  }

  function Taken(sizes: map<Npa, int>, from: seq<Share>): map<Npa, int>
    decreases |from|
  {
    if from == [] then sizes
    else
      Taken(match from[0].source
            case OverflowPool => sizes
            case Area(npa) => sizes[npa := Size(sizes, npa) - from[0].n], from[1..])
  }

  method PostReallocPools(recs: seq<Rec>, overflow: nat, plan: seq<Entry>) returns (sizes: map<Npa, int>, left: int)
    ensures sizes == SettledSizes(Base(recs), plan)
    ensures left == Max(overflow - GivenBy(plan, OverflowPool), 0)
  {
    sizes := Base(recs);
    var spare: int := overflow;
    for k := 0 to |plan|
      invariant SettledSizes(sizes, plan[k..]) == SettledSizes(Base(recs), plan)
      invariant spare - GivenBy(plan[k..], OverflowPool) == overflow - GivenBy(plan, OverflowPool)
    {
      var e := plan[k];
      ghost var rest := plan[k..];
      assert rest[0] == e && rest[1..] == plan[k + 1..];
      sizes := sizes[e.npa := Size(sizes, e.npa) + e.realloc];
      ghost var enlarged, had := sizes, spare;
      for j := 0 to |e.from|
        invariant Taken(sizes, e.from[j..]) == Taken(enlarged, e.from)
        invariant spare - DrawnFrom(e.from[j..], OverflowPool) == had - DrawnFrom(e.from, OverflowPool)
      {
        assert e.from[j..][1..] == e.from[j + 1..];
        match e.from[j].source {
          case OverflowPool => spare := spare - e.from[j].n;
          case Area(src) => sizes := sizes[src := Size(sizes, src) - e.from[j].n];
        }
      }
    }
    left := Max(spare, 0);
  }
}
