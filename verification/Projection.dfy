/** Daily demand totals, and the refusals projected from them. */
module Projection {
  import opened Numbers

  type Npa = string
  type Day = string

  /** One row of demand: calls per day that reached DID selection for this destination NPA. */
  datatype NpaDemand = NpaDemand(npa: Npa, perDay: map<Day, nat>)

  function On(d: NpaDemand, day: Day): nat {
    if day in d.perDay then d.perDay[day] else 0
  }

  function Size(sizes: map<Npa, int>, npa: Npa): int {
    if npa in sizes then sizes[npa] else 0
  }

  predicate DistinctNpas(demand: seq<NpaDemand>) {
    forall i, j :: 0 <= i < j < |demand| ==> demand[i].npa != demand[j].npa
  }

  /** Calls an NPA pool of this size cannot carry on the day. */
  function Excess(d: NpaDemand, day: Day, sizes: map<Npa, int>, cap: nat): nat {
    if On(d, day) == 0 then 0 else Max(0, On(d, day) - Size(sizes, d.npa) * cap)
  }

  /** Calls that fall through to overflow on the day. */
  function Spill(demand: seq<NpaDemand>, day: Day, sizes: map<Npa, int>, cap: nat): nat {
    if demand == [] then 0
    else Spill(demand[..|demand| - 1], day, sizes, cap) + Excess(demand[|demand| - 1], day, sizes, cap)
  }

  /** Calls refused on the day: what overflow cannot carry either. */
  function Projected(demand: seq<NpaDemand>, day: Day, sizes: map<Npa, int>, overflow: nat, cap: nat): nat {
    Max(0, Spill(demand, day, sizes, cap) - overflow * cap)
  }

  function TotalOn(demand: seq<NpaDemand>, day: Day): nat {
    if demand == [] then 0 else TotalOn(demand[..|demand| - 1], day) + On(demand[|demand| - 1], day)
  }

  function TotalProjected(demand: seq<NpaDemand>, days: seq<Day>, sizes: map<Npa, int>, overflow: nat, cap: nat): nat {
    if days == [] then 0
    else
      TotalProjected(demand, days[..|days| - 1], sizes, overflow, cap)
      + Projected(demand, days[|days| - 1], sizes, overflow, cap)
  }

  function TotalDemand(demand: seq<NpaDemand>, days: seq<Day>): nat {
    if days == [] then 0
    else TotalDemand(demand, days[..|days| - 1]) + TotalOn(demand, days[|days| - 1])
  }

  method ReplayDay(demand: seq<NpaDemand>, day: Day, sizes: map<Npa, int>, cap: nat) returns (spill: nat, total: nat)
    ensures spill == Spill(demand, day, sizes, cap) && total == TotalOn(demand, day)
  {
    spill, total := 0, 0;
    for j := 0 to |demand|
      invariant spill == Spill(demand[..j], day, sizes, cap)
      invariant total == TotalOn(demand[..j], day)
    {
      assert demand[..j + 1][..j] == demand[..j];
      var d := On(demand[j], day);
      if d == 0 {
        continue;
      }
      total := total + d;
      spill := spill + Max(0, d - Size(sizes, demand[j].npa) * cap);
    }
    assert demand[..|demand|] == demand;
  }

  /** The replay of every day from its totals, as the capacity report computes it. */
  method SimulateRefusals(demand: seq<NpaDemand>, days: seq<Day>, sizes: map<Npa, int>, overflow: nat, cap: nat)
      returns (refused: nat, total: nat, perDay: map<Day, (nat, nat)>)
    ensures refused == TotalProjected(demand, days, sizes, overflow, cap)
    ensures total == TotalDemand(demand, days)
    ensures perDay.Keys == set day | day in days
    ensures forall day :: day in days ==>
              perDay[day] == (Spill(demand, day, sizes, cap), Projected(demand, day, sizes, overflow, cap))
  {
    refused, total, perDay := 0, 0, map[];
    for i := 0 to |days|
      invariant refused == TotalProjected(demand, days[..i], sizes, overflow, cap)
      invariant total == TotalDemand(demand, days[..i])
      invariant perDay.Keys == set day | day in days[..i]
      invariant forall day :: day in days[..i] ==>
                  perDay[day] == (Spill(demand, day, sizes, cap), Projected(demand, day, sizes, overflow, cap))
    {
      assert days[..i + 1] == days[..i] + [days[i]];
      var spill, onDay := ReplayDay(demand, days[i], sizes, cap);
      var lost := Max(0, spill - overflow * cap);
      perDay := perDay[days[i] := (spill, lost)];
      refused := refused + lost;
      total := total + onDay;
    }
    assert days[..|days|] == days;
  }
}
