/** What reaching Dial means, what a day of calls does to the counters, and which refusals the projection counts. */
module DialplanLaws {
  import opened Common
  import opened DidRing
  import opened Projection
  import opened Refusals
  import opened Dialplan

  /** The first failing check is missing exactly when every check passes. */
  lemma NoReasonIffAdmitted(c: Config, call: Invite)
    ensures Why(c, call).None? <==> Admitted(c, call)
  {
  }

  /**
   A call that reaches Dial has passed every check, and asserts either the customer's own usable number, on a
   transfer leg and with nothing charged, or a well-formed number of ours that has just been charged once.
   */
  lemma DialedMeansChecked(c: Config, box: Box, call: Invite)
    requires Handled(c, box, call).0.Dialing?
    ensures Admitted(c, call)
    ensures c.nanpOnly ==> NanpShaped(Handled(c, box, call).0.dest)
    ensures var (r, after) := Handled(c, box, call);
            && r.num == r.ani && r.dest == DestOf(c, call.exten)
            && (r.own.None? ==> PassesThrough(c, call) && r.num == call.cid && after == box)
            && (r.own.Some? ==> !PassesThrough(c, call) && r.num == r.own.value && NanpShaped(r.num)
                                && r.num in AllDids(c.fleet) && Used(box.counts, r.num) < c.cap
                                && forall d :: Used(after.counts, d) == Used(box.counts, d) 
                                                                 + if d == r.num then 1 else 0)
  {
    NoReasonIffAdmitted(c, call);
    if !PassesThrough(c, call) {
      PlaceCharges(c.fleet, box, NpaOf(DestOf(c, call.exten)), c.cap);
    }
  }

  lemma {:induction false} DigitsOfDigits(s: string)
    ensures Digits(Digits(s)) == Digits(s)
  {
    if s != "" {
      DigitsOfDigits(s[1..]);
      var rest := Digits(s[1..]);
      if '0' <= s[0] <= '9' {
        assert ([s[0]] + rest)[1..] == rest;
      } else {
        assert "" + rest == rest;
      }
    }
  }

  /** Of a customer's caller ID only the digits are looked at. */
  lemma OnlyDigitsAreVetted(cid: string, dest: string)
    ensures CidOk(cid, dest) <==> CidOk(Digits(cid), dest)
  {
    DigitsOfDigits(cid);
  }

  predicate AllDigits(s: string) {
    forall i :: 0 <= i < |s| ==> '0' <= s[i] <= '9'
  }

  /** A number a far end could call back: ten or eleven digits in the shape of the plan, and nothing else. */
  predicate NanpNumber(s: string) {
    AllDigits(s) && NanpShaped(ElevenDigits(s))
  }

  lemma {:induction false} DigitsAreDigits(s: string)
    ensures AllDigits(Digits(s)) && (AllDigits(s) <==> Digits(s) == s) && |Digits(s)| <= |s|
  {
    if s != "" {
      DigitsAreDigits(s[1..]);
      if '0' <= s[0] <= '9' {
        assert s == [s[0]] + s[1..];
        assert Digits(s) == [s[0]] + Digits(s[1..]);
        assert Digits(s)[1..] == Digits(s[1..]);
      } else {
        assert |Digits(s)| < |s|;
      }
    }
  }

  /**
   The number a transfer leg asserts is one that could be called back if and only if the customer sent digits
   and nothing else.
   */
  lemma TransferNumberIsNanpIff(c: Config, box: Box, call: Invite)
    requires Handled(c, box, call).0.Dialing? && Handled(c, box, call).0.own.None?
    ensures NanpNumber(Handled(c, box, call).0.num) <==> Digits(call.cid) == call.cid
  {
    DialedMeansChecked(c, box, call);
    DigitsAreDigits(call.cid);
  }

  lemma PlusAddsNoDigit(n: string)
    ensures Digits("+" + n) == Digits(n)
  {
    assert ("+" + n)[1..] == n;
    assert "" + Digits(n) == Digits(n);
  }

  /** Any transfer leg that asserts a good number would assert it with a plus in front, had the customer sent that. */
  lemma APlusGoesOut(c: Config, box: Box, call: Invite)
    requires Handled(c, box, call).0.Dialing? && Handled(c, box, call).0.own.None?
    ensures var plus := "+" + call.cid;
            && Handled(c, box, call.(cid := plus)).0 == Dialing(DestOf(c, call.exten), plus, plus, None)
            && !NanpNumber(plus)
  {
    DialedMeansChecked(c, box, call);
    var other := call.(cid := "+" + call.cid);
    PlusAddsNoDigit(call.cid);
    assert CidOk(other.cid, DestOf(c, call.exten)) <==> CidOk(call.cid, DestOf(c, call.exten));
    NoReasonIffAdmitted(c, other);
    assert other.cid[0] == '+';
  }

  /** A box that takes transfers to toll-free area `npa`, with nothing else switched on. */
  function TransferBox(npa: string): Config {
    Config(false, true, false, false, {}, {}, false, 1, 1, true, {npa}, 1, 0, Fleet([], []), 0)
  }

  function Leg(dest: string, cid: string): Invite {
    Invite(dest, cid, "customer", "address", 0, 1, 1, Portal(None, {}, {}, {}), None)
  }

  lemma LegDestination(dest: string, cid: string, npa: string)
    requires AllDigits(dest) && NanpShaped(dest)
    ensures DestOf(TransferBox(npa), Leg(dest, cid).exten) == dest
  {
    DigitsAreDigits(dest);
  }

  lemma LegAdmitted(dest: string, cid: string, npa: string)
    requires AllDigits(dest) && NanpShaped(dest) && dest[2..4] != "11"
    ensures Why(TransferBox(npa), Leg(dest, cid)).None?
  {
    LegDestination(dest, cid, npa);
    DigitsAreDigits(dest);
    assert !HighCost(TransferBox(npa), dest);
  }

  lemma LegTransfers(dest: string, cid: string)
    requires AllDigits(dest) && NanpShaped(dest)
    ensures TransferLeg(TransferBox(NpaOf(dest)), Leg(dest, cid))
  {
    LegDestination(dest, cid, NpaOf(dest));
  }

  lemma PlusIsUsable(n: string, dest: string)
    requires AllDigits(n) && NanpShaped(n) && n != dest
    ensures CidOk("+" + n, dest) && !NanpNumber("+" + n)
  {
    DigitsAreDigits(n);
    PlusAddsNoDigit(n);
    assert ("+" + n)[0] == '+';
  }

  /** To any toll-free destination, any good number with a plus in front is dialled, and the plus goes out. */
  lemma APlusInPractice(dest: string, n: string, box: Box)
    requires AllDigits(dest) && NanpShaped(dest) && dest[2..4] != "11"
    requires AllDigits(n) && NanpShaped(n) && n != dest
    ensures Handled(TransferBox(NpaOf(dest)), box, Leg(dest, "+" + n)).0 == Dialing(dest, "+" + n, "+" + n, None)
    ensures !NanpNumber("+" + n)
  {
    LegDestination(dest, "+" + n, NpaOf(dest));
    LegAdmitted(dest, "+" + n, NpaOf(dest));
    LegTransfers(dest, "+" + n);
    PlusIsUsable(n, dest);
  }

  lemma {:induction false} PoolIsOwned(pools: seq<Pool>, npa: Npa, d: Did)
    requires d in PoolOf(pools, npa)
    ensures d in PoolDids(pools)
    decreases |pools|
  {
    if pools[|pools| - 1].npa != npa {
      PoolIsOwned(pools[..|pools| - 1], npa, d);
    }
  }

  lemma PickCharges(box: Box, key: PoolKey, dids: seq<Did>, cap: nat)
    ensures var (r, after) := PickPool(box, key, dids, cap);
            && (r.None? ==> after.counts == box.counts && forall d :: d in dids ==> Used(box.counts, d) >= cap)
            && (r.Some? ==>
                  r.value in dids && Used(box.counts, r.value) < cap && after.counts == Raise(box.counts, r.value))
  {
    EmptyIffAllCapped(dids, (if key in box.rotors then box.rotors[key] else 0) + 1, cap, box.counts);
  }

  /** Selection charges the number it returns, once, or charges nothing. */
  lemma PlaceCharges(fleet: Fleet, box: Box, npa: Npa, cap: nat)
    ensures var (o, after) := Place(fleet, box, npa, cap);
            && (DidOf(o).None? ==> after.counts == box.counts
                                   && forall d :: d in PoolOf(fleet.pools, npa) + fleet.overflow ==>
                                        Used(box.counts, d) >= cap)
            && (DidOf(o).Some? ==> o.did in AllDids(fleet) && Used(box.counts, o.did) < cap
                                   && after.counts == Raise(box.counts, o.did))
  {
    var own := PoolOf(fleet.pools, npa);
    var (first, mid) := PickPool(box, Area(npa), own, cap);
    PickCharges(box, Area(npa), own, cap);
    PickCharges(mid, OverflowPool, fleet.overflow, cap);
    if first.Some? {
      PoolIsOwned(fleet.pools, npa, first.value);
    }
  }

  /** A usable destination with the checks passed is dialled, or refused for want of a usable number of ours. */
  lemma AdmittedIsDialedUnlessNoDid(c: Config, box: Box, call: Invite)
    requires Admitted(c, call) && Handled(c, box, call).0.Rejected?
    ensures !PassesThrough(c, call)
    ensures var r := Handled(c, box, call).0;
            && (r.reason == NoDidAvailable || r.reason == BadSelectedDid)
            && (r.reason == NoDidAvailable ==>
                  forall d :: d in PoolOf(c.fleet.pools, NpaOf(DestOf(c, call.exten))) + c.fleet.overflow ==>
                                Used(box.counts, d) >= c.cap)
            && (r.reason == BadSelectedDid ==>
                  r.spent.Some? && !NanpShaped(r.spent.value) && r.spent.value in AllDids(c.fleet))
  {
    NoReasonIffAdmitted(c, call);
    PlaceCharges(c.fleet, box, NpaOf(DestOf(c, call.exten)), c.cap);
  }

  // ---- One day of calls ----

  datatype Shift = Shift(box: Box, results: seq<Result>)

  /** The calls of one day, one after another, counters fresh and rotors anywhere. */
  function Work(c: Config, rotors: map<PoolKey, nat>, calls: seq<Invite>): (s: Shift)
    ensures |s.results| == |calls|
    decreases |calls|
  {
    if calls == [] then Shift(Box(rotors, map[]), [])
    else
      var before := Work(c, rotors, calls[..|calls| - 1]);
      var (r, box) := Handled(c, before.box, calls[|calls| - 1]);
      Shift(box, before.results + [r])
  }

  /** The number of ours a result charged: the one it dialled with, or the malformed one it was refused over. */
  function Charged(r: Result): Option<Did> {
    match r
    case Dialing(_, _, _, own) => own
    case Rejected(_, spent) => spent
  }

  function Charges(results: seq<Result>, d: Did): nat {
    if results == [] then 0
    else Charges(results[..|results| - 1], d) + if Charged(results[|results| - 1]) == Some(d) then 1 else 0
  }

  /** Calls dialled with `d` asserted as a number of ours. */
  function Dials(results: seq<Result>, d: Did): nat {
    if results == [] then 0
    else
      var last := results[|results| - 1];
      Dials(results[..|results| - 1], d) + if last.Dialing? && last.own == Some(d) then 1 else 0
  }

  lemma HandledCharges(c: Config, box: Box, call: Invite)
    ensures var (r, after) := Handled(c, box, call);
            && (forall d :: Used(after.counts, d) == Used(box.counts, d) + if Charged(r) == Some(d) then 1 else 0)
            && (Charged(r).Some? ==> Used(box.counts, Charged(r).value) < c.cap)
            && (Charged(r).Some? && NanpShaped(Charged(r).value) ==> r.Dialing?)
  {
    PlaceCharges(c.fleet, box, NpaOf(DestOf(c, call.exten)), c.cap);
  }

  function Starved(results: seq<Result>): nat {
    if results == [] then 0
    else Starved(results[..|results| - 1])
         + if results[|results| - 1].Rejected? && results[|results| - 1].reason == NoDidAvailable then 1 else 0
  }

  lemma WorkOneMore(c: Config, rotors: map<PoolKey, nat>, calls: seq<Invite>, call: Invite)
    ensures var before, after := Work(c, rotors, calls), Work(c, rotors, calls + [call]);
            var (r, box) := Handled(c, before.box, call);
            && after == Shift(box, before.results + [r])
            && Starved(after.results) == Starved(before.results)
                                         + if r.Rejected? && r.reason == NoDidAvailable then 1 else 0
  {
    var before, after := Work(c, rotors, calls), Work(c, rotors, calls + [call]);
    assert (calls + [call])[..|calls|] == calls;
    assert after.results[..|after.results| - 1] == before.results;
  }

  ghost predicate Balanced(c: Config, s: Shift, d: Did) {
    Used(s.box.counts, d) == Charges(s.results, d) <= c.cap
  }

  lemma BalancedOneMore(c: Config, rotors: map<PoolKey, nat>, front: seq<Invite>, last: Invite, d: Did)
    requires Balanced(c, Work(c, rotors, front), d)
    ensures Balanced(c, Work(c, rotors, front + [last]), d)
  {
    ChargesOneMore(c, rotors, front, last, d);
  }

  lemma NothingCharged(c: Config, rotors: map<PoolKey, nat>, d: Did)
    ensures Balanced(c, Work(c, rotors, []), d)
  {
  }

  /** Every counter is the number of calls that charged it, and never passes the cap. */
  lemma {:induction false} CountersAreCharges(c: Config, rotors: map<PoolKey, nat>, calls: seq<Invite>, d: Did)
    ensures Balanced(c, Work(c, rotors, calls), d)
    decreases |calls|
  {
    if calls == [] {
      NothingCharged(c, rotors, d);
    } else {
      var front, last := calls[..|calls| - 1], calls[|calls| - 1];
      CountersAreCharges(c, rotors, front, d);
      BalancedOneMore(c, rotors, front, last, d);
      assert calls == front + [last];
    }
  }

  lemma ChargesOneMore(c: Config, rotors: map<PoolKey, nat>, front: seq<Invite>, last: Invite, d: Did)
    ensures var s, t := Work(c, rotors, front), Work(c, rotors, front + [last]);
            var r := Handled(c, s.box, last).0;
            var n := if Charged(r) == Some(d) then 1 else 0;
            && Used(t.box.counts, d) == Used(s.box.counts, d) + n
            && Charges(t.results, d) == Charges(s.results, d) + n
            && (n == 1 ==> Used(s.box.counts, d) < c.cap)
            && Dials(t.results, d) == Dials(s.results, d) + if r.Dialing? && r.own == Some(d) then 1 else 0
  {
    var s := Work(c, rotors, front);
    WorkOneMore(c, rotors, front, last);
    HandledCharges(c, s.box, last);
    AppendedCharges(s.results, Work(c, rotors, front + [last]).results);
  }

  lemma AppendedCharges(before: seq<Result>, after: seq<Result>)
    requires |after| == |before| + 1 && after[..|before|] == before
    ensures forall d :: Charges(after, d) == Charges(before, d) + if Charged(after[|before|]) == Some(d) then 1 else 0
    ensures forall d :: Dials(after, d) == Dials(before, d)
                                           + if after[|before|].Dialing? && after[|before|].own == Some(d) then 1 else 0
  {
    assert after[..|after| - 1] == before;
  }

  /** For a well-formed number, the counter is the number of calls dialled with it: at most the cap a day. */
  lemma {:induction false} CountersAreDials(c: Config, rotors: map<PoolKey, nat>, calls: seq<Invite>, d: Did)
    requires NanpShaped(d)
    ensures Dials(Work(c, rotors, calls).results, d) == Used(Work(c, rotors, calls).box.counts, d) <= c.cap
    decreases |calls|
  {
    if calls != [] {
      var front, last := calls[..|calls| - 1], calls[|calls| - 1];
      CountersAreDials(c, rotors, front, d);
      assert calls == front + [last];
      ChargesOneMore(c, rotors, front, last, d);
      HandledCharges(c, Work(c, rotors, front).box, last);
    }
  }

  // ---- The refusals the planner projects ----

  /** The call gets as far as selection. */
  predicate Selects(c: Config, call: Invite) {
    Admitted(c, call) && !PassesThrough(c, call)
  }

  /** The areas dialled by the calls that get as far as selection. */
  function SelectingAreas(c: Config, calls: seq<Invite>): seq<Npa> {
    if calls == [] then []
    else SelectingAreas(c, calls[..|calls| - 1])
         + if Selects(c, calls[|calls| - 1]) then [NpaOf(DestOf(c, calls[|calls| - 1].exten))] else []
  }

  lemma HandledIsPlaced(c: Config, box: Box, call: Invite)
    ensures var (r, after) := Handled(c, box, call);
            && (!Selects(c, call) ==> after == box && !(r.Rejected? && r.reason == NoDidAvailable))
            && (Selects(c, call) ==>
                  var (o, placed) := Place(c.fleet, box, NpaOf(DestOf(c, call.exten)), c.cap);
                  after == placed && (r.Rejected? && r.reason == NoDidAvailable <==> o.Refused?))
  {
    NoReasonIffAdmitted(c, call);
  }

  lemma AreasGrow(c: Config, calls: seq<Invite>, call: Invite)
    ensures SelectingAreas(c, calls + [call]) ==
            SelectingAreas(c, calls) + if Selects(c, call) then [NpaOf(DestOf(c, call.exten))] else []
  {
    assert (calls + [call])[..|calls|] == calls;
  }

  lemma PlaceOneMore(fleet: Fleet, rotors: map<PoolKey, nat>, areas: seq<Npa>, npa: Npa, cap: nat)
    ensures var before, after := PlaceAll(fleet, rotors, areas, cap), PlaceAll(fleet, rotors, areas + [npa], cap);
            var (o, box) := Place(fleet, before.box, npa, cap);
            && after.box == box
            && RefusedCalls(after.outcomes) == RefusedCalls(before.outcomes) + if o.Refused? then 1 else 0
  {
    var before, after := PlaceAll(fleet, rotors, areas, cap), PlaceAll(fleet, rotors, areas + [npa], cap);
    assert (areas + [npa])[..|areas|] == areas;
    assert after.outcomes[..|after.outcomes| - 1] == before.outcomes;
  }

  /** The box and the starved calls of a day are those of placing its areas. */
  ghost predicate Placed(c: Config, rotors: map<PoolKey, nat>, calls: seq<Invite>) {
    var s, p := Work(c, rotors, calls), PlaceAll(c.fleet, rotors, SelectingAreas(c, calls), c.cap);
    s.box == p.box && Starved(s.results) == RefusedCalls(p.outcomes)
  }

  lemma SelectingStep(c: Config, rotors: map<PoolKey, nat>, front: seq<Invite>, last: Invite)
    requires Selects(c, last) && Placed(c, rotors, front)
    ensures Placed(c, rotors, front + [last])
  {
    AreasGrow(c, front, last);
    WorkOneMore(c, rotors, front, last);
    HandledIsPlaced(c, Work(c, rotors, front).box, last);
    PlaceOneMore(c.fleet, rotors, SelectingAreas(c, front), NpaOf(DestOf(c, last.exten)), c.cap);
  }

  lemma IdleStep(c: Config, rotors: map<PoolKey, nat>, front: seq<Invite>, last: Invite)
    requires !Selects(c, last) && Placed(c, rotors, front)
    ensures Placed(c, rotors, front + [last])
  {
    AreasGrow(c, front, last);
    assert SelectingAreas(c, front + [last]) == SelectingAreas(c, front);
    WorkOneMore(c, rotors, front, last);
    HandledIsPlaced(c, Work(c, rotors, front).box, last);
  }

  /**
   A day of calls drives rotors and counters as placing the areas of its selecting calls does, refusal for refusal.
   */
  lemma {:induction false} ADayIsPlaced(c: Config, rotors: map<PoolKey, nat>, calls: seq<Invite>)
    ensures Placed(c, rotors, calls)
    decreases |calls|
  {
    if calls != [] {
      var front, last := calls[..|calls| - 1], calls[|calls| - 1];
      ADayIsPlaced(c, rotors, front);
      assert calls == front + [last];
      if Selects(c, last) {
        SelectingStep(c, rotors, front, last);
      } else {
        IdleStep(c, rotors, front, last);
      }
    }
  }

  /**
   The planner's figure is the dialplan's: over a day of whole calls, whatever else they run into, the calls
   refused for want of a number are exactly the projection from the daily totals of those that select.
   */
  lemma StarvedCallsAreProjected(c: Config, rotors: map<PoolKey, nat>, calls: seq<Invite>, demand: seq<NpaDemand>,
                                 day: Day)
    requires OnePoolPerNpa(c.fleet.pools) && Unshared(c.fleet)
    requires TotalsOf(demand, day, SelectingAreas(c, calls))
    ensures Starved(Work(c, rotors, calls).results) == Projected(demand, day, Sizes(c.fleet), |c.fleet.overflow|, c.cap)
  {
    ADayIsPlaced(c, rotors, calls);
    ProjectionIsExact(c.fleet, rotors, demand, day, SelectingAreas(c, calls), c.cap);
  }
}
