/** The checks of a call read off the call's own fields: what being dialled implies, and what each refusal means. */
module CallChecks {
  import opened Common
  import opened Refusals
  import opened Dialplan
  import opened DialplanLaws

  /** Ten digits get a leading one where only the numbering plan is allowed; otherwise the digits stand. */
  function Dialled(c: Config, call: Invite): string {
    var digits := Digits(call.exten);
    if c.nanpOnly && |digits| == 10 then "1" + digits else digits
  }

  /** Eleven digits, a leading one, and neither the area nor the exchange beginning with nought or one. */
  predicate InThePlan(n: string) {
    |n| == 11 && n[0] == '1' && '2' <= n[1] && '2' <= n[4]
  }

  predicate BadDestination(c: Config, dest: string) {
    |dest| == 0 || (c.nanpOnly && !(InThePlan(dest) && !(dest[2] == '1' && dest[3] == '1')))
  }

  /** Premium rate, or an area on the list. */
  predicate BlockedArea(c: Config, dest: string)
    requires c.nanpOnly ==> |dest| == 11
  {
    c.nanpOnly && ((c.block976 && dest[4..7] == "976") || (c.blockNpa && dest[1..4] in c.blockedNpas))
  }

  predicate Fresh(call: Invite) {
    call.portal.syncedAt.Some? && call.epoch <= call.portal.syncedAt.value + 300
  }

  predicate OutOfFunds(call: Invite) {
    Fresh(call) && (call.endpoint in call.portal.blocked || call.ip in call.portal.blocked)
  }

  /** What stands where an area code does. */
  function AreaOf(dest: string): string {
    if |dest| >= 4 then dest[1..4] else if |dest| >= 1 then dest[1..] else ""
  }

  predicate OutOfHours(call: Invite, dest: string) {
    Fresh(call) && call.endpoint in call.portal.enforced && AreaOf(dest) in call.portal.closed
  }

  /** The number itself is listed, or a proper prefix of it of at most ten digits is. */
  predicate Listed(c: Config, dest: string) {
    (|dest| >= 11 && dest in c.highCost)
    || exists n :: 1 <= n < |dest| && n <= 10 && dest[..n] in c.highCost
  }

  function CallerDigits(cid: string): string {
    var digits := Digits(cid);
    if |digits| == 10 then "1" + digits else digits
  }

  predicate BadCid(cid: string, dest: string) {
    !InThePlan(CallerDigits(cid)) || CallerDigits(cid) == dest
  }

  lemma PartIs(s: string, start: nat, len: nat)
    requires start + len <= |s|
    ensures Part(s, start, len) == s[start..start + len]
  {
  }

  lemma AreaIs(dest: string)
    ensures NpaOf(dest) == AreaOf(dest)
  {
  }

  lemma ListedIsHighCost(c: Config, dest: string)
    ensures Listed(c, dest) <==> HighCost(c, dest)
  {
    if HighCost(c, dest) {
      var prefix :| prefix in c.highCost && CoveredBy(dest, prefix);
      assert |prefix| < 11 ==> dest[..|prefix|] in c.highCost;
    }
    if Listed(c, dest) {
      if |dest| >= 11 && dest in c.highCost {
        assert CoveredBy(dest, dest);
      } else {
        var n :| 1 <= n < |dest| && n <= 10 && dest[..n] in c.highCost;
        assert CoveredBy(dest, dest[..n]);
      }
    }
  }

  lemma CidIs(cid: string, dest: string)
    ensures CidOk(cid, dest) <==> !BadCid(cid, dest)
  {
  }

  lemma DestinationIs(c: Config, call: Invite)
    ensures DestOf(c, call.exten) == Dialled(c, call)
    ensures DestinationOk(c, call.exten) <==> !BadDestination(c, Dialled(c, call))
  {
    var dest := Dialled(c, call);
    if |dest| == 11 {
      assert dest[2..4] == "11" <==> dest[2] == '1' && dest[3] == '1';
    }
  }

  lemma AreaAllowedIs(c: Config, dest: string)
    requires c.nanpOnly ==> |dest| == 11
    ensures AreaAllowed(c, dest) <==> !BlockedArea(c, dest)
  {
    if |dest| == 11 {
      PartIs(dest, 4, 3);
      PartIs(dest, 1, 3);
    }
  }

  lemma PortalIs(call: Invite, dest: string)
    ensures FundsOk(call) <==> !OutOfFunds(call)
    ensures HoursOk(call, dest) <==> !OutOfHours(call, dest)
  {
    AreaIs(dest);
  }

  /** Checks passed, by number: `k` of them, in the dialplan's order. */
  predicate Passes(c: Config, call: Invite, k: nat) {
    var dest := Dialled(c, call);
    && (k >= 1 ==> !c.killswitch)
    && (k >= 2 ==> !BadDestination(c, dest))
    && (k >= 3 ==> !BadDestination(c, dest) && !BlockedArea(c, dest))
    && (k >= 4 ==> !OutOfFunds(call))
    && (k >= 5 ==> !OutOfHours(call, dest))
    && (k >= 6 ==> !Listed(c, dest))
    && (k >= 7 ==> c.validateCid ==> !BadCid(call.cid, dest))
    && (k >= 8 ==> call.cps <= c.maxCps)
    && (k >= 9 ==> call.concurrent <= c.maxConcurrent)
  }

  lemma WhyIs(c: Config, call: Invite)
    ensures var dest, why := Dialled(c, call), Why(c, call);
            && (why == Some(Killswitch) <==> c.killswitch)
            && (why == Some(NotNanp) <==> Passes(c, call, 1) && BadDestination(c, dest))
            && (why == Some(BlockedNpa) <==> Passes(c, call, 2) && BlockedArea(c, dest))
            && (why == Some(NoFunds) <==> Passes(c, call, 3) && OutOfFunds(call))
            && (why == Some(CallingHours) <==> Passes(c, call, 4) && OutOfHours(call, dest))
            && (why == Some(HighCostPrefix) <==> Passes(c, call, 5) && Listed(c, dest))
            && (why == Some(BadCallerId) <==> Passes(c, call, 6) && c.validateCid && BadCid(call.cid, dest))
            && (why == Some(CpsLimit) <==> Passes(c, call, 7) && call.cps > c.maxCps)
            && (why == Some(ConcurrencyCap) <==> Passes(c, call, 8) && call.concurrent > c.maxConcurrent)
            && (why == None <==> Passes(c, call, 9))
  {
    var dest := Dialled(c, call);
    DestinationIs(c, call);
    PortalIs(call, dest);
    ListedIsHighCost(c, dest);
    CidIs(call.cid, dest);
    if !BadDestination(c, dest) {
      AreaAllowedIs(c, dest);
    }
  }

  /** Each refusal is given exactly when its own test fails and all before it passed; none of ours when all passed. */
  lemma EachRefusalMeans(c: Config, box: Box, call: Invite)
    ensures var dest, r := Dialled(c, call), Handled(c, box, call).0;
            && (r == Rejected(Killswitch, None) <==> c.killswitch)
            && (r == Rejected(NotNanp, None) <==> Passes(c, call, 1) && BadDestination(c, dest))
            && (r == Rejected(BlockedNpa, None) <==> Passes(c, call, 2) && BlockedArea(c, dest))
            && (r == Rejected(NoFunds, None) <==> Passes(c, call, 3) && OutOfFunds(call))
            && (r == Rejected(CallingHours, None) <==> Passes(c, call, 4) && OutOfHours(call, dest))
            && (r == Rejected(HighCostPrefix, None) <==> Passes(c, call, 5) && Listed(c, dest))
            && (r == Rejected(BadCallerId, None) <==> Passes(c, call, 6) && c.validateCid && BadCid(call.cid, dest))
            && (r == Rejected(CpsLimit, None) <==> Passes(c, call, 7) && call.cps > c.maxCps)
            && (r == Rejected(ConcurrencyCap, None) <==> Passes(c, call, 8) && call.concurrent > c.maxConcurrent)
            && (r.Rejected? && (r.reason == NoDidAvailable || r.reason == BadSelectedDid) ==> Passes(c, call, 9))
  {
    WhyIs(c, call);
  }

  /** What every dialled call has in its fields. */
  lemma DialedFields(c: Config, box: Box, call: Invite)
    requires Handled(c, box, call).0.Dialing?
    ensures var dest := Handled(c, box, call).0.dest;
            var p := call.portal;
            var area := if |dest| >= 4 then dest[1..4] else if |dest| >= 1 then dest[1..] else "";
            && !c.killswitch && dest != ""
            && (c.nanpOnly ==> |dest| == 11 && dest[0] == '1' && dest[1] >= '2' && dest[4] >= '2'
                               && !(dest[2] == '1' && dest[3] == '1'))
            && (c.nanpOnly && c.block976 ==> dest[4..7] != "976")
            && (c.nanpOnly && c.blockNpa ==> dest[1..4] !in c.blockedNpas)
            && (p.syncedAt.Some? && call.epoch - p.syncedAt.value <= 300 ==>
                  && call.endpoint !in p.blocked && call.ip !in p.blocked
                  && (call.endpoint in p.enforced ==> area !in p.closed))
            && (|dest| >= 11 ==> dest !in c.highCost)
            && (forall n :: 1 <= n < |dest| && n <= 10 ==> dest[..n] !in c.highCost)
            && call.cps <= c.maxCps && call.concurrent <= c.maxConcurrent
  {
    WhyIs(c, call);
    DialedMeansChecked(c, box, call);
    DestinationIs(c, call);
  }

  /** Answered `minCalls` times or more, and longer than `minAcd` on average. */
  predicate LearnedTransfer(c: Config, l: Learned) {
    l.flag != 'S' && (l.flag == 'P' || (l.answered >= c.minCalls && l.billsec > c.minAcd * l.answered))
  }

  /**
   A dialled call asserts the customer's own number if and only if transfers are on, its destination is toll-free,
   pinned or learned and not suppressed, and the number is in the plan and not the one dialled; else one of ours.
   */
  lemma OwnNumberIff(c: Config, box: Box, call: Invite)
    requires Handled(c, box, call).0.Dialing?
    ensures var r := Handled(c, box, call).0;
            && r.dest == Dialled(c, call) && r.num == r.ani
            && (r.own.None? <==> && c.transfers && !BadCid(call.cid, r.dest)
                                 && (|| AreaOf(r.dest) in c.tollFree
                                     || (call.learned.Some? && LearnedTransfer(c, call.learned.value))))
            && (r.own.None? ==> r.num == call.cid)
            && (r.own.Some? ==> r.num == r.own.value && r.num in AllDids(c.fleet) && InThePlan(r.num))
  {
    DialedMeansChecked(c, box, call);
    DestinationIs(c, call);
    CidIs(call.cid, Dialled(c, call));
    AreaIs(Dialled(c, call));
  }
}
