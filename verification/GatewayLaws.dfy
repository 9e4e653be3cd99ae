/** The gateway loop read off what each look brought: which outcomes end a call, and which go on to the next gateway. */
module GatewayLaws {
  import opened Gateways

  /** Looks of which each is one gateway on from the one before, round the ring. */
  ghost predicate RoundTheRing(looks: seq<Look>, first: nat, count: nat) {
    && (looks != [] ==> looks[0].gw == first)
    && forall k :: 0 <= k < |looks| - 1 ==> looks[k + 1].gw == if looks[k].gw == count then 1 else looks[k].gw + 1
  }

  lemma GatewayAt(r: Ring, w: Weather, first: nat, looks: seq<Look>, ending: Ending, k: nat)
    requires Routed(r, w, first, looks, ending) && k < |looks|
    ensures looks[k].gw == Along(first, k, r.count) && 1 <= looks[k].gw <= r.count
  {
    RoutedLooks(r, w, first, looks, ending, k);
    AlongAdds(first, k, 0, r.count);
  }

  /** The looks go round the ring from the first gateway; one is a skip exactly if its gateway was over its grant. */
  lemma LooksGoRound(r: Ring, w: Weather, first: nat, looks: seq<Look>, ending: Ending)
    requires Routed(r, w, first, looks, ending)
    ensures looks != [] && RoundTheRing(looks, first, r.count)
    ensures forall k :: 0 <= k < |looks| ==> (looks[k].Skip? <==> w.busy(k))
    ensures forall k :: 0 <= k < |looks| && looks[k].Invite? ==> looks[k].outcome == w.outcome(k)
  {
    forall k: nat | k < |looks|
      ensures looks[k].Skip? <==> w.busy(k)
      ensures looks[k].Invite? ==> looks[k].outcome == w.outcome(k)
    {
      RoutedLooks(r, w, first, looks, ending, k);
    }
    GatewayAt(r, w, first, looks, ending, 0);
    forall k: nat | k < |looks| - 1 ensures looks[k + 1].gw == if looks[k].gw == r.count then 1 else looks[k].gw + 1 {
      GatewayAt(r, w, first, looks, ending, k);
      GatewayAt(r, w, first, looks, ending, k + 1);
      NextIndex(looks[k].gw, r.count);
    }
  }

  /**
   Nothing is dialled after an attempt that was answered, busy or unanswered, or that failed after the phone had
   rung or after longer than a fast reject takes: what comes before another look is a congested trunk or a failure
   that was both silent and fast.
   */
  lemma OnlyTrunkFaultsGoOn(r: Ring, w: Weather, first: nat, looks: seq<Look>, ending: Ending, k: nat)
    requires Routed(r, w, first, looks, ending) && k < |looks| - 1 && looks[k].Invite?
    ensures var a := looks[k].outcome;
            a.status == Congestion
            || (a.status == Unavailable && a.ringMs <= 0 && (r.fastRejectMs <= 0 || a.dialMs < r.fastRejectMs))
  {
    assert MovesOn(r, looks[..|looks| - 1][k]);
  }

  /** ...and every such outcome does go on to another gateway, unless the attempts are used up. */
  lemma EveryTrunkFaultGoesOn(r: Ring, w: Weather, first: nat, looks: seq<Look>, ending: Ending, k: nat)
    requires Routed(r, w, first, looks, ending) && k < |looks| && looks[k].Invite?
    requires var a := looks[k].outcome;
             a.status == Congestion
             || (a.status == Unavailable && a.ringMs <= 0 && (r.fastRejectMs <= 0 || a.dialMs < r.fastRejectMs))
    ensures k < |looks| - 1 || (Invites(looks) == r.maxAttempts && ending == Exhausted)
  {
    var front, last := looks[..|looks| - 1], looks[|looks| - 1];
    assert looks == front + [last];
    OneMoreLook(front, last);
  }

  /** A skip goes on to another gateway unless it was the ring's last. */
  lemma EverySkipGoesOn(r: Ring, w: Weather, first: nat, looks: seq<Look>, ending: Ending, k: nat)
    requires Routed(r, w, first, looks, ending) && k < |looks| && looks[k].Skip?
    ensures k < |looks| - 1 || (Skips(looks) == r.count && ending == AllBusy)
  {
    var front, last := looks[..|looks| - 1], looks[|looks| - 1];
    assert looks == front + [last];
    OneMoreLook(front, last);
  }

  /** How a call ended says what its last look was; and it never skipped or dialled more than it may. */
  lemma EndingsMean(r: Ring, w: Weather, first: nat, looks: seq<Look>, ending: Ending)
    requires Routed(r, w, first, looks, ending)
    ensures Invites(looks) <= r.maxAttempts && Skips(looks) <= r.count
    ensures ending == AllBusy <==> Skips(looks) == r.count
    ensures ending == Exhausted ==> Invites(looks) == r.maxAttempts
    ensures ending == Finished ==> looks[|looks| - 1].Invite? && looks[|looks| - 1].outcome.status != Congestion
  {
    var front, last := looks[..|looks| - 1], looks[|looks| - 1];
    assert looks == front + [last];
    OneMoreLook(front, last);
  }

  lemma {:induction false} InvitesCount(looks: seq<Look>)
    ensures Invites(looks) == |set k | 0 <= k < |looks| && looks[k].Invite?|
    ensures Skips(looks) == |set k | 0 <= k < |looks| && looks[k].Skip?|
    decreases |looks|
  {
    if looks != [] {
      var n := |looks| - 1;
      var front := looks[..n];
      InvitesCount(front);
      assert (set k | 0 <= k < |looks| && looks[k].Invite?)
          == (set k | 0 <= k < |front| && front[k].Invite?) + if looks[n].Invite? then {n} else {};
      assert (set k | 0 <= k < |looks| && looks[k].Skip?)
          == (set k | 0 <= k < |front| && front[k].Skip?) + if looks[n].Skip? then {n} else {};
    }
  }
}
