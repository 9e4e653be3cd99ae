/** The gateway loop of one call: round robin, skipping gateways over their CPS grant, failing over on trunk faults. */
module Gateways {

  datatype Status = Congestion | Unavailable | Answered | Busy | NoAnswer

  /** What Dial left behind: its status, how long the far end rang and how long the attempt took. */
  datatype Attempt = Attempt(status: Status, ringMs: int, dialMs: int)

  /** Gateways are numbered from 1 to `count`. */
  datatype Ring = Ring(count: nat, maxAttempts: nat, fastRejectMs: int)

  datatype Ending = Finished | Exhausted | AllBusy

  /** One gateway looked at: skipped for its CPS, or sent an INVITE with this outcome. */
  datatype Look = Skip(gw: nat) | Invite(gw: nat, outcome: Attempt)

  /** Who is over the grant and what an attempt brings, by the number of the look. */
  datatype Weather = Weather(busy: nat -> bool, outcome: nat -> Attempt)

  predicate Usable(r: Ring) {
    r.count >= 1 && r.maxAttempts >= 1
  }

  /** The attempt cap the dialplan is rendered with. */
  function Clamp(configured: nat, count: nat): nat {
    if configured > count then count else configured
  }

  /** The gateway `k` steps on from `gw`. */
  function Along(gw: nat, k: nat, count: nat): nat
    requires count >= 1
  {
    if k == 0 then gw else Along(gw, k - 1, count) % count + 1
  }

  /** A failure of the trunk and not of the call: another proxy is worth one try. */
  predicate Retryable(r: Ring, a: Attempt) {
    || a.status == Congestion
    || (a.status == Unavailable && a.ringMs <= 0 && (r.fastRejectMs <= 0 || a.dialMs < r.fastRejectMs))
  }

  function Invites(looks: seq<Look>): nat {
    if looks == [] then 0 else Invites(looks[..|looks| - 1]) + if looks[|looks| - 1].Invite? then 1 else 0
  }

  function Skips(looks: seq<Look>): nat {
    if looks == [] then 0 else Skips(looks[..|looks| - 1]) + if looks[|looks| - 1].Skip? then 1 else 0
  }

  predicate MovesOn(r: Ring, x: Look) {
    x.Skip? || Retryable(r, x.outcome)
  }

  function LookAt(r: Ring, w: Weather, first: nat, k: nat): Look
    requires r.count >= 1
  {
    var gw := Along(first, k, r.count);
    if w.busy(k) then Skip(gw) else Invite(gw, w.outcome(k))
  }

  /** The looks of a call whose first gateway is `first`, all of which moved on. */
  ghost predicate Walked(r: Ring, w: Weather, first: nat, looks: seq<Look>) {
    && Usable(r) && 1 <= first <= r.count
    && forall k :: 0 <= k < |looks| ==> looks[k] == LookAt(r, w, first, k) && MovesOn(r, looks[k])
  }

  /** The look after so many INVITEs and skips is the last, and why. */
  predicate Ends(r: Ring, invites: nat, skips: nat, last: Look, ending: Ending) {
    match ending
    case Finished => !MovesOn(r, last)
    case Exhausted => last.Invite? && MovesOn(r, last) && invites + 1 == r.maxAttempts
    case AllBusy => last.Skip? && skips + 1 == r.count
  }

  /** A whole call: it moves on until an attempt is final, the attempts are used up, or every gateway was skipped. */
  ghost predicate Routed(r: Ring, w: Weather, first: nat, looks: seq<Look>, ending: Ending) {
    && looks != [] && Walked(r, w, first, looks[..|looks| - 1])
    && looks[|looks| - 1] == LookAt(r, w, first, |looks| - 1)
    && Invites(looks[..|looks| - 1]) < r.maxAttempts && Skips(looks[..|looks| - 1]) < r.count
    && Ends(r, Invites(looks[..|looks| - 1]), Skips(looks[..|looks| - 1]), looks[|looks| - 1], ending)
  }

  lemma OneMoreLook(looks: seq<Look>, x: Look)
    ensures Invites(looks + [x]) == Invites(looks) + if x.Invite? then 1 else 0
    ensures Skips(looks + [x]) == Skips(looks) + if x.Skip? then 1 else 0
  {
    assert (looks + [x])[..|looks|] == looks;
  }

  /** One more look that moves on. */
  lemma WalkFurther(r: Ring, w: Weather, first: nat, looks: seq<Look>, x: Look)
    requires Walked(r, w, first, looks) && x == LookAt(r, w, first, |looks|) && MovesOn(r, x)
    ensures Walked(r, w, first, looks + [x])
    ensures Along(first, |looks| + 1, r.count) == Along(first, |looks|, r.count) % r.count + 1
  {
  }

  /** The last look. */
  lemma WalkEnds(r: Ring, w: Weather, first: nat, looks: seq<Look>, x: Look, ending: Ending)
    requires Walked(r, w, first, looks) && x == LookAt(r, w, first, |looks|)
    requires Invites(looks) < r.maxAttempts && Skips(looks) < r.count
    requires Ends(r, Invites(looks), Skips(looks), x, ending)
    ensures Routed(r, w, first, looks + [x], ending)
  {
    OneMoreLook(looks, x);
    assert (looks + [x])[..|looks|] == looks;
  }

  /** The loop of one call, starting at gateway `first`. */
  method Walk(r: Ring, w: Weather, first: nat) returns (looks: seq<Look>, ending: Ending)
    requires Usable(r) && 1 <= first <= r.count
    ensures Routed(r, w, first, looks, ending)
  {
    var tries, skipped, gw := 0, 0, first;
    looks := [];
    while true
      invariant Walked(r, w, first, looks) && gw == Along(first, |looks|, r.count)
      invariant tries == Invites(looks) < r.maxAttempts && skipped == Skips(looks) < r.count
      decreases r.count - skipped + r.maxAttempts - tries
    {
      var x := if w.busy(|looks|) then Skip(gw) else Invite(gw, w.outcome(|looks|));
      OneMoreLook(looks, x);
      if x.Skip? {
        skipped := skipped + 1;
        if skipped >= r.count {
          WalkEnds(r, w, first, looks, x, AllBusy);
          return looks + [x], AllBusy;
        }
      } else {
        var a := x.outcome;
        if a.status != Congestion {
          if a.status != Unavailable || a.ringMs > 0 || (r.fastRejectMs > 0 && a.dialMs >= r.fastRejectMs) {
            WalkEnds(r, w, first, looks, x, Finished);
            return looks + [x], Finished;
          }
        }
        tries := tries + 1;
        if tries >= r.maxAttempts {
          WalkEnds(r, w, first, looks, x, Exhausted);
          return looks + [x], Exhausted;
        }
      }
      WalkFurther(r, w, first, looks, x);
      looks := looks + [x];
      gw := gw % r.count + 1;
    }
  }

  class Trunk {
    const ring: Ring
    var rotor: nat

    constructor (ring: Ring)
      ensures this.ring == ring && rotor == 0
    {
      this.ring := ring;
      rotor := 0;
    }

    /** One step of the shared rotor for each call, whatever becomes of it. */
    method Route(w: Weather) returns (looks: seq<Look>, ending: Ending)
      requires Usable(ring)
      modifies this`rotor
      ensures rotor == old(rotor) + 1
      ensures Routed(ring, w, rotor % ring.count + 1, looks, ending)
    {
      rotor := rotor + 1;
      looks, ending := Walk(ring, w, rotor % ring.count + 1);
    }
  }

  lemma {:induction false} LooksAreCounted(looks: seq<Look>)
    ensures Invites(looks) + Skips(looks) == |looks|
    decreases |looks|
  {
    if looks != [] {
      LooksAreCounted(looks[..|looks| - 1]);
    }
  }

  lemma AllMovedOn(r: Ring, w: Weather, first: nat, looks: seq<Look>, ending: Ending, k: nat)
    requires Routed(r, w, first, looks, ending) && k < |looks| && looks[k].Invite?
    ensures Retryable(r, looks[k].outcome) || (k == |looks| - 1 && ending == Finished)
  {
    if k < |looks| - 1 {
      assert MovesOn(r, looks[..|looks| - 1][k]);
    }
  }

  /** At most `maxAttempts` INVITEs go out, and none after an answer, a busy, a no-answer or a phone that rang. */
  lemma InvitesAreBounded(r: Ring, w: Weather, first: nat, looks: seq<Look>, ending: Ending)
    requires Routed(r, w, first, looks, ending)
    ensures Invites(looks) <= r.maxAttempts && |looks| < r.count + r.maxAttempts
    ensures forall k :: 0 <= k < |looks| && looks[k].Invite? && !Retryable(r, looks[k].outcome) ==>
              k == |looks| - 1 && ending == Finished
  {
    var front, last := looks[..|looks| - 1], looks[|looks| - 1];
    assert looks == front + [last];
    OneMoreLook(front, last);
    LooksAreCounted(front);
    forall k: nat | k < |looks| && looks[k].Invite?
      ensures Retryable(r, looks[k].outcome) || (k == |looks| - 1 && ending == Finished)
    {
      AllMovedOn(r, w, first, looks, ending, k);
    }
  }

  lemma {:induction false} WalkedPrefix(r: Ring, w: Weather, first: nat, looks: seq<Look>, n: nat)
    requires n <= |looks|
    ensures Invites(looks[..n]) <= Invites(looks) && Skips(looks[..n]) <= Skips(looks)
    decreases |looks|
  {
    if n < |looks| {
      WalkedPrefix(r, w, first, looks[..|looks| - 1], n);
      assert looks[..|looks| - 1][..n] == looks[..n];
    } else {
      assert looks[..n] == looks;
    }
  }

  /** The environment decides the call: no two walks of it differ. */
  lemma RouteIsDetermined(r: Ring, w: Weather, first: nat, a: seq<Look>, x: Ending, b: seq<Look>, y: Ending)
    requires Routed(r, w, first, a, x) && Routed(r, w, first, b, y)
    ensures a == b && x == y
  {
    StopsThere(r, w, first, a, x, b, y);
    StopsThere(r, w, first, b, y, a, x);
    forall k | 0 <= k < |a| ensures a[k] == b[k] {
      RoutedLooks(r, w, first, a, x, k);
      RoutedLooks(r, w, first, b, y, k);
    }
    assert a == b;
    assert a == a[..|a| - 1] + [a[|a| - 1]];
    OneMoreLook(a[..|a| - 1], a[|a| - 1]);
  }

  /** A walk that has ended is no proper beginning of another. */
  lemma StopsThere(r: Ring, w: Weather, first: nat, a: seq<Look>, x: Ending, b: seq<Look>, y: Ending)
    requires Routed(r, w, first, a, x) && Routed(r, w, first, b, y)
    ensures |b| <= |a|
  {
    if |a| < |b| {
      var front := b[..|b| - 1];
      assert MovesOn(r, front[|a| - 1]);
      forall k | 0 <= k < |a| ensures a[k] == front[k] {
        RoutedLooks(r, w, first, a, x, k);
      }
      assert front[..|a|] == a;
      WalkedPrefix(r, w, first, front, |a|);
      assert false;
    }
  }

  // ---- Which gateways are tried twice ----

  lemma NextIndex(gw: nat, count: nat)
    requires 1 <= gw <= count
    ensures gw % count + 1 == if gw == count then 1 else gw + 1
  {
  }

  /** Within one round, each step is a new gateway; a full round comes back to the first. */
  lemma {:induction false} AlongIs(gw: nat, k: nat, count: nat)
    requires 1 <= gw <= count && k <= count
    ensures Along(gw, k, count) == if gw + k <= count then gw + k else gw + k - count
  {
    if k > 0 {
      AlongIs(gw, k - 1, count);
      NextIndex(Along(gw, k - 1, count), count);
    }
  }

  lemma {:induction false} AlongAdds(gw: nat, i: nat, j: nat, count: nat)
    requires 1 <= gw <= count
    ensures 1 <= Along(gw, i, count) <= count
    ensures Along(gw, i + j, count) == Along(Along(gw, i, count), j, count)
    decreases j, i
  {
    if j > 0 {
      AlongAdds(gw, i, j - 1, count);
    } else if i > 0 {
      AlongAdds(gw, i - 1, 0, count);
    }
  }

  /** Two looks less than a round apart are at different gateways; exactly a round apart, at the same. */
  lemma SameGatewayIffARound(gw: nat, i: nat, j: nat, count: nat)
    requires 1 <= gw <= count && i < j <= i + count
    ensures Along(gw, i, count) == Along(gw, j, count) <==> j == i + count
  {
    AlongAdds(gw, i, j - i, count);
    AlongIs(Along(gw, i, count), j - i, count);
  }

  ghost predicate NoRedial(looks: seq<Look>) {
    forall i, j :: 0 <= i < j < |looks| && looks[i].Invite? && looks[j].Invite? ==> looks[i].gw != looks[j].gw
  }

  lemma RoutedLooks(r: Ring, w: Weather, first: nat, looks: seq<Look>, ending: Ending, k: nat)
    requires Routed(r, w, first, looks, ending) && k < |looks|
    ensures looks[k] == LookAt(r, w, first, k)
  {
    assert k < |looks| - 1 ==> looks[k] == looks[..|looks| - 1][k];
  }

  /** A call that made no more looks than there are gateways dialled each gateway at most once. */
  lemma OneRoundNeverRedials(r: Ring, w: Weather, first: nat, looks: seq<Look>, ending: Ending)
    requires Routed(r, w, first, looks, ending) && |looks| <= r.count
    ensures NoRedial(looks)
  {
    forall i, j | 0 <= i < j < |looks| ensures looks[i].gw != looks[j].gw {
      RoutedLooks(r, w, first, looks, ending, i);
      RoutedLooks(r, w, first, looks, ending, j);
      SameGatewayIffARound(first, i, j, r.count);
    }
  }

  /** With the clamp, a call that skips nobody never dials a gateway twice. */
  lemma NoSkipNoRedial(r: Ring, w: Weather, first: nat, looks: seq<Look>, ending: Ending)
    requires Routed(r, w, first, looks, ending)
    requires Skips(looks) + r.maxAttempts <= r.count
    ensures NoRedial(looks)
  {
    InvitesAreBounded(r, w, first, looks, ending);
    LooksAreCounted(looks);
    OneRoundNeverRedials(r, w, first, looks, ending);
  }

  lemma {:induction false} NobodyInvited(looks: seq<Look>)
    requires Invites(looks) == 0
    ensures forall k :: 0 <= k < |looks| ==> looks[k].Skip?
    decreases |looks|
  {
    if looks != [] {
      NobodyInvited(looks[..|looks| - 1]);
    }
  }

  lemma {:induction false} OneInviteIsNoRedial(looks: seq<Look>)
    requires Invites(looks) <= 1
    ensures NoRedial(looks)
    decreases |looks|
  {
    if looks != [] {
      var front := looks[..|looks| - 1];
      OneInviteIsNoRedial(front);
      if looks[|looks| - 1].Invite? {
        NobodyInvited(front);
        assert forall k :: 0 <= k < |front| ==> front[k] == looks[k];
      }
    }
  }

  // ---- Exactly when a gateway can be dialled twice ----

  /** The next `q` gateways after the first are over their grant; the trunk fails until the ring comes round. */
  function Storm(q: nat, count: nat): Weather {
    Weather(k => 1 <= k <= q, k => if k < count then Attempt(Congestion, 0, 0) else Attempt(Answered, 0, 0))
  }

  lemma {:induction false} StormWalk(r: Ring, q: nat, n: nat) returns (looks: seq<Look>)
    requires Usable(r) && q < n <= r.count
    ensures |looks| == n && Walked(r, Storm(q, r.count), 1, looks) && Skips(looks) == q && Invites(looks) == n - q
    decreases n
  {
    var w := Storm(q, r.count);
    if n == q + 1 {
      looks := StormSkips(r, q, n);
    } else {
      var front := StormWalk(r, q, n - 1);
      looks := front + [LookAt(r, w, 1, n - 1)];
      OneMoreLook(front, LookAt(r, w, 1, n - 1));
      WalkFurther(r, w, 1, front, LookAt(r, w, 1, n - 1));
    }
  }

  lemma {:induction false} StormSkips(r: Ring, q: nat, n: nat) returns (looks: seq<Look>)
    requires Usable(r) && 1 <= n <= q + 1 && q < r.count
    ensures |looks| == n && Walked(r, Storm(q, r.count), 1, looks) && Skips(looks) == n - 1 && Invites(looks) == 1
    decreases n
  {
    var w := Storm(q, r.count);
    var front := [];
    if n > 1 {
      front := StormSkips(r, q, n - 1);
    }
    looks := front + [LookAt(r, w, 1, n - 1)];
    OneMoreLook(front, LookAt(r, w, 1, n - 1));
    WalkFurther(r, w, 1, front, LookAt(r, w, 1, n - 1));
  }

  /** A call with `q` skips that comes round to its first gateway with an attempt to spare dials it again. */
  lemma RedialAfterARound(r: Ring, q: nat) returns (w: Weather, looks: seq<Look>)
    requires Usable(r) && q < r.count && r.count - q < r.maxAttempts
    ensures Routed(r, w, 1, looks, Finished) && Skips(looks) == q && !NoRedial(looks)
  {
    w := Storm(q, r.count);
    var front := StormWalk(r, q, r.count);
    var last := LookAt(r, w, 1, r.count);
    looks := front + [last];
    OneMoreLook(front, last);
    WalkEnds(r, w, 1, front, last, Finished);
    SameGatewayIffARound(1, 0, r.count, r.count);
    RoutedLooks(r, w, 1, looks, Finished, 0);
    RoutedLooks(r, w, 1, looks, Finished, r.count);
    assert looks[0].gw == looks[r.count].gw;
  }

  /** No call with at most `s` skips ever dials a gateway twice. */
  ghost predicate NeverRedials(r: Ring, s: nat) {
    forall w, first, looks, ending :: Routed(r, w, first, looks, ending) && Skips(looks) <= s ==> NoRedial(looks)
  }

  /** With a second attempt allowed, `s` skips are harmless if and only if they and the attempts fit the ring. */
  lemma RedialFreeIff(r: Ring, s: nat)
    requires Usable(r) && r.maxAttempts >= 2 && s < r.count
    ensures NeverRedials(r, s) <==> s + r.maxAttempts <= r.count
  {
    if s + r.maxAttempts <= r.count {
      forall w, first, looks, ending | Routed(r, w, first, looks, ending) && Skips(looks) <= s ensures NoRedial(looks) {
        NoSkipNoRedial(r, w, first, looks, ending);
      }
    } else {
      var w, looks := RedialAfterARound(r, s);
      assert !NeverRedials(r, s);
    }
  }

  /** With one attempt there is no redial; with more, skips can bring the ring round to a gateway already dialled. */
  lemma RedialNeedsASecondAttempt(r: Ring)
    requires Usable(r)
    ensures NeverRedials(r, r.count) <==> r.maxAttempts == 1
  {
    if r.maxAttempts == 1 {
      forall w, first, looks, ending | Routed(r, w, first, looks, ending) && Skips(looks) <= r.count
        ensures NoRedial(looks)
      {
        InvitesAreBounded(r, w, first, looks, ending);
        OneInviteIsNoRedial(looks);
      }
    } else {
      var w, looks := RedialAfterARound(r, r.count - 1);
      assert !NeverRedials(r, r.count);
    }
  }

  /**
   The attempts the dialplan is rendered with never redial
   without a skip; those configured do, unless the clamp is idle.
   */
  lemma TheClampIsNeeded(configured: nat, count: nat, fastRejectMs: int)
    requires configured >= 1 && count >= 1
    ensures NeverRedials(Ring(count, Clamp(configured, count), fastRejectMs), 0)
    ensures NeverRedials(Ring(count, configured, fastRejectMs), 0) <==> Clamp(configured, count) == configured
  {
    ClampedIsSafe(Ring(count, Clamp(configured, count), fastRejectMs));
    if configured >= 2 {
      RedialFreeIff(Ring(count, configured, fastRejectMs), 0);
    }
  }

  lemma ClampedIsSafe(r: Ring)
    requires Usable(r) && r.maxAttempts <= r.count
    ensures NeverRedials(r, 0)
  {
    forall w, first, looks, ending | Routed(r, w, first, looks, ending) && Skips(looks) <= 0 ensures NoRedial(looks) {
      NoSkipNoRedial(r, w, first, looks, ending);
    }
  }
}
