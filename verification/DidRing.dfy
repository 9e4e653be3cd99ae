/** The ring walk of one DID pick, and what a day of sequential picks from one pool does. */
module DidRing {
  import opened Common

  type Did = string

  /** The member examined after stepping over `i` capped ones. */
  function RingAt(pool: seq<Did>, rot: nat, i: nat): Did
    requires |pool| > 0
  {
    pool[(rot + i) % |pool|]
  }

  function Used(counts: map<Did, nat>, d: Did): nat {
    if d in counts then counts[d] else 0
  }

  /** The walk: the first member from the rotor position whose count is under the cap. */
  function PickFrom(pool: seq<Did>, rot: nat, i: nat, cap: nat, counts: map<Did, nat>): Option<Did>
    decreases |pool| - i
  {
    if i >= |pool| then None
    else if Used(counts, RingAt(pool, rot, i)) < cap then Some(RingAt(pool, rot, i))
    else PickFrom(pool, rot, i + 1, cap, counts)
  }

  /** One more call charged to `d`, and to no other number. */
  function Raise(counts: map<Did, nat>, d: Did): (r: map<Did, nat>)
    ensures forall e :: Used(r, e) == Used(counts, e) + if e == d then 1 else 0
  {
    counts[d := Used(counts, d) + 1]
  }

  lemma MultiplesAreFar(k: int, n: nat)
    ensures k >= 1 ==> k * n >= n
    ensures k <= -1 ==> k * n + n <= 0
  {
    assert k * n - n == (k - 1) * n && k * n + n == (k + 1) * n;
  }

  lemma MultiplesKeepOrder(j: int, k: int, n: int)
    requires j < k && n >= 1
    ensures j * n < k * n
  {
    assert k * n - j * n == (k - j) * n;
    MultiplesAreFar(k - j, n);
  }

  lemma ModUnique(x: nat, q: int, r: nat, n: nat)
    requires r < n && x == q * n + r
    ensures x % n == r
  {
    assert (q - x / n) * n == x % n - r;
    MultiplesAreFar(q - x / n, n);
  }

  /** Before it gives up, a walk reaches every index of the ring... */
  lemma RingReaches(rot: nat, n: nat, m: nat) returns (i: nat)
    requires m < n
    ensures i < n && (rot + i) % n == m
  {
    var q, r := rot / n, rot % n;
    i := if r <= m then m - r else m + n - r;
    assert (q + 1) * n == q * n + n;
    ModUnique(rot + i, if r <= m then q else q + 1, m, n);
  }

  /** ...and no index twice. */
  lemma RingDistinct(rot: nat, n: nat, i: nat, j: nat)
    requires i < j < n
    ensures (rot + i) % n != (rot + j) % n
  {
    var p, q := (rot + i) / n, (rot + j) / n;
    if (rot + i) % n == (rot + j) % n {
      assert (q - p) * n == j - i;
      MultiplesAreFar(q - p, n);
    }
  }

  lemma {:induction false} PickFromMeaning(pool: seq<Did>, rot: nat, i: nat, cap: nat, counts: map<Did, nat>)
    requires i <= |pool|
    ensures var r := PickFrom(pool, rot, i, cap, counts);
            && (r.Some? ==> r.value in pool && Used(counts, r.value) < cap)
            && (r.None? ==> forall j: nat :: i <= j < |pool| ==> Used(counts, RingAt(pool, rot, j)) >= cap)
    decreases |pool| - i
  {
    if i < |pool| {
      PickFromMeaning(pool, rot, i + 1, cap, counts);
    }
  }

  /** A pick comes back empty exactly when every member of the pool is at its cap. */
  lemma EmptyIffAllCapped(pool: seq<Did>, rot: nat, cap: nat, counts: map<Did, nat>)
    ensures PickFrom(pool, rot, 0, cap, counts).None? <==> forall d :: d in pool ==> Used(counts, d) >= cap
    ensures PickFrom(pool, rot, 0, cap, counts).Some? ==>
              PickFrom(pool, rot, 0, cap, counts).value in pool
              && Used(counts, PickFrom(pool, rot, 0, cap, counts).value) < cap
  {
    PickFromMeaning(pool, rot, 0, cap, counts);
    if PickFrom(pool, rot, 0, cap, counts).None? {
      forall d | d in pool ensures Used(counts, d) >= cap {
        var m :| 0 <= m < |pool| && pool[m] == d;
        var j := RingReaches(rot, |pool|, m);
        assert RingAt(pool, rot, j) == d;
      }
    }
  }

  // ---- A fresh day: k sequential picks from one unshared pool ----

  datatype Ledger = Ledger(counts: map<Did, nat>, served: nat)

  /** Counters and successes after `k` picks, the rotor standing at `rot` before the first. */
  function AfterPicks(pool: seq<Did>, rot: nat, k: nat, cap: nat): Ledger {
    if k == 0 then Ledger(map[], 0)
    else
      var before := AfterPicks(pool, rot, k - 1, cap);
      match PickFrom(pool, rot + k, 0, cap, before.counts)
      case None => before
      case Some(d) => Ledger(Raise(before.counts, d), before.served + 1)
  }

  /** The ring index `s` positions after `rot`. */
  function Slot(rot: nat, s: nat, n: nat): nat
    requires n > 0
  {
    (rot + s) % n
  }

  /** Ring index `m` is one of the first `r` starting positions after `rot`. */
  ghost predicate Leads(rot: nat, r: nat, m: nat, n: nat)
    requires n > 0
  {
    exists s: nat :: 1 <= s <= r && Slot(rot, s, n) == m
  }

  lemma SlotRepeats(rot: nat, k: nat, q: nat, r: nat, n: nat)
    requires n > 0 && k == q * n + r
    ensures Slot(rot, k, n) == Slot(rot, r, n)
  {
    var p := (rot + r) / n;
    assert (p + q) * n == p * n + q * n;
    ModUnique(rot + k, p + q, Slot(rot, r, n), n);
  }

  lemma NextLeadIsNew(rot: nat, r: nat, n: nat)
    requires 1 <= r <= n
    ensures !Leads(rot, r - 1, Slot(rot, r, n), n)
  {
    forall s: nat | 1 <= s < r ensures Slot(rot, s, n) != Slot(rot, r, n) {
      RingDistinct(rot + 1, n, s - 1, r - 1);
      assert rot + 1 + (s - 1) == rot + s && rot + 1 + (r - 1) == rot + r;
    }
  }

  lemma FullTurnLeads(rot: nat, m: nat, n: nat)
    requires m < n
    ensures Leads(rot, n, m, n)
  {
    var i := RingReaches(rot + 1, n, m);
    assert rot + (i + 1) == rot + 1 + i;
    assert Slot(rot, i + 1, n) == m;
  }

  /** What every member has carried after `q` full turns and `r` further steps. */
  ghost predicate Even(pool: seq<Did>, rot: nat, counts: map<Did, nat>, q: nat, r: nat)
    requires |pool| > 0
  {
    forall m: nat :: m < |pool| ==> Used(counts, pool[m]) == q + if Leads(rot, r, m, |pool|) then 1 else 0
  }

  /** One more pick below saturation: it takes the member it starts at. */
  lemma StepStaysEven(pool: seq<Did>, rot: nat, k: nat, cap: nat, counts: map<Did, nat>, q: nat, r: nat)
    requires Distinct(pool) && 1 <= r <= |pool|
    requires k == q * |pool| + r && q < cap
    requires Even(pool, rot, counts, q, r - 1)
    ensures PickFrom(pool, rot + k, 0, cap, counts).Some?
    ensures Even(pool, rot, Raise(counts, PickFrom(pool, rot + k, 0, cap, counts).value), q, r)
  {
    var n := |pool|;
    var at := Slot(rot, r, n);
    SlotRepeats(rot, k, q, r, n);
    NextLeadIsNew(rot, r, n);
    assert RingAt(pool, rot + k, 0) == pool[at];
    assert Used(counts, pool[at]) == q;
    forall m: nat | m < n
      ensures Used(Raise(counts, pool[at]), pool[m]) == q + if Leads(rot, r, m, n) then 1 else 0
    {
      assert Leads(rot, r, m, n) <==> Leads(rot, r - 1, m, n) || m == at;
    }
  }

  lemma TurnCompletes(pool: seq<Did>, rot: nat, counts: map<Did, nat>, q: nat)
    requires |pool| > 0 && Even(pool, rot, counts, q, |pool|)
    ensures Even(pool, rot, counts, q + 1, 0)
  {
    forall m: nat | m < |pool| ensures Used(counts, pool[m]) == q + 1 {
      FullTurnLeads(rot, m, |pool|);
    }
  }

  /** Below saturation every pick succeeds and the load stays even. */
  lemma {:induction false} TurnsAndSteps(pool: seq<Did>, rot: nat, k: nat, cap: nat, q: nat, r: nat)
    requires Distinct(pool) && |pool| > 0 && r <= |pool|
    requires k == q * |pool| + r && q <= cap && (r > 0 ==> q < cap)
    ensures AfterPicks(pool, rot, k, cap).served == k
    ensures Even(pool, rot, AfterPicks(pool, rot, k, cap).counts, q, r)
    decreases k, if r == 0 then 1 else 0
  {
    if r > 0 {
      TurnsAndSteps(pool, rot, k - 1, cap, q, r - 1);
      StepStaysEven(pool, rot, k, cap, AfterPicks(pool, rot, k - 1, cap).counts, q, r);
    } else if q > 0 {
      assert (q - 1) * |pool| + |pool| == q * |pool|;
      TurnsAndSteps(pool, rot, k, cap, q - 1, |pool|);
      TurnCompletes(pool, rot, AfterPicks(pool, rot, k, cap).counts, q - 1);
    }
  }

  lemma FullTurns(pool: seq<Did>, rot: nat, cap: nat)
    requires Distinct(pool) && |pool| > 0
    ensures AfterPicks(pool, rot, |pool| * cap, cap).served == |pool| * cap
    ensures forall d :: d in pool ==> Used(AfterPicks(pool, rot, |pool| * cap, cap).counts, d) == cap
  {
    var k := |pool| * cap;
    assert k == cap * |pool|;
    TurnsAndSteps(pool, rot, k, cap, cap, 0);
    var counts := AfterPicks(pool, rot, k, cap).counts;
    forall d | d in pool ensures Used(counts, d) == cap {
      var m: nat :| m < |pool| && pool[m] == d;
      assert Used(counts, pool[m]) == cap + if Leads(rot, 0, m, |pool|) then 1 else 0;
    }
  }

  lemma {:induction false} Saturated(pool: seq<Did>, rot: nat, k: nat, cap: nat)
    requires Distinct(pool) && |pool| > 0 && k >= |pool| * cap
    ensures AfterPicks(pool, rot, k, cap).served == |pool| * cap
    ensures forall d :: d in pool ==> Used(AfterPicks(pool, rot, k, cap).counts, d) == cap
    decreases k
  {
    if k == |pool| * cap {
      FullTurns(pool, rot, cap);
    } else {
      Saturated(pool, rot, k - 1, cap);
      EmptyIffAllCapped(pool, rot + k, cap, AfterPicks(pool, rot, k - 1, cap).counts);
    }
  }

  lemma TurnBelowCap(k: nat, n: nat, cap: nat)
    requires n > 0 && k < n * cap
    ensures k / n < cap
  {
    var t := k / n;
    assert (t - cap) * n == t * n - cap * n;
    MultiplesAreFar(t - cap, n);
  }

  /** Exactly min(k, n * cap) picks succeed and the load is even, wherever the rotor stood. */
  lemma FreshDay(pool: seq<Did>, rot: nat, k: nat, cap: nat)
    requires Distinct(pool) && |pool| > 0
    ensures AfterPicks(pool, rot, k, cap).served == if k < |pool| * cap then k else |pool| * cap
    ensures forall d, e :: d in pool && e in pool ==>
              Used(AfterPicks(pool, rot, k, cap).counts, d) <= Used(AfterPicks(pool, rot, k, cap).counts, e) + 1
  {
    if k < |pool| * cap {
      TurnBelowCap(k, |pool|, cap);
      TurnsAndSteps(pool, rot, k, cap, k / |pool|, k % |pool|);
    } else {
      Saturated(pool, rot, k, cap);
    }
  }
}
