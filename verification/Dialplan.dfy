/** The life of one customer call up to Dial: every check, the transfer rules, and the caller ID asserted. */
module Dialplan {
  import opened Common
  import opened DidRing
  import opened Projection
  import opened Refusals

  datatype Reason = Killswitch | NotNanp | BlockedNpa | NoFunds | CallingHours | HighCostPrefix | BadCallerId
                  | CpsLimit | ConcurrencyCap | NoDidAvailable | BadSelectedDid

  datatype Config = Config(killswitch: bool, nanpOnly: bool, block976: bool, blockNpa: bool, blockedNpas: set<string>,
                           highCost: set<string>, validateCid: bool, maxCps: int, maxConcurrent: int,
                           transfers: bool, tollFree: set<string>, minCalls: nat, minAcd: nat, fleet: Fleet, cap: nat)

  /** What the portal last wrote: when, who is out of funds, whose hours are enforced, which areas are closed. */
  datatype Portal = Portal(syncedAt: Option<int>, blocked: set<string>, enforced: set<string>, closed: set<string>)

  /** A learned destination: its flag, its answered calls and their billed seconds. */
  datatype Learned = Learned(flag: char, answered: nat, billsec: nat)

  /** One INVITE, with the clock, the group counts and the database rows it finds. */
  datatype Invite = Invite(exten: string, cid: string, endpoint: string, ip: string, epoch: int, cps: int,
                           concurrent: int, portal: Portal, learned: Option<Learned>)

  datatype Result =
    | Rejected(reason: Reason, spent: Option<Did>)
    | Dialing(dest: string, num: string, ani: string, own: Option<Did>)

  function Part(s: string, start: nat, len: nat): string {
    if start >= |s| then "" else if start + len >= |s| then s[start..] else s[start..start + len]
  }

  function ElevenDigits(n: string): string {
    if |n| == 10 then "1" + n else n
  }

  /** 1NXX NXX XXXX, N from 2 to 9. */
  predicate NanpShaped(n: string) {
    |n| == 11 && n[0] == '1' && n[1] >= '2' && n[4] >= '2'
  }

  function DestOf(c: Config, exten: string): string {
    if c.nanpOnly then ElevenDigits(Digits(exten)) else Digits(exten)
  }

  function NpaOf(dest: string): string {
    Part(dest, 1, 3)
  }

  predicate DestinationOk(c: Config, exten: string) {
    var dest := DestOf(c, exten);
    Digits(exten) != "" && (c.nanpOnly ==> NanpShaped(dest) && dest[2..4] != "11")
  }

  predicate AreaAllowed(c: Config, dest: string) {
    c.nanpOnly ==>
      (c.block976 ==> Part(dest, 4, 3) != "976") && (c.blockNpa ==> NpaOf(dest) !in c.blockedNpas)
  }

  /** Absent or stale portal data allows the call. */
  predicate PortalSilent(p: Portal, epoch: int) {
    p.syncedAt.None? || epoch - p.syncedAt.value > 300
  }

  predicate FundsOk(call: Invite) {
    PortalSilent(call.portal, call.epoch) || (call.endpoint !in call.portal.blocked && call.ip !in call.portal.blocked)
  }

  predicate HoursOk(call: Invite, dest: string) {
    PortalSilent(call.portal, call.epoch) || call.endpoint !in call.portal.enforced
      || NpaOf(dest) !in call.portal.closed
  }

  /** A full number matches itself, a shorter prefix whatever goes on from it. */
  predicate CoveredBy(dest: string, prefix: string) {
    if |prefix| >= 11 then dest == prefix else prefix != "" && |dest| > |prefix| && dest[..|prefix|] == prefix
  }

  predicate HighCost(c: Config, dest: string) {
    exists prefix :: prefix in c.highCost && CoveredBy(dest, prefix)
  }

  /** The customer's caller ID is a NANP number other than the one dialled. */
  predicate CidOk(cid: string, dest: string) {
    NanpShaped(ElevenDigits(Digits(cid))) && ElevenDigits(Digits(cid)) != dest
  }

  /** Every check between the INVITE and caller-ID selection. */
  predicate Admitted(c: Config, call: Invite) {
    var dest := DestOf(c, call.exten);
    && !c.killswitch && DestinationOk(c, call.exten) && AreaAllowed(c, dest)
    && FundsOk(call) && HoursOk(call, dest) && !HighCost(c, dest)
    && (c.validateCid ==> CidOk(call.cid, dest))
    && call.cps <= c.maxCps && call.concurrent <= c.maxConcurrent
  }

  /** The first check that fails, in the order the dialplan makes them. */
  function Why(c: Config, call: Invite): Option<Reason> {
    var dest := DestOf(c, call.exten);
    if c.killswitch then Some(Killswitch)
    else if !DestinationOk(c, call.exten) then Some(NotNanp)
    else if !AreaAllowed(c, dest) then Some(BlockedNpa)
    else if !FundsOk(call) then Some(NoFunds)
    else if !HoursOk(call, dest) then Some(CallingHours)
    else if HighCost(c, dest) then Some(HighCostPrefix)
    else if c.validateCid && !CidOk(call.cid, dest) then Some(BadCallerId)
    else if call.cps > c.maxCps then Some(CpsLimit)
    else if call.concurrent > c.maxConcurrent then Some(ConcurrencyCap)
    else None
  }

  /** Answered often enough, and long enough on average. */
  predicate Qualifies(c: Config, l: Learned) {
    l.answered >= c.minCalls && l.billsec > c.minAcd * l.answered
  }

  /** A transfer leg, by toll-free destination, by an operator's pin, or learned. */
  predicate TransferLeg(c: Config, call: Invite) {
    && c.transfers
    && (|| NpaOf(DestOf(c, call.exten)) in c.tollFree
        || (call.learned.Some? && (call.learned.value.flag == 'P'
                                   || (call.learned.value.flag != 'S' && Qualifies(c, call.learned.value)))))
  }

  /** The customer's number goes out as it is: a transfer leg whose caller ID is usable. */
  predicate PassesThrough(c: Config, call: Invite) {
    TransferLeg(c, call) && CidOk(call.cid, DestOf(c, call.exten))
  }

  function DidOf(o: Refusals.Outcome): Option<Did> {
    if o.Refused? then None else Some(o.did)
  }

  /** What an admitted call asserts, and the rotors and counters it leaves behind. */
  function Selected(c: Config, box: Box, call: Invite): (Result, Box) {
    var dest := DestOf(c, call.exten);
    if PassesThrough(c, call) then (Dialing(dest, call.cid, call.cid, None), box)
    else
      var (o, after) := Place(c.fleet, box, NpaOf(dest), c.cap);
      (match DidOf(o)
       case None => Rejected(NoDidAvailable, None)
       case Some(d) => if NanpShaped(d) then Dialing(dest, d, d, Some(d)) else Rejected(BadSelectedDid, Some(d)),
       after)
  }

  function Handled(c: Config, box: Box, call: Invite): (Result, Box) {
    if Why(c, call).Some? then (Rejected(Why(c, call).value, None), box) else Selected(c, box, call)
  }

  lemma AverageOver(billsec: nat, answered: nat, minAcd: nat)
    requires answered >= 1
    ensures billsec as real / answered as real <= minAcd as real <==> billsec <= minAcd * answered
  {
    var q := billsec as real / answered as real;
    assert q * answered as real == billsec as real;
    assert (minAcd * answered) as real == minAcd as real * answered as real;
    if q <= minAcd as real {
      assert q * answered as real <= minAcd as real * answered as real;
    } else {
      assert q * answered as real > minAcd as real * answered as real;
    }
  }

  method CheckDestination(c: Config, exten: string) returns (reason: Option<Reason>, dest: string)
    ensures reason == if !DestinationOk(c, exten) then Some(NotNanp)
                      else if !AreaAllowed(c, DestOf(c, exten)) then Some(BlockedNpa) else None
    ensures reason.None? ==> dest == DestOf(c, exten)
  {
    dest := Digits(exten);
    if |dest| == 0 {
      return Some(NotNanp), dest;
    }
    if !c.nanpOnly {
      return None, dest;
    }
    if |dest| == 10 {
      dest := "1" + dest;
    } else if |dest| != 11 {
      return Some(NotNanp), dest;
    }
    if dest[0] != '1' {
      return Some(NotNanp), dest;
    }
    var npa, nxx := Part(dest, 1, 3), Part(dest, 4, 3);
    if npa[0] < '2' || nxx[0] < '2' || npa[1..] == "11" {
      return Some(NotNanp), dest;
    }
    if c.block976 && nxx == "976" {
      return Some(BlockedNpa), dest;
    }
    if c.blockNpa && npa in c.blockedNpas {
      return Some(BlockedNpa), dest;
    }
    return None, dest;
  }

  method CheckPortal(call: Invite, npa: string) returns (reason: Option<Reason>)
    ensures reason == if !FundsOk(call) then Some(NoFunds)
                      else if PortalSilent(call.portal, call.epoch) || call.endpoint !in call.portal.enforced
                              || npa !in call.portal.closed then None
                      else Some(CallingHours)
  {
    var p := call.portal;
    if p.syncedAt.None? || call.epoch - p.syncedAt.value > 300 {
      return None;
    }
    if call.endpoint in p.blocked || call.ip in p.blocked {
      return Some(NoFunds);
    }
    if call.endpoint in p.enforced && npa in p.closed {
      return Some(CallingHours);
    }
    return None;
  }

  method CheckCallerId(cid: string, dest: string) returns (ok: bool)
    ensures ok == CidOk(cid, dest)
  {
    var digits := Digits(cid);
    if |digits| == 10 {
      digits := "1" + digits;
    } else if |digits| != 11 {
      return false;
    }
    ok := true;
    if digits[0] != '1' { ok := false; }
    if digits[1] < '2' { ok := false; }
    if digits[4] < '2' { ok := false; }
    if digits == dest { ok := false; }
  }

  method DetectTransfer(c: Config, call: Invite, npa: string) returns (transfer: bool)
    requires c.minCalls >= 1 && npa == NpaOf(DestOf(c, call.exten))
    ensures transfer == TransferLeg(c, call)
  {
    if !c.transfers {
      return false;
    }
    if npa in c.tollFree {
      return true;
    }
    if call.learned.None? || call.learned.value.flag == 'S' {
      return false;
    }
    var l := call.learned.value;
    if l.flag == 'P' {
      return true;
    }
    if l.answered < c.minCalls {
      return false;
    }
    AverageOver(l.billsec, l.answered, c.minAcd);
    return l.billsec as real / l.answered as real > c.minAcd as real;
  }

  /** The checks from the killswitch to concurrency, in order; no reason means the call is admitted. */
  method Admit(c: Config, call: Invite) returns (reason: Option<Reason>, dest: string, cidOk: bool)
    ensures reason == Why(c, call)
    ensures reason.None? ==> dest == DestOf(c, call.exten) && cidOk == CidOk(call.cid, dest)
  {
    dest, cidOk := "", false;
    if c.killswitch {
      reason := Some(Killswitch);
      return;
    }
    reason, dest := CheckDestination(c, call.exten);
    if reason.Some? {
      return;
    }
    reason := CheckPortal(call, NpaOf(dest));
    if reason.Some? {
      return;
    }
    if HighCost(c, dest) {
      reason := Some(HighCostPrefix);
      return;
    }
    cidOk := CheckCallerId(call.cid, dest);
    if !cidOk && c.validateCid {
      reason := Some(BadCallerId);
    } else if call.cps > c.maxCps {
      reason := Some(CpsLimit);
    } else if call.concurrent > c.maxConcurrent {
      reason := Some(ConcurrencyCap);
    }
  }

  /** Whether another channel holds a number's lock when this one tries for it, by the number of the try. */
  type Contention = (Did, nat) -> bool

  /** The shared state of the box: rotors and today's counters; and the locks this channel holds. */
  class Exchange {
    var rotors: map<PoolKey, nat>
    var counts: map<Did, nat>
    var locks: set<Did>

    constructor (rotors: map<PoolKey, nat>, counts: map<Did, nat>)
      ensures this.rotors == rotors && this.counts == counts && locks == {}
    {
      this.rotors, this.counts, this.locks := rotors, counts, {};
    }

    function Contents(): Box
      reads this
    {
      Box(rotors, counts)
    }

    /** Up to four tries for a number's lock. */
    method Acquire(did: Did, taken: Contention) returns (held: bool)
      modifies this`locks
      ensures held <==> exists k: nat :: k < 4 && !taken(did, k)
      ensures locks == if held then old(locks) + {did} else old(locks)
    {
      var tries := 0;
      held := !taken(did, 0);
      while !held
        invariant 0 <= tries <= 3
        invariant held <==> !taken(did, tries)
        invariant forall k: nat :: k < tries ==> taken(did, k)
        decreases 4 - tries, if held then 0 else 1
      {
        if tries + 1 > 3 {
          return;
        }
        tries := tries + 1;
        held := !taken(did, tries);
      }
      locks := locks + {did};
    }

    /** Walk one pool from its rotor, and charge the first number under the cap; the locks end as they began. */
    method Pick(key: PoolKey, pool: seq<Did>, cap: nat, taken: Contention) returns (did: Option<Did>, count: nat)
      requires locks == {}
      modifies this
      ensures (did, Contents()) == PickPool(old(Contents()), key, pool, cap)
      ensures did.Some? ==> count == Used(counts, did.value) <= cap
      ensures locks == {}
    {
      did, count := None, 0;
      if |pool| < 1 {
        return;
      }
      var rot := (if key in rotors then rotors[key] else 0) + 1;
      rotors := rotors[key := rot];
      var i := 0;
      while i < |pool|
        invariant 0 <= i <= |pool|
        invariant PickFrom(pool, rot, 0, cap, counts) == PickFrom(pool, rot, i, cap, counts)
        invariant counts == old(counts) && rotors == old(rotors)[key := rot] && locks == {}
      {
        var cand := RingAt(pool, rot, i);
        var held := Acquire(cand, taken);
        var used := Used(counts, cand);
        if used < cap {
          counts := counts[cand := used + 1];
          if held {
            locks := locks - {cand};
          }
          return Some(cand), used + 1;
        }
        if held {
          locks := locks - {cand};
        }
        i := i + 1;
      }
    }

    /** The destination's own pool first, then overflow. */
    method Choose(c: Config, npa: Npa, taken: Contention) returns (did: Option<Did>)
      requires locks == {}
      modifies this
      ensures var (o, after) := Place(c.fleet, old(Contents()), npa, c.cap); did == DidOf(o) && Contents() == after
      ensures locks == {}
    {
      var count;
      did, count := Pick(Area(npa), PoolOf(c.fleet.pools, npa), c.cap, taken);
      if did.None? {
        did, count := Pick(OverflowPool, c.fleet.overflow, c.cap, taken);
      }
    }

    /** One call, from its INVITE to Dial or to a refusal. */
    method Handle(c: Config, call: Invite, taken: Contention) returns (r: Result)
      requires c.minCalls >= 1 && locks == {}
      modifies this
      ensures (r, Contents()) == Handled(c, old(Contents()), call)
      ensures locks == {}
    {
      var reason, dest, cidOk := Admit(c, call);
      if reason.Some? {
        return Rejected(reason.value, None);
      }
      var num, ani := call.cid, "";
      var transfer := DetectTransfer(c, call, NpaOf(dest));
      if transfer && cidOk {
        ani := num;
        return Dialing(dest, num, ani, None);
      }
      var did := Choose(c, NpaOf(dest), taken);
      if did.None? {
        return Rejected(NoDidAvailable, None);
      }
      var d := did.value;
      if |d| != 11 || d[0] != '1' || d[1] < '2' || d[4] < '2' {
        return Rejected(BadSelectedDid, did);
      }
      num, ani := d, d;
      return Dialing(dest, num, ani, did);
    }
  }
}
