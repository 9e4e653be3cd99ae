/**
 Concurrent DID picks: any number of channels run the [sbc-did] subroutine over shared rotors,
 per-number locks and per-(day, number) counters. One step is one dialplan priority that touches
 shared state; the scheduler picks the channel. TRYLOCK, UNLOCK and database access are atomic.
 */
module DidProtocol {
  import opened Common
  import opened DidRing

  type ChannelId = nat
  type Day = string
  type PoolKey = string

  datatype Key = Key(day: Day, did: Did)

  datatype Pc =
    | Enter         // reset the result, leave if the pool is empty
    | ReadRotor
    | WriteRotor
    | TryLock
    | Relock        // test the lock result, retry at most three times
    | Read
    | Check
    | Write
    | Release
    | Skip          // capped: release and step to the next member
    | Returned

  /** The channel variables of one Gosub frame. `since` is the length of the pick log at the read. */
  datatype Frame = Frame(day: Day, key: PoolKey, pool: seq<Did>, pc: Pc, rot: nat, i: nat, cand: Did, tries: nat,
                         lock: bool, used: nat, since: nat, did: Option<Did>, count: nat)
  {
    predicate HasCandidate() {
      pc != Enter && pc != ReadRotor && pc != WriteRotor && pc != Returned
    }

    predicate HoldsLock() {
      HasCandidate() && pc != TryLock && lock
    }

    function CounterKey(): Key {
      Key(day, cand)
    }
  }

  /** One counter write: by whom, of what value, under the lock or not, and the log length at its read. */
  datatype Entry = Entry(channel: ChannelId, key: Key, count: nat, locked: bool, since: nat)

  datatype State = State(rotors: map<PoolKey, nat>, locks: map<Did, ChannelId>, counters: map<Key, nat>,
                         frames: map<ChannelId, Frame>, log: seq<Entry>)

  function Counter(counters: map<Key, nat>, k: Key): nat {
    if k in counters then counters[k] else 0
  }

  /** The loop head: address the next member of the ring, or leave once all were examined. */
  function NextCandidate(f: Frame): Frame {
    if f.i < |f.pool| then f.(cand := RingAt(f.pool, f.rot, f.i), tries := 0, pc := TryLock)
    else f.(pc := Returned)
  }

  /** The frame after one priority. */
  function FrameAfter(s: State, id: ChannelId, f: Frame, cap: nat): Frame {
    match f.pc
    case Enter => f.(did := None, count := 0, i := 0, pc := if |f.pool| < 1 then Returned else ReadRotor)
    case ReadRotor => f.(rot := (if f.key in s.rotors then s.rotors[f.key] else 0) + 1, pc := WriteRotor)
    case WriteRotor => NextCandidate(f)
    case TryLock => f.(lock := CanLock(s.locks, id, f.cand), pc := Relock)
    case Relock =>
      if f.lock then f.(pc := Read)
      else if f.tries + 1 > 3 then f.(tries := f.tries + 1, pc := Read)
      else f.(tries := f.tries + 1, pc := TryLock)
    case Read => f.(used := Counter(s.counters, f.CounterKey()), since := |s.log|, pc := Check)
    case Check => f.(pc := if f.used >= cap then Skip else Write)
    case Write => f.(pc := Release)
    case Release => f.(did := Some(f.cand), count := f.used + 1, pc := Returned)
    case Skip => NextCandidate(f.(i := f.i + 1))
    case Returned => f
  }

  predicate CanLock(locks: map<Did, ChannelId>, id: ChannelId, d: Did) {
    d !in locks || locks[d] == id
  }

  function LocksAfter(locks: map<Did, ChannelId>, id: ChannelId, f: Frame): map<Did, ChannelId> {
    if f.pc == TryLock && CanLock(locks, id, f.cand) then locks[f.cand := id]
    else if (f.pc == Release || f.pc == Skip) && f.lock then locks - {f.cand}
    else locks
  }

  function CountersAfter(counters: map<Key, nat>, f: Frame): map<Key, nat> {
    if f.pc == Write then counters[f.CounterKey() := f.used + 1] else counters
  }

  function LogAfter(log: seq<Entry>, id: ChannelId, f: Frame): seq<Entry> {
    if f.pc == Write then log + [Entry(id, f.CounterKey(), f.used + 1, f.lock, f.since)] else log
  }

  function RotorsAfter(rotors: map<PoolKey, nat>, f: Frame): map<PoolKey, nat> {
    if f.pc == WriteRotor then rotors[f.key := f.rot] else rotors
  }

  /** One priority of channel `id`; a channel that does not exist stutters, like one that has returned. */
  function Step(s: State, id: ChannelId, cap: nat): State {
    if id !in s.frames then s
    else
      var f := s.frames[id];
      State(RotorsAfter(s.rotors, f), LocksAfter(s.locks, id, f), CountersAfter(s.counters, f),
            s.frames[id := FrameAfter(s, id, f, cap)], LogAfter(s.log, id, f))
  }

  /** An interleaving is the order in which the scheduler picks channels. */
  function Run(s: State, schedule: seq<ChannelId>, cap: nat): State
    decreases |schedule|
  {
    if schedule == [] then s
    else Step(Run(s, schedule[..|schedule| - 1], cap), schedule[|schedule| - 1], cap)
  }

  /** A fresh day: no counter, no lock, every channel about to enter, any rotors. */
  predicate Initial(s: State) {
    && s.locks == map[] && s.counters == map[] && s.log == []
    && forall id :: id in s.frames ==> s.frames[id].pc == Enter
  }

  // ---- What the pick log alone determines ----

  /** The stored counter: what the last write for the key left there. */
  function Stored(log: seq<Entry>, k: Key): nat
    decreases |log|
  {
    if log == [] then 0
    else if log[|log| - 1].key == k then log[|log| - 1].count
    else Stored(log[..|log| - 1], k)
  }

  /** The true number of picks that returned the key's number. */
  function Picks(log: seq<Entry>, k: Key): nat
    decreases |log|
  {
    if log == [] then 0
    else Picks(log[..|log| - 1], k) + if log[|log| - 1].key == k then 1 else 0
  }

  /** The counts handed back for a key, in order. */
  function Returns(log: seq<Entry>, k: Key): seq<nat>
    decreases |log|
  {
    if log == [] then []
    else Returns(log[..|log| - 1], k) + if log[|log| - 1].key == k then [log[|log| - 1].count] else []
  }

  /** Every write stores one more than its read saw, and a read under the lock is not overtaken by a locked write. */
  ghost predicate EntryOk(log: seq<Entry>, n: nat, cap: nat)
    requires n < |log|
  {
    var e := log[n];
    && e.since <= n
    && e.count == Stored(log[..e.since], e.key) + 1
    && e.count <= cap
    && (e.locked ==> Unovertaken(log[..n], e.since, e.key.did))
  }

  /** Since position `since`, the number's counters were written only by passes that had timed out. */
  ghost predicate Unovertaken(log: seq<Entry>, since: nat, d: Did)
  {
    forall m :: since <= m < |log| && log[m].key.did == d ==> !log[m].locked
  }

  ghost predicate LogOk(log: seq<Entry>, cap: nat) {
    forall n :: 0 <= n < |log| ==> EntryOk(log, n, cap)
  }

  // ---- The invariant ----

  /** The walk addresses a member of the pool and retries a lock at most three times. */
  ghost predicate WalkOk(f: Frame) {
    && (f.HasCandidate() ==> f.i < |f.pool| && f.cand == RingAt(f.pool, f.rot, f.i))
    && (f.pc == ReadRotor || f.pc == WriteRotor ==> |f.pool| > 0 && f.i == 0)
    && (f.pc == TryLock || f.pc == Relock ==> f.tries <= 3)
  }

  ghost predicate LockOk(locks: map<Did, ChannelId>, id: ChannelId, f: Frame) {
    f.HoldsLock() ==> f.cand in locks && locks[f.cand] == id
  }

  /** What was read is still what the log said then, and under the lock no locked write came since. */
  ghost predicate ReadOk(log: seq<Entry>, f: Frame, cap: nat) {
    && (f.pc == Write || f.pc == Release ==> f.used < cap)
    && (f.pc == Skip ==> f.used >= cap)
    && (f.pc == Check || f.pc == Write || f.pc == Skip ==>
          && f.since <= |log|
          && f.used == Stored(log[..f.since], f.CounterKey())
          && (f.lock ==> Unovertaken(log, f.since, f.cand)))
  }

  ghost predicate FrameOk(locks: map<Did, ChannelId>, log: seq<Entry>, id: ChannelId, f: Frame, cap: nat) {
    WalkOk(f) && LockOk(locks, id, f) && ReadOk(log, f, cap)
  }

  ghost predicate Inv(s: State, cap: nat) {
    && LogOk(s.log, cap)
    && (forall k :: Counter(s.counters, k) == Stored(s.log, k))
    && (forall id :: id in s.frames ==> FrameOk(s.locks, s.log, id, s.frames[id], cap))
    && (forall d :: d in s.locks ==> Owns(s.frames, s.locks[d], d))
  }

  predicate Owns(frames: map<ChannelId, Frame>, id: ChannelId, d: Did) {
    id in frames && frames[id].HoldsLock() && frames[id].cand == d
  }

  lemma LogGrows(log: seq<Entry>, e: Entry, cap: nat)
    requires LogOk(log, cap) && EntryOk(log + [e], |log|, cap)
    ensures LogOk(log + [e], cap)
    ensures forall k :: Stored(log + [e], k) == if e.key == k then e.count else Stored(log, k)
  {
    var grown := log + [e];
    assert grown[..|log|] == log;
    forall n | 0 <= n < |log| ensures EntryOk(grown, n, cap) {
      assert EntryOk(log, n, cap);
      assert grown[..n] == log[..n];
      assert grown[..log[n].since] == log[..log[n].since];
    }
  }

  /** A write appends an entry that obeys the log's rules. */
  lemma WriteKeepsLog(s: State, id: ChannelId, cap: nat)
    requires Inv(s, cap) && id in s.frames && s.frames[id].pc == Write
    ensures LogOk(Step(s, id, cap).log, cap)
    ensures forall k :: Counter(Step(s, id, cap).counters, k) == Stored(Step(s, id, cap).log, k)
  {
    var f := s.frames[id];
    var e := Entry(id, f.CounterKey(), f.used + 1, f.lock, f.since);
    assert FrameOk(s.locks, s.log, id, f, cap);
    assert (s.log + [e])[..f.since] == s.log[..f.since];
    assert (s.log + [e])[..|s.log|] == s.log;
    assert EntryOk(s.log + [e], |s.log|, cap);
    LogGrows(s.log, e, cap);
  }

  /** Two channels never hold the same number's lock. */
  lemma MutualExclusion(s: State, f: ChannelId, g: ChannelId, cap: nat)
    requires Inv(s, cap) && f in s.frames && g in s.frames && f != g
    requires s.frames[f].HoldsLock() && s.frames[g].HoldsLock()
    ensures s.frames[f].cand != s.frames[g].cand
  {
    assert FrameOk(s.locks, s.log, f, s.frames[f], cap) && FrameOk(s.locks, s.log, g, s.frames[g], cap);
  }

  /** The locks a channel owns after its own step are the one it took, or the one it keeps. */
  lemma OwnLocksHeld(s: State, id: ChannelId, f: Frame, cap: nat, d: Did)
    requires d in LocksAfter(s.locks, id, f) && LocksAfter(s.locks, id, f)[d] == id
    requires d in s.locks && s.locks[d] == id ==> f.HoldsLock() && f.cand == d
    ensures FrameAfter(s, id, f, cap).HoldsLock() && FrameAfter(s, id, f, cap).cand == d
  {
  }

  lemma OthersLocksHeld(locks: map<Did, ChannelId>, id: ChannelId, f: Frame, d: Did)
    requires d in LocksAfter(locks, id, f) && LocksAfter(locks, id, f)[d] != id
    ensures d in locks && locks[d] == LocksAfter(locks, id, f)[d]
  {
  }

  lemma StepKeepsLocks(s: State, id: ChannelId, cap: nat, d: Did)
    requires Inv(s, cap) && d in Step(s, id, cap).locks
    ensures Owns(Step(s, id, cap).frames, Step(s, id, cap).locks[d], d)
  {
    if id in s.frames {
      var f := s.frames[id];
      assert d in s.locks ==> Owns(s.frames, s.locks[d], d);
      if LocksAfter(s.locks, id, f)[d] == id {
        OwnLocksHeld(s, id, f, cap, d);
      } else {
        OthersLocksHeld(s.locks, id, f, d);
      }
    }
  }

  lemma OthersKeepLocks(locks: map<Did, ChannelId>, id: ChannelId, f: Frame, g: ChannelId, h: Frame)
    requires LockOk(locks, id, f) && LockOk(locks, g, h) && g != id
    ensures LockOk(LocksAfter(locks, id, f), g, h)
  {
  }

  /** A write disturbs what another has read only where that one holds no lock on the number. */
  lemma OthersKeepReads(log: seq<Entry>, e: Entry, h: Frame, cap: nat)
    requires ReadOk(log, h, cap) && !(h.lock && h.HoldsLock() && e.locked && e.key.did == h.cand)
    ensures ReadOk(log + [e], h, cap)
  {
    if h.since <= |log| {
      assert (log + [e])[..h.since] == log[..h.since];
    }
  }

  /** The frame of a channel that is not running survives another channel's step. */
  lemma OthersUndisturbed(s: State, id: ChannelId, g: ChannelId, cap: nat)
    requires Inv(s, cap) && id in s.frames && g in s.frames && g != id
    ensures FrameOk(Step(s, id, cap).locks, Step(s, id, cap).log, g, s.frames[g], cap)
  {
    var f, h := s.frames[id], s.frames[g];
    assert FrameOk(s.locks, s.log, g, h, cap) && FrameOk(s.locks, s.log, id, f, cap);
    OthersKeepLocks(s.locks, id, f, g, h);
    if f.pc == Write {
      if h.HoldsLock() && f.lock {
        MutualExclusion(s, id, g, cap);
      }
      OthersKeepReads(s.log, Entry(id, f.CounterKey(), f.used + 1, f.lock, f.since), h, cap);
    }
  }

  lemma OwnWalkStaysOk(s: State, id: ChannelId, f: Frame, cap: nat)
    requires WalkOk(f)
    ensures WalkOk(FrameAfter(s, id, f, cap))
  {
  }

  lemma OwnLockStaysOk(s: State, id: ChannelId, f: Frame, cap: nat)
    requires LockOk(s.locks, id, f)
    ensures LockOk(LocksAfter(s.locks, id, f), id, FrameAfter(s, id, f, cap))
  {
  }

  lemma OwnReadStaysOk(s: State, id: ChannelId, f: Frame, cap: nat)
    requires ReadOk(s.log, f, cap) && Counter(s.counters, f.CounterKey()) == Stored(s.log, f.CounterKey())
    ensures ReadOk(LogAfter(s.log, id, f), FrameAfter(s, id, f, cap), cap)
  {
    assert s.log[..|s.log|] == s.log;
  }

  lemma StepKeepsInv(s: State, id: ChannelId, cap: nat)
    requires Inv(s, cap)
    ensures Inv(Step(s, id, cap), cap)
  {
    if id in s.frames {
      forall d | d in Step(s, id, cap).locks ensures Owns(Step(s, id, cap).frames, Step(s, id, cap).locks[d], d) {
        StepKeepsLocks(s, id, cap, d);
      }
      var f := s.frames[id];
      OwnWalkStaysOk(s, id, f, cap);
      OwnLockStaysOk(s, id, f, cap);
      OwnReadStaysOk(s, id, f, cap);
      forall g | g in s.frames && g != id
        ensures FrameOk(Step(s, id, cap).locks, Step(s, id, cap).log, g, s.frames[g], cap)
      {
        OthersUndisturbed(s, id, g, cap);
      }
      if s.frames[id].pc == Write {
        WriteKeepsLog(s, id, cap);
      }
    }
  }

  lemma {:induction false} RunKeepsInv(s: State, schedule: seq<ChannelId>, cap: nat)
    requires Initial(s)
    ensures Inv(Run(s, schedule, cap), cap)
    decreases |schedule|
  {
    if schedule != [] {
      RunKeepsInv(s, schedule[..|schedule| - 1], cap);
      StepKeepsInv(Run(s, schedule[..|schedule| - 1], cap), schedule[|schedule| - 1], cap);
    }
  }

  // ---- Consequences for the counters ----

  lemma {:induction false} PicksGrow(log: seq<Entry>, k: Key, n: nat)
    requires n <= |log|
    ensures Picks(log[..n], k) <= Picks(log, k)
    decreases |log|
  {
    if n == |log| {
      assert log[..n] == log;
    } else {
      PicksGrow(log[..|log| - 1], k, n);
      assert log[..|log| - 1][..n] == log[..n];
    }
  }

  lemma PrefixOk(log: seq<Entry>, n: nat, cap: nat)
    requires LogOk(log, cap) && n <= |log|
    ensures LogOk(log[..n], cap)
  {
    forall m | 0 <= m < n ensures EntryOk(log[..n], m, cap) {
      assert EntryOk(log, m, cap);
      assert log[..n][..m] == log[..m] && log[..n][..log[m].since] == log[..log[m].since];
    }
  }

  /** With timeouts or without, a counter stays within the cap and never overstates. */
  lemma {:induction false} StoredWithinBounds(log: seq<Entry>, k: Key, cap: nat)
    requires LogOk(log, cap)
    ensures Stored(log, k) <= cap && Stored(log, k) <= Picks(log, k)
    decreases |log|
  {
    if log != [] {
      var n := |log| - 1;
      PrefixOk(log, n, cap);
      StoredWithinBounds(log[..n], k, cap);
      if log[n].key == k {
        assert EntryOk(log, n, cap);
        var since := log[n].since;
        PrefixOk(log, since, cap);
        StoredWithinBounds(log[..since], k, cap);
        PicksGrow(log[..n], k, since);
        assert log[..n][..since] == log[..since];
      }
    }
  }

  /** A stretch of the log without writes to a key leaves its counter alone. */
  lemma {:induction false} StoredUntouched(log: seq<Entry>, k: Key, since: nat)
    requires since <= |log|
    requires forall m :: since <= m < |log| ==> log[m].key != k
    ensures Stored(log[..since], k) == Stored(log, k)
    decreases |log|
  {
    if since == |log| {
      assert log[..since] == log;
    } else {
      StoredUntouched(log[..|log| - 1], k, since);
      assert log[..|log| - 1][..since] == log[..since];
    }
  }

  /** No write to the number's counters was made by a pass that had timed out. */
  predicate NoTimeouts(log: seq<Entry>, d: Did) {
    forall n :: 0 <= n < |log| && log[n].key.did == d ==> log[n].locked
  }

  function UpTo(n: nat): (r: seq<nat>)
    ensures |r| == n && forall i :: 0 <= i < n ==> r[i] == i + 1
  {
    seq(n, i => i + 1)
  }

  /** Without timeouts the counter is exact: the counts returned are 1, 2, ..., and the last is stored. */
  lemma {:induction false} ExactWithoutTimeouts(log: seq<Entry>, k: Key, cap: nat)
    requires LogOk(log, cap) && NoTimeouts(log, k.did)
    ensures Stored(log, k) == Picks(log, k) <= cap
    ensures Returns(log, k) == UpTo(Picks(log, k))
    decreases |log|
  {
    if log != [] {
      var n := |log| - 1;
      PrefixOk(log, n, cap);
      ExactWithoutTimeouts(log[..n], k, cap);
      if log[n].key == k {
        assert EntryOk(log, n, cap);
        forall m | log[n].since <= m < n ensures log[m].key.did != k.did {
          assert log[..n][m] == log[m];
        }
        StoredUntouched(log[..n], k, log[n].since);
        assert log[..n][..log[n].since] == log[..log[n].since];
      }
    }
  }

  /** Increments of a key that its stored counter does not show. */
  function Lost(log: seq<Entry>, k: Key): int {
    Picks(log, k) - Stored(log, k)
  }

  /**
   A write loses increments only if, between its read and itself, another pass wrote the same key,
   and one of the two had timed out.
   */
  lemma LossNeedsATimeout(log: seq<Entry>, n: nat, k: Key, cap: nat)
    requires LogOk(log, cap) && n < |log|
    requires Lost(log[..n + 1], k) != Lost(log[..n], k)
    ensures log[n].key == k
    ensures exists m :: log[n].since <= m < n && log[m].key == k && (!log[m].locked || !log[n].locked)
  {
    assert EntryOk(log, n, cap);
    assert log[..n + 1][..n] == log[..n];
    assert log[..n][..log[n].since] == log[..log[n].since];
    if forall m :: log[n].since <= m < n ==> log[m].key != k {
      StoredUntouched(log[..n], k, log[n].since);
    } else {
      var m :| log[n].since <= m < n && log[m].key == k;
      assert log[..n][m] == log[m];
    }
  }

  // ---- Consequences for one pick ----

  /** A channel owns at most one number's lock, and none once it has returned. */
  lemma AtMostOneLock(s: State, schedule: seq<ChannelId>, cap: nat, id: ChannelId)
    requires Initial(s)
    ensures var t := Run(s, schedule, cap);
            && (forall c, d :: c in t.locks && d in t.locks && t.locks[c] == id && t.locks[d] == id ==> c == d)
            && (id in t.frames && t.frames[id].pc == Returned ==> forall d :: d in t.locks ==> t.locks[d] != id)
  {
    RunKeepsInv(s, schedule, cap);
  }

  /** The entries a channel has written. */
  function Charges(log: seq<Entry>, id: ChannelId): seq<Entry>
    decreases |log|
  {
    if log == [] then []
    else Charges(log[..|log| - 1], id) + if log[|log| - 1].channel == id then [log[|log| - 1]] else []
  }

  predicate HasDid(f: Frame) {
    f.pc == Release || (f.pc == Returned && f.did.Some?)
  }

  function Charge(f: Frame): (Key, nat) {
    if f.pc == Returned && f.did.Some? then (Key(f.day, f.did.value), f.count) else (f.CounterKey(), f.used + 1)
  }

  /** A pick writes no counter until it has settled, and then exactly the one it returns, once. */
  predicate ChargedOnce(log: seq<Entry>, id: ChannelId, f: Frame) {
    if HasDid(f) then |Charges(log, id)| == 1 && (Charges(log, id)[0].key, Charges(log, id)[0].count) == Charge(f)
    else Charges(log, id) == []
  }

  /** Before the result is set there is none, and a pick that came back empty walked the whole pool. */
  predicate ResultOk(f: Frame) {
    && (f.pc != Enter && f.pc != Returned ==> f.did.None?)
    && (f.pc == Returned && f.did.None? ==> f.i == |f.pool|)
    && (f.pc == Returned && f.did.Some? ==> f.did.value in f.pool)
  }

  ghost predicate Settled(s: State) {
    forall id :: id in s.frames ==> ChargedOnce(s.log, id, s.frames[id]) && ResultOk(s.frames[id])
  }

  lemma OwnResultStaysOk(s: State, id: ChannelId, f: Frame, cap: nat)
    requires WalkOk(f) && ResultOk(f)
    ensures ResultOk(FrameAfter(s, id, f, cap))
  {
  }

  lemma OneMoreCharge(log: seq<Entry>, e: Entry, id: ChannelId)
    ensures Charges(log + [e], id) == Charges(log, id) + if e.channel == id then [e] else []
  {
    assert (log + [e])[..|log|] == log;
  }

  lemma OwnChargeStaysOk(s: State, id: ChannelId, f: Frame, cap: nat)
    requires ResultOk(f) && ChargedOnce(s.log, id, f)
    ensures ChargedOnce(LogAfter(s.log, id, f), id, FrameAfter(s, id, f, cap))
  {
    if f.pc == Write {
      OneMoreCharge(s.log, Entry(id, f.CounterKey(), f.used + 1, f.lock, f.since), id);
    }
  }

  lemma OthersChargesStayOk(s: State, id: ChannelId, f: Frame, g: ChannelId, h: Frame)
    requires g != id && ChargedOnce(s.log, g, h)
    ensures ChargedOnce(LogAfter(s.log, id, f), g, h)
  {
    if f.pc == Write {
      OneMoreCharge(s.log, Entry(id, f.CounterKey(), f.used + 1, f.lock, f.since), g);
    }
  }

  lemma StepKeepsSettled(s: State, id: ChannelId, cap: nat)
    requires Inv(s, cap) && Settled(s)
    ensures Settled(Step(s, id, cap))
  {
    if id in s.frames {
      var f := s.frames[id];
      assert FrameOk(s.locks, s.log, id, f, cap);
      OwnResultStaysOk(s, id, f, cap);
      OwnChargeStaysOk(s, id, f, cap);
      forall g | g in s.frames && g != id ensures ChargedOnce(LogAfter(s.log, id, f), g, s.frames[g]) {
        OthersChargesStayOk(s, id, f, g, s.frames[g]);
      }
    }
  }

  /** In every interleaving a settled pick raised its own counter exactly once, and no other counter. */
  lemma {:induction false} EachChargedOnce(s: State, schedule: seq<ChannelId>, cap: nat)
    requires Initial(s)
    ensures Settled(Run(s, schedule, cap))
    decreases |schedule|
  {
    if schedule != [] {
      EachChargedOnce(s, schedule[..|schedule| - 1], cap);
      RunKeepsInv(s, schedule[..|schedule| - 1], cap);
      StepKeepsSettled(Run(s, schedule[..|schedule| - 1], cap), schedule[|schedule| - 1], cap);
    }
  }

  // ---- A pick that returns empty found every member picked up to its cap ----

  ghost predicate Clean(log: seq<Entry>) {
    forall n :: 0 <= n < |log| ==> log[n].locked
  }

  ghost predicate PickedUpTo(log: seq<Entry>, day: Day, pool: seq<Did>, rot: nat, i: nat, cap: nat)
    requires i <= |pool|
  {
    forall j: nat :: j < i ==> Picks(log, Key(day, RingAt(pool, rot, j))) >= cap
  }

  /** Every member stepped over so far had been picked as often as the cap allows. */
  ghost predicate SteppedOverCapped(log: seq<Entry>, f: Frame, cap: nat) {
    (f.HasCandidate() || f.pc == Returned) && f.i <= |f.pool| ==> PickedUpTo(log, f.day, f.pool, f.rot, f.i, cap)
  }

  lemma OneMoreCapped(log: seq<Entry>, day: Day, pool: seq<Did>, rot: nat, i: nat, cap: nat)
    requires i < |pool| && PickedUpTo(log, day, pool, rot, i, cap)
    requires Picks(log, Key(day, RingAt(pool, rot, i))) >= cap
    ensures PickedUpTo(log, day, pool, rot, i + 1, cap)
  {
  }

  lemma SkippedIsCapped(s: State, id: ChannelId, f: Frame, cap: nat)
    requires LogOk(s.log, cap) && f.pc == Skip
    requires WalkOk(f) && ReadOk(s.log, f, cap) && SteppedOverCapped(s.log, f, cap)
    ensures SteppedOverCapped(s.log, FrameAfter(s, id, f, cap), cap)
  {
    PrefixOk(s.log, f.since, cap);
    StoredWithinBounds(s.log[..f.since], f.CounterKey(), cap);
    PicksGrow(s.log, f.CounterKey(), f.since);
    OneMoreCapped(s.log, f.day, f.pool, f.rot, f.i, cap);
  }

  lemma OwnStepsStayCapped(s: State, id: ChannelId, f: Frame, cap: nat)
    requires LogOk(s.log, cap)
    requires WalkOk(f) && ReadOk(s.log, f, cap) && SteppedOverCapped(s.log, f, cap)
    ensures SteppedOverCapped(s.log, FrameAfter(s, id, f, cap), cap)
  {
    if f.pc == Skip {
      SkippedIsCapped(s, id, f, cap);
    }
  }

  lemma LogStaysCapped(log: seq<Entry>, n: nat, f: Frame, cap: nat)
    requires n <= |log| && SteppedOverCapped(log[..n], f, cap)
    ensures SteppedOverCapped(log, f, cap)
  {
    if (f.HasCandidate() || f.pc == Returned) && f.i <= |f.pool| {
      forall j: nat | j < f.i ensures Picks(log, Key(f.day, RingAt(f.pool, f.rot, j))) >= cap {
        PicksGrow(log, Key(f.day, RingAt(f.pool, f.rot, j)), n);
      }
    }
  }

  ghost predicate WalksCapped(s: State, cap: nat) {
    forall id :: id in s.frames ==> SteppedOverCapped(s.log, s.frames[id], cap)
  }

  lemma StepKeepsWalksCapped(s: State, id: ChannelId, cap: nat)
    requires Inv(s, cap) && WalksCapped(s, cap)
    ensures WalksCapped(Step(s, id, cap), cap)
  {
    if id in s.frames {
      var t := Step(s, id, cap);
      assert FrameOk(s.locks, s.log, id, s.frames[id], cap);
      OwnStepsStayCapped(s, id, s.frames[id], cap);
      assert t.log[..|s.log|] == s.log;
      forall g | g in t.frames ensures SteppedOverCapped(t.log, t.frames[g], cap) {
        LogStaysCapped(t.log, |s.log|, t.frames[g], cap);
      }
    }
  }

  lemma {:induction false} WalksStayCapped(s: State, schedule: seq<ChannelId>, cap: nat)
    requires Initial(s)
    ensures WalksCapped(Run(s, schedule, cap), cap)
    decreases |schedule|
  {
    if schedule != [] {
      WalksStayCapped(s, schedule[..|schedule| - 1], cap);
      RunKeepsInv(s, schedule[..|schedule| - 1], cap);
      StepKeepsWalksCapped(Run(s, schedule[..|schedule| - 1], cap), schedule[|schedule| - 1], cap);
    }
  }

  lemma WholePoolCapped(log: seq<Entry>, f: Frame, cap: nat)
    requires f.pc == Returned && f.i == |f.pool| && SteppedOverCapped(log, f, cap)
    ensures forall d :: d in f.pool ==> Picks(log, Key(f.day, d)) >= cap
  {
    forall d | d in f.pool ensures Picks(log, Key(f.day, d)) >= cap {
      var m :| 0 <= m < |f.pool| && f.pool[m] == d;
      var j := RingReaches(f.rot, |f.pool|, m);
      assert RingAt(f.pool, f.rot, j) == d;
    }
  }

  /**
   Timeouts or not, an empty result means every member of the pool was picked as often as the cap allows;
   without timeouts every member's counter says so.
   */
  lemma EmptyMeansAllCapped(s: State, schedule: seq<ChannelId>, cap: nat, id: ChannelId)
    requires Initial(s) && id in Run(s, schedule, cap).frames
    requires Run(s, schedule, cap).frames[id].pc == Returned && Run(s, schedule, cap).frames[id].did.None?
    ensures var t := Run(s, schedule, cap);
            var f := t.frames[id];
            && (forall d :: d in f.pool ==> Picks(t.log, Key(f.day, d)) >= cap)
            && (Clean(t.log) ==> forall d :: d in f.pool ==> Counter(t.counters, Key(f.day, d)) == cap)
  {
    var t := Run(s, schedule, cap);
    RunKeepsInv(s, schedule, cap);
    EachChargedOnce(s, schedule, cap);
    WalksStayCapped(s, schedule, cap);
    WholePoolCapped(t.log, t.frames[id], cap);
    if Clean(t.log) {
      forall d | d in t.frames[id].pool ensures Counter(t.counters, Key(t.frames[id].day, d)) == cap {
        ExactWithoutTimeouts(t.log, Key(t.frames[id].day, d), cap);
      }
    }
  }

  // ---- Termination ----

  /** Steps left to a channel, at most: twelve for each member it may still examine. */
  function Remaining(f: Frame): int {
    match f.pc
    case Enter => 12 * |f.pool| + 3
    case ReadRotor => 12 * |f.pool| + 2
    case WriteRotor => 12 * |f.pool| + 1
    case TryLock => 12 * (|f.pool| - f.i) - 2 * f.tries
    case Relock => 12 * (|f.pool| - f.i) - 2 * f.tries - 1
    case Read => 12 * (|f.pool| - f.i) - 8
    case Check => 12 * (|f.pool| - f.i) - 9
    case Write => 12 * (|f.pool| - f.i) - 10
    case Skip => 12 * (|f.pool| - f.i) - 10
    case Release => 12 * (|f.pool| - f.i) - 11
    case Returned => 0
  }

  lemma EveryStepCounts(s: State, id: ChannelId, f: Frame, cap: nat)
    requires WalkOk(f) && f.pc != Returned
    ensures 0 <= Remaining(FrameAfter(s, id, f, cap)) < Remaining(f)
    ensures Remaining(FrameAfter(s, id, f, cap)) == 0 <==> FrameAfter(s, id, f, cap).pc == Returned
  {
  }

  function Turns(schedule: seq<ChannelId>, id: ChannelId): nat
    decreases |schedule|
  {
    if schedule == [] then 0
    else Turns(schedule[..|schedule| - 1], id) + if schedule[|schedule| - 1] == id then 1 else 0
  }

  predicate Spent(f: Frame, turns: nat, budget: int) {
    f.pc == Returned || Remaining(f) + turns <= budget
  }

  lemma OneTurnSpent(t: State, run: ChannelId, id: ChannelId, cap: nat, turns: nat, budget: int)
    requires id in t.frames && WalkOk(t.frames[id]) && Spent(t.frames[id], turns, budget)
    ensures id in Step(t, run, cap).frames
    ensures Spent(Step(t, run, cap).frames[id], turns + if run == id then 1 else 0, budget)
  {
    if run == id && t.frames[id].pc != Returned {
      EveryStepCounts(t, id, t.frames[id], cap);
    }
  }

  lemma {:induction false} TurnsUseUpSteps(s: State, schedule: seq<ChannelId>, cap: nat, id: ChannelId)
    requires Initial(s) && id in s.frames
    ensures id in Run(s, schedule, cap).frames
    ensures Spent(Run(s, schedule, cap).frames[id], Turns(schedule, id), Remaining(s.frames[id]))
    decreases |schedule|
  {
    if schedule != [] {
      var front := schedule[..|schedule| - 1];
      var t := Run(s, front, cap);
      TurnsUseUpSteps(s, front, cap, id);
      RunKeepsInv(s, front, cap);
      assert FrameOk(t.locks, t.log, id, t.frames[id], cap);
      OneTurnSpent(t, schedule[|schedule| - 1], id, cap, Turns(front, id), Remaining(s.frames[id]));
    }
  }

  /** Whatever the other channels do, a channel given that many turns has returned. */
  lemma PickTerminates(s: State, schedule: seq<ChannelId>, cap: nat, id: ChannelId)
    requires Initial(s) && id in s.frames && Turns(schedule, id) >= 12 * |s.frames[id].pool| + 3
    ensures id in Run(s, schedule, cap).frames && Run(s, schedule, cap).frames[id].pc == Returned
  {
    TurnsUseUpSteps(s, schedule, cap, id);
    RunKeepsInv(s, schedule, cap);
    var t := Run(s, schedule, cap);
    assert FrameOk(t.locks, t.log, id, t.frames[id], cap);
  }

  // ---- What holds in every interleaving ----

  lemma {:induction false} LoggedChannelsExist(s: State, schedule: seq<ChannelId>, cap: nat)
    requires Initial(s)
    ensures var t := Run(s, schedule, cap);
            t.frames.Keys == s.frames.Keys && forall n :: 0 <= n < |t.log| ==> t.log[n].channel in t.frames
    decreases |schedule|
  {
    if schedule != [] {
      LoggedChannelsExist(s, schedule[..|schedule| - 1], cap);
    }
  }

  function Writers(log: seq<Entry>, k: Key): set<ChannelId> {
    set n | 0 <= n < |log| && log[n].key == k :: log[n].channel
  }

  lemma {:induction false} ChargesMember(log: seq<Entry>, id: ChannelId)
    ensures forall n :: 0 <= n < |log| && log[n].channel == id ==> log[n] in Charges(log, id)
    ensures forall e :: e in Charges(log, id) ==> e.channel == id && e in log
    decreases |log|
  {
    if log != [] {
      ChargesMember(log[..|log| - 1], id);
      assert log == log[..|log| - 1] + [log[|log| - 1]];
    }
  }

  lemma {:induction false} StrangersWriteNothing(log: seq<Entry>, id: ChannelId)
    requires forall n :: 0 <= n < |log| ==> log[n].channel != id
    ensures Charges(log, id) == []
    decreases |log|
  {
    if log != [] {
      StrangersWriteNothing(log[..|log| - 1], id);
    }
  }

  lemma WritersGrow(log: seq<Entry>, k: Key)
    requires log != []
    ensures var front, last := log[..|log| - 1], log[|log| - 1];
            Writers(log, k) == Writers(front, k) + if last.key == k then {last.channel} else {}
  {
    var front := log[..|log| - 1];
    forall m | 0 <= m < |front| ensures log[m] == front[m] {}
  }

  lemma {:induction false} PicksCountWriters(log: seq<Entry>, k: Key)
    requires forall id :: |Charges(log, id)| <= 1
    ensures |Writers(log, k)| == Picks(log, k)
    decreases |log|
  {
    if log != [] {
      var n := |log| - 1;
      var front, last := log[..n], log[n];
      forall id ensures |Charges(front, id)| <= 1 {
        assert |Charges(log, id)| <= 1;
      }
      PicksCountWriters(front, k);
      assert |Charges(log, last.channel)| <= 1;
      assert Charges(front, last.channel) == [];
      ChargesMember(front, last.channel);
      assert last.channel !in Writers(front, k);
      WritersGrow(log, k);
    }
  }

  /** The channels whose pick for `k.day` came back with `k.did`. */
  function Returners(s: State, k: Key): set<ChannelId> {
    set id | id in s.frames && s.frames[id].pc == Returned && s.frames[id].day == k.day
      && s.frames[id].did == Some(k.did)
  }

  lemma ReturnedCharge(log: seq<Entry>, id: ChannelId, f: Frame, k: Key)
    requires ChargedOnce(log, id, f) && ResultOk(f) && (f.pc == Returned || f.pc == Enter)
    ensures id in Writers(log, k) <==> f.pc == Returned && f.day == k.day && f.did == Some(k.did)
  {
    ChargesMember(log, id);
    if f.pc == Returned && f.did.Some? {
      var e := Charges(log, id)[0];
      assert e in log && e.channel == id && e.key == Key(f.day, f.did.value);
    }
  }

  lemma ChargesAreSingle(s: State, id: ChannelId)
    requires Settled(s)
    requires forall n :: 0 <= n < |s.log| ==> s.log[n].channel in s.frames
    ensures |Charges(s.log, id)| <= 1
  {
    if id in s.frames {
      assert ChargedOnce(s.log, id, s.frames[id]);
    } else {
      StrangersWriteNothing(s.log, id);
    }
  }

  /** No pick is under way. */
  ghost predicate Idle(s: State) {
    forall id :: id in s.frames ==> s.frames[id].pc == Returned || s.frames[id].pc == Enter
  }

  lemma PicksAreReturns(s: State, k: Key)
    requires Settled(s)
    requires forall n :: 0 <= n < |s.log| ==> s.log[n].channel in s.frames
    requires Idle(s)
    ensures Picks(s.log, k) == |Returners(s, k)|
  {
    forall id ensures |Charges(s.log, id)| <= 1 {
      ChargesAreSingle(s, id);
    }
    PicksCountWriters(s.log, k);
    forall id ensures id in Writers(s.log, k) <==> id in Returners(s, k) {
      if id in s.frames {
        ReturnedCharge(s.log, id, s.frames[id], k);
      }
    }
    assert Writers(s.log, k) == Returners(s, k);
  }

  /**
   Once every pick begun has returned: a counter never exceeds the cap or the picks that returned its number,
   and equals them, with counts 1 to k handed out once each, when no write came from a timed-out pass.
   */
  lemma CountersCountReturns(s: State, schedule: seq<ChannelId>, cap: nat, k: Key)
    requires Initial(s)
    requires Idle(Run(s, schedule, cap))
    ensures var t := Run(s, schedule, cap);
            && Picks(t.log, k) == |Returners(t, k)|
            && Counter(t.counters, k) <= cap
            && Counter(t.counters, k) <= |Returners(t, k)|
            && (NoTimeouts(t.log, k.did) ==>
                  Counter(t.counters, k) == |Returners(t, k)| && Returns(t.log, k) == UpTo(|Returners(t, k)|))
  {
    var t := Run(s, schedule, cap);
    RunKeepsInv(s, schedule, cap);
    EachChargedOnce(s, schedule, cap);
    LoggedChannelsExist(s, schedule, cap);
    PicksAreReturns(t, k);
    StoredWithinBounds(t.log, k, cap);
    if NoTimeouts(t.log, k.did) {
      ExactWithoutTimeouts(t.log, k, cap);
    }
  }
}
