/** Runs in which one timed-out pass loses as many counts as the cap allows: its stale write undoes the others'. */
module LostCounts {
  import opened Common
  import opened DidRing
  import opened DidProtocol
  import opened DidRefinement

  ghost predicate Reaches(s: State, t: State, cap: nat) {
    exists schedule: seq<ChannelId> :: t == Run(s, schedule, cap)
  }

  lemma StandsStill(s: State, cap: nat)
    ensures Reaches(s, s, cap)
  {
    assert Run(s, [], cap) == s;
  }

  lemma StepReaches(s: State, t: State, id: ChannelId, cap: nat)
    requires Reaches(s, t, cap)
    ensures Reaches(s, Step(t, id, cap), cap)
  {
    var schedule: seq<ChannelId> :| t == Run(s, schedule, cap);
    assert (schedule + [id])[..|schedule|] == schedule;
    assert Run(s, schedule + [id], cap) == Step(t, id, cap);
  }

  lemma {:induction false} AloneReaches(s: State, t: State, id: ChannelId, n: nat, cap: nat)
    requires Reaches(s, t, cap)
    ensures Reaches(s, Alone(t, id, n, cap), cap)
    decreases n
  {
    if n > 0 {
      StepReaches(s, t, id, cap);
      AloneReaches(s, Step(t, id, cap), id, n - 1, cap);
    }
  }

  /** A stretch of turns for one channel is part of the run, and touches no other channel's frame. */
  lemma Stretch(s: State, t: State, id: ChannelId, u: State, cap: nat)
    requires Reaches(s, t, cap) && LeadsTo(t, id, u, cap)
    ensures Reaches(s, u, cap) && u.frames.Keys == t.frames.Keys
    ensures forall g :: g in t.frames && g != id ==> u.frames[g] == t.frames[g]
  {
    var n: nat :| u == Alone(t, id, n, cap);
    AloneReaches(s, t, id, n, cap);
    AloneLeavesOthers(t, id, n, cap);
  }

  /** A channel that finds its candidate locked by another four times goes on to read without the lock. */
  lemma {:induction false} TimesOut(s: State, id: ChannelId, cap: nat) returns (t: State)
    requires id in s.frames && s.frames[id].pc == TryLock && s.frames[id].tries <= 3
    requires s.frames[id].cand in s.locks && s.locks[s.frames[id].cand] != id
    ensures LeadsTo(s, id, t, cap) && t.locks == s.locks && t.counters == s.counters && id in t.frames
    ensures var f, g := s.frames[id], t.frames[id];
            g.pc == Read && !g.lock && g.cand == f.cand && g.day == f.day
    decreases 4 - s.frames[id].tries
  {
    var f := s.frames[id];
    var a := Step(s, id, cap);
    assert a.frames[id] == f.(lock := false, pc := Relock) && a.locks == s.locks && a.counters == s.counters;
    var b := Step(a, id, cap);
    OneStep(s, id, cap);
    OneStep(a, id, cap);
    Join(s, id, a, b, cap);
    if f.tries + 1 > 3 {
      t := b;
    } else {
      t := TimesOut(b, id, cap);
      Join(s, id, b, t, cap);
    }
  }

  function Entrant(d: Did, day: Day): Frame {
    Frame(day, "OVERFLOW", [d], Enter, 0, 0, d, 0, false, 0, 0, None, 0)
  }

  /** Channels 0 to `n`, about to pick from a pool of one number on a fresh day. */
  function Crowd(d: Did, day: Day, n: nat): (s: State)
    ensures forall id :: id in s.frames <==> 0 <= id <= n
    ensures forall id :: id in s.frames ==> s.frames[id] == Entrant(d, day)
  {
    State(map[], map[], map[], Entrants(d, day, n), [])
  }

  function Entrants(d: Did, day: Day, n: nat): (r: map<ChannelId, Frame>)
    ensures forall id :: id in r <==> 0 <= id <= n
    ensures forall id :: id in r ==> r[id] == Entrant(d, day)
  {
    if n == 0 then map[0 := Entrant(d, day)] else Entrants(d, day, n - 1)[n := Entrant(d, day)]
  }

  lemma SoleCandidate(f: Frame, d: Did)
    requires WalkOk(f) && f.pool == [d] && f.HasCandidate()
    ensures f.cand == d
  {
    assert RingAt(f.pool, f.rot, f.i) in [d];
  }

  /** Channel `id` comes to its only candidate. */
  lemma Arrives(s: State, t: State, id: ChannelId, d: Did, day: Day, cap: nat) returns (u: State)
    requires Reaches(s, t, cap) && id in t.frames && t.frames[id] == Entrant(d, day)
    ensures Reaches(s, u, cap) && u.locks == t.locks && u.counters == t.counters && u.frames.Keys == t.frames.Keys
    ensures forall g :: g in t.frames && g != id ==> u.frames[g] == t.frames[g]
    ensures var f := u.frames[id]; f.pc == TryLock && f.cand == d && f.day == day && f.tries <= 3
  {
    u := Enters(t, id, cap);
    Stretch(s, t, id, u, cap);
    SoleCandidate(u.frames[id], d);
  }

  /** Channel `id`, holding the lock, reads, counts and returns. */
  lemma Finishes(s: State, t: State, id: ChannelId, d: Did, day: Day, cap: nat) returns (u: State)
    requires Reaches(s, t, cap) && id in t.frames
    requires t.frames[id].pc == Relock && t.frames[id].lock && t.frames[id].cand == d && t.frames[id].day == day
    requires Counter(t.counters, Key(day, d)) < cap
    ensures Reaches(s, u, cap) && u.locks == t.locks - {d} && u.frames.Keys == t.frames.Keys
    ensures u.counters == t.counters[Key(day, d) := Counter(t.counters, Key(day, d)) + 1]
    ensures u.frames[id].pc == Returned && u.frames[id].did == Some(d)
    ensures forall g :: g in t.frames && g != id ==> u.frames[g] == t.frames[g]
  {
    Reads(t, id, cap);
    var a := t.(frames := t.frames[id := Verdict(t, t.frames[id], cap)]);
    Stretch(s, t, id, a, cap);
    u := Counts(a, id, cap);
    Stretch(s, a, id, u, cap);
  }

  /** Channel `id` takes the free lock. */
  lemma Takes(s: State, t: State, id: ChannelId, d: Did, day: Day, cap: nat) returns (u: State)
    requires Reaches(s, t, cap) && id in t.frames && d !in t.locks
    requires t.frames[id].pc == TryLock && t.frames[id].cand == d && t.frames[id].day == day
    ensures Reaches(s, u, cap) && u.locks == t.locks[d := id] && u.counters == t.counters
            && u.frames.Keys == t.frames.Keys
    ensures var f := u.frames[id]; f.pc == Relock && f.lock && f.cand == d && f.day == day
    ensures forall g :: g in t.frames && g != id ==> u.frames[g] == t.frames[g]
  {
    Locks(t, id, cap);
    u := Step(t, id, cap);
    StepReaches(s, t, id, cap);
  }

  /** Channel `id` gives up on the lock and reads the counter. */
  lemma ReadsUnlocked(s: State, t: State, id: ChannelId, d: Did, day: Day, cap: nat) returns (u: State)
    requires Reaches(s, t, cap) && id in t.frames && d in t.locks && t.locks[d] != id
    requires t.frames[id].pc == TryLock && t.frames[id].tries <= 3 && t.frames[id].cand == d && t.frames[id].day == day
    ensures Reaches(s, u, cap) && u.locks == t.locks && u.counters == t.counters && u.frames.Keys == t.frames.Keys
    ensures var f := u.frames[id];
            f.pc == Check && !f.lock && f.used == Counter(t.counters, Key(day, d)) && f.cand == d && f.day == day
    ensures forall g :: g in t.frames && g != id ==> u.frames[g] == t.frames[g]
  {
    var a := TimesOut(t, id, cap);
    Stretch(s, t, id, a, cap);
    u := Step(a, id, cap);
    StepReaches(s, a, id, cap);
  }

  lemma Overwrites(t: State, id: ChannelId, cap: nat) returns (u: State)
    requires id in t.frames && t.frames[id].pc == Check && !t.frames[id].lock && t.frames[id].used < cap
    ensures LeadsTo(t, id, u, cap) && id in u.frames
    ensures u.counters == t.counters[t.frames[id].CounterKey() := t.frames[id].used + 1]
    ensures u.frames[id].pc == Returned && u.frames[id].did == Some(t.frames[id].cand)
  {
    var a := Step(t, id, cap);
    assert a.frames[id] == t.frames[id].(pc := Write) && a.counters == t.counters;
    var b := Step(a, id, cap);
    assert b.frames[id] == t.frames[id].(pc := Release);
    u := Step(b, id, cap);
    OneStep(t, id, cap);
    OneStep(a, id, cap);
    OneStep(b, id, cap);
    Join(t, id, a, b, cap);
    Join(t, id, b, u, cap);
  }

  /** Channel `id` writes what it read plus one, whatever has been written since, and returns. */
  lemma WritesStale(s: State, t: State, id: ChannelId, d: Did, day: Day, cap: nat) returns (u: State)
    requires Reaches(s, t, cap) && id in t.frames
    requires t.frames[id].pc == Check && !t.frames[id].lock && t.frames[id].used < cap
    requires t.frames[id].cand == d && t.frames[id].day == day
    ensures Reaches(s, u, cap) && u.frames.Keys == t.frames.Keys
    ensures u.counters == t.counters[Key(day, d) := t.frames[id].used + 1]
    ensures u.frames[id].pc == Returned && u.frames[id].did == Some(d)
    ensures forall g :: g in t.frames && g != id ==> u.frames[g] == t.frames[g]
  {
    u := Overwrites(t, id, cap);
    Stretch(s, t, id, u, cap);
  }

  predicate Holding(f: Frame, d: Did, day: Day) {
    f.pc == Relock && f.lock && f.cand == d && f.day == day
  }

  predicate StaleAtNought(f: Frame, d: Did, day: Day) {
    f.pc == Check && !f.lock && f.used == 0 && f.cand == d && f.day == day
  }

  predicate Got(f: Frame, d: Did) {
    f.pc == Returned && f.did == Some(d)
  }

  /** Channel 0 holds the lock, channel `n` has read nought without it, the others have not begun. */
  lemma Overlap(d: Did, day: Day, cap: nat, n: nat) returns (t: State)
    requires n >= 1
    ensures Reaches(Crowd(d, day, n), t, cap) && t.frames.Keys == Crowd(d, day, n).frames.Keys
    ensures t.locks == map[d := 0] && t.counters == map[]
    ensures Holding(t.frames[0], d, day) && StaleAtNought(t.frames[n], d, day)
    ensures forall id :: 0 < id < n ==> t.frames[id] == Entrant(d, day)
  {
    var s := Crowd(d, day, n);
    StandsStill(s, cap);
    var a := Arrives(s, s, 0, d, day, cap);
    var b := Takes(s, a, 0, d, day, cap);
    var c := Arrives(s, b, n, d, day, cap);
    t := ReadsUnlocked(s, c, n, d, day, cap);
  }

  /** One more channel picks under the lock. */
  lemma CountsInTurn(s: State, t: State, id: ChannelId, d: Did, day: Day, cap: nat) returns (u: State)
    requires Reaches(s, t, cap) && id in t.frames && t.frames[id] == Entrant(d, day) && t.locks == map[]
    requires Counter(t.counters, Key(day, d)) < cap
    ensures Reaches(s, u, cap) && u.frames.Keys == t.frames.Keys && u.locks == map[]
    ensures Counter(u.counters, Key(day, d)) == Counter(t.counters, Key(day, d)) + 1 && Got(u.frames[id], d)
    ensures forall g :: g in t.frames && g != id ==> u.frames[g] == t.frames[g]
  {
    var a := Arrives(s, t, id, d, day, cap);
    var b := Takes(s, a, id, d, day, cap);
    u := Finishes(s, b, id, d, day, cap);
  }

  /** Channels 0 to `m` have counted in turn while channel `n` sits on what it read. */
  lemma {:induction false} OthersCount(d: Did, day: Day, cap: nat, n: nat, m: nat) returns (t: State)
    requires m < n <= cap
    ensures Reaches(Crowd(d, day, n), t, cap) && t.frames.Keys == Crowd(d, day, n).frames.Keys && t.locks == map[]
    ensures Counter(t.counters, Key(day, d)) == m + 1
    ensures forall id :: 0 <= id <= m ==> Got(t.frames[id], d)
    ensures forall id :: m < id < n ==> t.frames[id] == Entrant(d, day)
    ensures StaleAtNought(t.frames[n], d, day)
  {
    var s := Crowd(d, day, n);
    if m == 0 {
      var a := Overlap(d, day, cap, n);
      t := Finishes(s, a, 0, d, day, cap);
      assert t.locks == map[];
    } else {
      var a := OthersCount(d, day, cap, n, m - 1);
      t := CountsInTurn(s, a, m, d, day, cap);
    }
  }

  /** Any loss up to the cap: `n + 1` picks return the number, one of them timed out, and its counter says one. */
  lemma OneTimeoutLosesAny(d: Did, day: Day, cap: nat, n: nat) returns (t: State)
    requires 1 <= n <= cap
    ensures Initial(Crowd(d, day, n)) && Reaches(Crowd(d, day, n), t, cap)
    ensures Counter(t.counters, Key(day, d)) == 1
    ensures forall id :: 0 <= id <= n ==> id in t.frames && Got(t.frames[id], d)
  {
    var a := OthersCount(d, day, cap, n, n - 1);
    t := WritesStale(Crowd(d, day, n), a, n, d, day, cap);
  }
}
