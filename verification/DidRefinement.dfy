/** A channel running alone performs the sequential ring walk. */
module DidRefinement {
  import opened Common
  import opened DidRing
  import opened DidProtocol

  /** The interleaving in which the next `n` turns all go to one channel. */
  function Alone(s: State, id: ChannelId, n: nat, cap: nat): State
    decreases n
  {
    if n == 0 then s else Alone(Step(s, id, cap), id, n - 1, cap)
  }

  lemma {:induction false} StepThenRun(s: State, id: ChannelId, schedule: seq<ChannelId>, cap: nat)
    ensures Run(s, [id] + schedule, cap) == Run(Step(s, id, cap), schedule, cap)
    decreases |schedule|
  {
    var whole := [id] + schedule;
    if schedule == [] {
      assert whole[..|whole| - 1] == [];
      assert Run(s, [], cap) == s;
    } else {
      var n := |schedule| - 1;
      StepThenRun(s, id, schedule[..n], cap);
      assert whole[..|whole| - 1] == [id] + schedule[..n];
    }
  }

  lemma {:induction false} AloneIsARun(s: State, id: ChannelId, n: nat, cap: nat)
    ensures Alone(s, id, n, cap) == Run(s, seq(n, _ => id), cap)
    decreases n
  {
    if n > 0 {
      AloneIsARun(Step(s, id, cap), id, n - 1, cap);
      StepThenRun(s, id, seq(n - 1, _ => id), cap);
      assert [id] + seq(n - 1, _ => id) == seq(n, _ => id);
    } else {
      assert seq(0, _ => id) == [];
    }
  }

  function DayCounts(counters: map<Key, nat>, day: Day): (r: map<Did, nat>)
    ensures forall d :: Used(r, d) == Counter(counters, Key(day, d))
  {
    map k | k in counters && k.day == day :: k.did := counters[k]
  }

  /** What the sequential walk chooses for a frame, from the counters of its day. */
  function Choice(s: State, f: Frame, cap: nat): Option<Did> {
    PickFrom(f.pool, f.rot, f.i, cap, DayCounts(s.counters, f.day))
  }

  /** A pick has returned `r`, its counter raised, every lock as it was. */
  ghost predicate PickedAlone(s: State, t: State, id: ChannelId, day: Day, r: Option<Did>) {
    && t.locks == s.locks
    && id in t.frames && t.frames[id].pc == Returned && t.frames[id].did == r
    && (r.None? ==> t.counters == s.counters)
    && (r.Some? ==> t.counters == s.counters[Key(day, r.value) := Counter(s.counters, Key(day, r.value)) + 1])
  }

  lemma WalkOneMore(pool: seq<Did>, rot: nat, i: nat, cap: nat, counts: map<Did, nat>)
    requires i < |pool|
    ensures var d := RingAt(pool, rot, i);
            PickFrom(pool, rot, i, cap, counts) ==
            if Used(counts, d) < cap then Some(d) else PickFrom(pool, rot, i + 1, cap, counts)
  {
  }

  lemma ChoiceAtCandidate(s: State, f: Frame, cap: nat)
    requires f.i < |f.pool| && f.cand == RingAt(f.pool, f.rot, f.i)
    ensures Counter(s.counters, f.CounterKey()) < cap ==> Choice(s, f, cap) == Some(f.cand)
    ensures Counter(s.counters, f.CounterKey()) >= cap ==> Choice(s, f, cap) == Choice(s, f.(i := f.i + 1), cap)
  {
    WalkOneMore(f.pool, f.rot, f.i, cap, DayCounts(s.counters, f.day));
  }

  lemma ChoiceDependsOn(s: State, f: Frame, t: State, g: Frame, cap: nat)
    requires t.counters == s.counters && g.pool == f.pool && g.rot == f.rot && g.i == f.i && g.day == f.day
    ensures Choice(t, g, cap) == Choice(s, f, cap)
  {
  }

  /** Some number of turns, all given to `id`, leads from `s` to `t`. */
  ghost predicate LeadsTo(s: State, id: ChannelId, t: State, cap: nat) {
    exists n: nat :: t == Alone(s, id, n, cap)
  }

  lemma OneStep(s: State, id: ChannelId, cap: nat)
    ensures LeadsTo(s, id, Step(s, id, cap), cap)
  {
    assert Alone(s, id, 1, cap) == Alone(Step(s, id, cap), id, 0, cap) == Step(s, id, cap);
  }

  lemma {:induction false} AloneJoins(s: State, id: ChannelId, m: nat, n: nat, cap: nat)
    ensures Alone(s, id, m + n, cap) == Alone(Alone(s, id, m, cap), id, n, cap)
    decreases m
  {
    if m > 0 {
      AloneJoins(Step(s, id, cap), id, m - 1, n, cap);
    }
  }

  lemma Join(s: State, id: ChannelId, t: State, u: State, cap: nat)
    requires LeadsTo(s, id, t, cap) && LeadsTo(t, id, u, cap)
    ensures LeadsTo(s, id, u, cap)
  {
    var m: nat :| t == Alone(s, id, m, cap);
    var n: nat :| u == Alone(t, id, n, cap);
    AloneJoins(s, id, m, n, cap);
  }

  lemma Locks(s: State, id: ChannelId, cap: nat)
    requires id in s.frames && s.frames[id].pc == TryLock && s.frames[id].cand !in s.locks
    ensures var f := s.frames[id];
            Step(s, id, cap) == s.(locks := s.locks[f.cand := id],
                                   frames := s.frames[id := f.(lock := true, pc := Relock)])
  {
  }

  /** The verdict on a candidate: the counter as read, and the branch it selects. */
  function Verdict(s: State, f: Frame, cap: nat): Frame {
    var used := Counter(s.counters, f.CounterKey());
    f.(lock := true, used := used, since := |s.log|, pc := if used >= cap then Skip else Write)
  }

  lemma Reads(s: State, id: ChannelId, cap: nat)
    requires id in s.frames && s.frames[id].pc == Relock && s.frames[id].lock
    ensures LeadsTo(s, id, s.(frames := s.frames[id := Verdict(s, s.frames[id], cap)]), cap)
  {
    var f := s.frames[id];
    var a := Step(s, id, cap);
    assert a == s.(frames := s.frames[id := f.(pc := Read)]);
    var b := Step(a, id, cap);
    assert b == s.(frames := s.frames[id := f.(used := Counter(s.counters, f.CounterKey()), since := |s.log|,
                                               pc := Check)]);
    var d := Step(b, id, cap);
    assert d == s.(frames := s.frames[id := Verdict(s, f, cap)]);
    OneStep(s, id, cap);
    OneStep(a, id, cap);
    OneStep(b, id, cap);
    Join(s, id, a, b, cap);
    Join(s, id, b, d, cap);
  }

  /** Lock, read and compare: an undisturbed channel goes from a free candidate to its verdict. */
  lemma Examine(s: State, id: ChannelId, cap: nat) returns (t: State)
    requires id in s.frames && s.frames[id].pc == TryLock && s.frames[id].cand !in s.locks
    ensures LeadsTo(s, id, t, cap)
    ensures t == s.(locks := s.locks[s.frames[id].cand := id], frames := s.frames[id := Verdict(s, s.frames[id], cap)])
  {
    Locks(s, id, cap);
    var a := Step(s, id, cap);
    OneStep(s, id, cap);
    Reads(a, id, cap);
    t := a.(frames := a.frames[id := Verdict(a, a.frames[id], cap)]);
    Join(s, id, a, t, cap);
  }

  /** Count, release, hand back: from a granted candidate to the result. */
  lemma Counts(s: State, id: ChannelId, cap: nat) returns (t: State)
    requires id in s.frames && s.frames[id].pc == Write && s.frames[id].lock
    ensures LeadsTo(s, id, t, cap)
    ensures var f := s.frames[id];
            && t.locks == s.locks - {f.cand}
            && t.counters == s.counters[f.CounterKey() := f.used + 1]
            && id in t.frames && t.frames[id].pc == Returned && t.frames[id].did == Some(f.cand)
  {
    var u := Step(s, id, cap);
    assert u.frames[id] == s.frames[id].(pc := Release) && u.locks == s.locks;
    t := Step(u, id, cap);
    OneStep(s, id, cap);
    OneStep(u, id, cap);
    Join(s, id, u, t, cap);
  }

  lemma Settles(s: State, id: ChannelId, cap: nat) returns (t: State)
    requires id in s.frames && s.frames[id].pc == TryLock
    requires s.frames[id].cand !in s.locks && Counter(s.counters, s.frames[id].CounterKey()) < cap
    ensures LeadsTo(s, id, t, cap)
    ensures PickedAlone(s, t, id, s.frames[id].day, Some(s.frames[id].cand))
  {
    var u := Examine(s, id, cap);
    t := Counts(u, id, cap);
    Join(s, id, u, t, cap);
    assert s.locks[s.frames[id].cand := id] - {s.frames[id].cand} == s.locks;
  }

  lemma StepsOver(s: State, id: ChannelId, cap: nat) returns (t: State)
    requires id in s.frames && s.frames[id].pc == TryLock && WalkOk(s.frames[id]) && s.frames[id].did.None?
    requires s.frames[id].cand !in s.locks && Counter(s.counters, s.frames[id].CounterKey()) >= cap
    ensures LeadsTo(s, id, t, cap) && t.locks == s.locks && t.counters == s.counters && id in t.frames
    ensures var f, g := s.frames[id], t.frames[id];
            && g.pool == f.pool && g.rot == f.rot && g.day == f.day && g.did == None && g.i == f.i + 1
            && WalkOk(g) && g.pc == if f.i + 1 < |f.pool| then TryLock else Returned
  {
    var u := Examine(s, id, cap);
    t := Step(u, id, cap);
    OneStep(u, id, cap);
    Join(s, id, u, t, cap);
    assert s.locks[s.frames[id].cand := id] - {s.frames[id].cand} == s.locks;
  }

  lemma CandidateIsMember(f: Frame)
    requires f.HasCandidate() && WalkOk(f)
    ensures f.cand in f.pool
  {
  }

  lemma {:induction false} AloneFromCandidate(s: State, id: ChannelId, cap: nat) returns (t: State)
    requires id in s.frames && s.frames[id].pc == TryLock && WalkOk(s.frames[id]) && s.frames[id].did.None?
    requires forall d :: d in s.frames[id].pool ==> d !in s.locks
    ensures LeadsTo(s, id, t, cap)
    ensures PickedAlone(s, t, id, s.frames[id].day, Choice(s, s.frames[id], cap))
    decreases |s.frames[id].pool| - s.frames[id].i
  {
    var f := s.frames[id];
    ChoiceAtCandidate(s, f, cap);
    CandidateIsMember(f);
    if Counter(s.counters, f.CounterKey()) < cap {
      t := Settles(s, id, cap);
    } else {
      var u := StepsOver(s, id, cap);
      ChoiceDependsOn(s, f.(i := f.i + 1), u, u.frames[id], cap);
      if f.i + 1 < |f.pool| {
        t := AloneFromCandidate(u, id, cap);
        Join(s, id, u, t, cap);
        SameView(s, u, t, id, f.day, Choice(u, u.frames[id], cap));
      } else {
        t := u;
      }
    }
  }

  /** Entering, reading the rotor and storing it: on to the first candidate. */
  lemma Enters(s: State, id: ChannelId, cap: nat) returns (t: State)
    requires id in s.frames && s.frames[id].pc == Enter && |s.frames[id].pool| >= 1
    ensures LeadsTo(s, id, t, cap) && t.locks == s.locks && t.counters == s.counters && id in t.frames
    ensures var f, g := s.frames[id], t.frames[id];
            && g.pool == f.pool && g.rot == RotorAt(s.rotors, f.key) + 1
            && g.day == f.day && g.did == None && g.i == 0 && WalkOk(g) && g.pc == TryLock
  {
    var a := Step(s, id, cap);
    assert a.frames[id] == s.frames[id].(did := None, count := 0, i := 0, pc := ReadRotor) && a.rotors == s.rotors;
    var b := Step(a, id, cap);
    assert b.frames[id].pc == WriteRotor;
    t := Step(b, id, cap);
    OneStep(s, id, cap);
    OneStep(a, id, cap);
    OneStep(b, id, cap);
    Join(s, id, a, b, cap);
    Join(s, id, b, t, cap);
  }

  /** The rotor position a pick entering now would walk from. */
  function Entering(s: State, f: Frame): Frame {
    f.(rot := RotorAt(s.rotors, f.key) + 1, i := 0)
  }

  lemma SameView(s: State, u: State, t: State, id: ChannelId, day: Day, r: Option<Did>)
    requires u.locks == s.locks && u.counters == s.counters && PickedAlone(u, t, id, day, r)
    ensures PickedAlone(s, t, id, day, r)
  {
  }

  /** From the first candidate on: the part of the pick that walks the ring. */
  lemma AloneFromWalk(s: State, id: ChannelId, cap: nat) returns (t: State)
    requires id in s.frames && s.frames[id].pc == Enter && |s.frames[id].pool| >= 1
    requires forall d :: d in s.frames[id].pool ==> d !in s.locks
    ensures LeadsTo(s, id, t, cap)
    ensures PickedAlone(s, t, id, s.frames[id].day, Choice(s, Entering(s, s.frames[id]), cap))
  {
    var u := Enters(s, id, cap);
    ChoiceDependsOn(s, Entering(s, s.frames[id]), u, u.frames[id], cap);
    t := AloneFromCandidate(u, id, cap);
    SameView(s, u, t, id, s.frames[id].day, Choice(s, Entering(s, s.frames[id]), cap));
    Join(s, id, u, t, cap);
  }

  lemma LeavesEmptyPool(s: State, id: ChannelId, cap: nat) returns (t: State)
    requires id in s.frames && s.frames[id].pc == Enter && |s.frames[id].pool| < 1
    ensures LeadsTo(s, id, t, cap)
    ensures PickedAlone(s, t, id, s.frames[id].day, None)
  {
    OneStep(s, id, cap);
    t := Step(s, id, cap);
  }

  /** The rotors as they will stand once the channel has stored its own. */
  function RotorsDue(s: State, id: ChannelId): map<PoolKey, nat>
    requires id in s.frames
  {
    var f := s.frames[id];
    match f.pc
    case Enter => if |f.pool| < 1 then s.rotors else s.rotors[f.key := RotorAt(s.rotors, f.key) + 1]
    case ReadRotor => s.rotors[f.key := RotorAt(s.rotors, f.key) + 1]
    case WriteRotor => s.rotors[f.key := f.rot]
    case _ => s.rotors
  }

  function RotorAt(rotors: map<PoolKey, nat>, key: PoolKey): nat {
    if key in rotors then rotors[key] else 0
  }

  lemma {:induction false} AloneLeavesOthers(s: State, id: ChannelId, n: nat, cap: nat)
    ensures Alone(s, id, n, cap).frames.Keys == s.frames.Keys
    ensures forall g :: g in s.frames && g != id ==> Alone(s, id, n, cap).frames[g] == s.frames[g]
    decreases n
  {
    if n > 0 {
      AloneLeavesOthers(Step(s, id, cap), id, n - 1, cap);
    }
  }

  lemma StepKeepsRotorsDue(s: State, id: ChannelId, cap: nat)
    requires id in s.frames
    ensures id in Step(s, id, cap).frames && RotorsDue(Step(s, id, cap), id) == RotorsDue(s, id)
  {
  }

  lemma {:induction false} AloneKeepsRotorsDue(s: State, id: ChannelId, n: nat, cap: nat)
    requires id in s.frames
    ensures id in Alone(s, id, n, cap).frames && RotorsDue(Alone(s, id, n, cap), id) == RotorsDue(s, id)
    decreases n
  {
    if n > 0 {
      StepKeepsRotorsDue(s, id, cap);
      AloneKeepsRotorsDue(Step(s, id, cap), id, n - 1, cap);
    }
  }

  /** Only this channel's frame has changed, and the pool's rotor has moved one step unless the pool is empty. */
  ghost predicate RotatedAlone(s: State, t: State, id: ChannelId) {
    && id in s.frames && t.frames.Keys == s.frames.Keys
    && (forall g :: g in s.frames && g != id ==> t.frames[g] == s.frames[g])
    && t.rotors == RotorsDue(s, id)
  }

  lemma LeadsToRotated(s: State, id: ChannelId, t: State, cap: nat)
    requires id in s.frames && LeadsTo(s, id, t, cap) && id in t.frames && t.frames[id].pc == Returned
    ensures RotatedAlone(s, t, id)
  {
    var n: nat :| t == Alone(s, id, n, cap);
    AloneLeavesOthers(s, id, n, cap);
    AloneKeepsRotorsDue(s, id, n, cap);
  }

  /** The protocol refines the sequential walk: one channel scheduled alone does exactly what `PickFrom` says. */
  lemma AlonePicksFromRing(s: State, id: ChannelId, cap: nat) returns (n: nat, t: State)
    requires id in s.frames && s.frames[id].pc == Enter
    requires forall d :: d in s.frames[id].pool ==> d !in s.locks
    ensures t == Run(s, seq(n, _ => id), cap)
    ensures PickedAlone(s, t, id, s.frames[id].day, Choice(s, Entering(s, s.frames[id]), cap))
    ensures RotatedAlone(s, t, id)
  {
    if |s.frames[id].pool| < 1 {
      t := LeavesEmptyPool(s, id, cap);
    } else {
      t := AloneFromWalk(s, id, cap);
    }
    n :| t == Alone(s, id, n, cap);
    LeadsToRotated(s, id, t, cap);
    AloneIsARun(s, id, n, cap);
  }
}
