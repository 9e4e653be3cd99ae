/** A day on which one timed-out pick makes the fleet serve more calls than its numbers at the cap. */
module OverdrawnDay {
  import opened Common
  import opened DidRing
  import opened Projection
  import opened Refusals
  import opened DidProtocol
  import opened LostCounts
  import opened ProtocolDay

  /** The same state with more channels, none of which has moved. */
  function With(s: State, extra: map<ChannelId, Frame>): State {
    s.(frames := s.frames + extra)
  }

  /** The turns that go to the given channels. */
  function TurnsOf(schedule: seq<ChannelId>, ids: set<ChannelId>): seq<ChannelId> {
    if schedule == [] then []
    else
      TurnsOf(schedule[..|schedule| - 1], ids)
      + if schedule[|schedule| - 1] in ids then [schedule[|schedule| - 1]] else []
  }

  lemma StepWith(s: State, extra: map<ChannelId, Frame>, id: ChannelId, cap: nat)
    requires s.frames.Keys !! extra.Keys && id in s.frames
    ensures Step(With(s, extra), id, cap) == With(Step(s, id, cap), extra)
  {
    assert (s.frames + extra)[id := FrameAfter(s, id, s.frames[id], cap)]
        == s.frames[id := FrameAfter(s, id, s.frames[id], cap)] + extra;
  }

  lemma {:induction false} RunWith(s: State, extra: map<ChannelId, Frame>, schedule: seq<ChannelId>, cap: nat)
    requires s.frames.Keys !! extra.Keys
    ensures Run(s, schedule, cap).frames.Keys == s.frames.Keys
    ensures Run(With(s, extra), TurnsOf(schedule, s.frames.Keys), cap) == With(Run(s, schedule, cap), extra)
    decreases |schedule|
  {
    if schedule != [] {
      var front, id := schedule[..|schedule| - 1], schedule[|schedule| - 1];
      RunWith(s, extra, front, cap);
      var turns := TurnsOf(front, s.frames.Keys);
      if id in s.frames {
        assert (turns + [id])[..|turns|] == turns;
        StepWith(Run(s, front, cap), extra, id, cap);
      } else {
        assert turns + [] == turns;
      }
    }
  }

  function OneNumber(d: Did, npa: Npa): Fleet {
    Fleet([Pool(npa, [d])], [])
  }

  lemma OneNumberIsUnshared(d: Did, npa: Npa)
    ensures OnePoolPerNpa(OneNumber(d, npa).pools) && Unshared(OneNumber(d, npa))
    ensures PoolOf(OneNumber(d, npa).pools, npa) == [d]
  {
    var fleet := OneNumber(d, npa);
    assert fleet.pools[..0] == [];
    assert PoolDids(fleet.pools) == PoolDids(fleet.pools[..0]) + [d];
    assert AllDids(fleet) == [d];
  }

  /** The rows of a day with that many calls to one area. */
  function OneAreaRows(npa: Npa, day: string, n: nat): seq<NpaDemand> {
    [NpaDemand(npa, map[day := n])]
  }

  lemma TotalsOfOneArea(npa: Npa, day: string, n: nat)
    ensures TotalsOf(OneAreaRows(npa, day, n), day, Repeat(npa, n))
  {
    CountRepeats(Repeat(npa, n), npa, npa);
    assert OneAreaRows(npa, day, n)[0].npa == npa;
  }

  lemma ProjectedForOneNumber(d: Did, npa: Npa, day: string, cap: nat)
    ensures Projected(OneAreaRows(npa, day, cap + 1), day, Sizes(OneNumber(d, npa)), 0, cap) == 1
  {
    var rows := OneAreaRows(npa, day, cap + 1);
    OneNumberIsUnshared(d, npa);
    SizeIsPoolLength(OneNumber(d, npa), npa);
    assert rows[..0] == [];
    assert Spill(rows[..0], day, Sizes(OneNumber(d, npa)), cap) == 0;
    assert Spill(rows, day, Sizes(OneNumber(d, npa)), cap) == 1;
  }

  function Waiter(day: string): Frame {
    Frame(day, "OVERFLOW", [], Enter, 0, 0, "", 0, false, 0, 0, None, 0)
  }

  /** Channels of calls that would ask an empty overflow: `k` of them, numbered from `first` on. */
  function Waiters(day: string, first: nat, k: nat): (r: map<ChannelId, Frame>)
    ensures forall id :: id in r <==> first <= id < first + k
    ensures forall id :: id in r ==> r[id] == Waiter(day)
  {
    if k == 0 then map[] else Waiters(day, first, k - 1)[first + k - 1 := Waiter(day)]
  }

  /** The crowd about to pick from the one number, and their overflow channels. */
  function Morning(d: Did, day: string, cap: nat): State {
    With(Crowd(d, day, cap), Waiters(day, cap + 1, cap + 1))
  }

  lemma MorningIsCalling(d: Did, npa: Npa, day: string, cap: nat)
    ensures Initial(Morning(d, day, cap)) && Calling(Morning(d, day, cap), OneNumber(d, npa), Repeat(npa, cap + 1), day)
  {
    var fleet, calls := OneNumber(d, npa), Repeat(npa, cap + 1);
    OneNumberIsUnshared(d, npa);
    var s := Morning(d, day, cap);
    forall id: ChannelId ensures id in s.frames <==> id < |calls| + |calls| {
      assert id in s.frames <==> id in Crowd(d, day, cap).frames || id in Waiters(day, cap + 1, cap + 1);
    }
    forall id: ChannelId | id in s.frames
      ensures s.frames[id].day == day && s.frames[id].pool == Asked(fleet, calls, id)
    {
      if id < |calls| {
        assert calls[id] == npa && s.frames[id] == Entrant(d, day);
      }
    }
  }

  lemma NobodyRefused(t: State, calls: seq<Npa>, d: Did)
    requires AllAnswered(t, calls) && AllGot(t, d, |calls|)
    ensures RefusedCalls(Outcomes(t, calls)) == 0
  {
    if RefusedCalls(Outcomes(t, calls)) > 0 {
      var c := SomeCallRefused(Outcomes(t, calls));
      assert false;
    }
  }

  /**
   One number, one more call than it can carry, and one timeout: an unshared fleet on a day with one refusal
   projected, and a run in which every call gets the number.
   */
  lemma EveryCallServed(d: Did, npa: Npa, day: string, cap: nat) returns (schedule: seq<ChannelId>)
    requires cap >= 1
    ensures var fleet, calls, rows := OneNumber(d, npa), Repeat(npa, cap + 1), OneAreaRows(npa, day, cap + 1);
            var s := Morning(d, day, cap);
            && OnePoolPerNpa(fleet.pools) && Unshared(fleet) && TotalsOf(rows, day, calls)
            && Initial(s) && Calling(s, fleet, calls, day) && AllAnswered(Run(s, schedule, cap), calls)
            && Projected(rows, day, Sizes(fleet), |fleet.overflow|, cap) == 1
            && RefusedCalls(Outcomes(Run(s, schedule, cap), calls)) == 0
  {
    OneNumberIsUnshared(d, npa);
    TotalsOfOneArea(npa, day, cap + 1);
    ProjectedForOneNumber(d, npa, day, cap);
    MorningIsCalling(d, npa, day, cap);
    schedule := ServingRun(d, npa, day, cap);
    NobodyRefused(Run(Morning(d, day, cap), schedule, cap), Repeat(npa, cap + 1), d);
  }

  predicate AllGot(t: State, d: Did, n: nat) {
    forall c: nat :: c < n ==> c in t.frames && Got(t.frames[c], d)
  }

  /** With every pick back with the number, every call is answered and overflow never asked. */
  lemma AllGotOne(t: State, calls: seq<Npa>, d: Did, day: string)
    requires AllGot(t, d, |calls|)
    requires forall id :: |calls| <= id < |calls| + |calls| ==> id in t.frames && t.frames[id] == Waiter(day)
    ensures AllAnswered(t, calls)
  {
    forall c: nat | c < |calls|
      ensures c in t.frames && SpareOf(calls, c) in t.frames && Answered(t.frames[c], t.frames[SpareOf(calls, c)])
    {
      assert Got(t.frames[c], d);
    }
  }

  lemma ServingRun(d: Did, npa: Npa, day: string, cap: nat) returns (schedule: seq<ChannelId>)
    requires cap >= 1
    ensures var t := Run(Morning(d, day, cap), schedule, cap);
            AllGot(t, d, cap + 1) && AllAnswered(t, Repeat(npa, cap + 1))
  {
    var s := Crowd(d, day, cap);
    var u := OneTimeoutLosesAny(d, day, cap, cap);
    var run: seq<ChannelId> :| u == Run(s, run, cap);
    RunWith(s, Waiters(day, cap + 1, cap + 1), run, cap);
    schedule := TurnsOf(run, s.frames.Keys);
    AllGotOne(With(u, Waiters(day, cap + 1, cap + 1)), Repeat(npa, cap + 1), d, day);
  }
}
