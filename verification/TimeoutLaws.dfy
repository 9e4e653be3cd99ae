/** A pass times out, and goes on without a number's lock, exactly after four tries at which another channel held it. */
module TimeoutLaws {
  import opened DidRing
  import opened DidProtocol

  /** The turns of a channel at which it has tried for the lock of its present candidate. */
  ghost function Tries(s: State, schedule: seq<ChannelId>, id: ChannelId, cap: nat): seq<nat>
    decreases |schedule|
  {
    if schedule == [] then []
    else
      var front, last := schedule[..|schedule| - 1], schedule[|schedule| - 1];
      var t := Run(s, front, cap);
      if last != id || id !in t.frames then Tries(s, front, id, cap)
      else if t.frames[id].pc == TryLock then Tries(s, front, id, cap) + [|front|]
      else if t.frames[id].pc == WriteRotor || t.frames[id].pc == Skip then []
      else Tries(s, front, id, cap)
  }

  /** Turn `p` of the schedule was this channel's, at a try for this number's lock. */
  ghost predicate TriesAt(s: State, schedule: seq<ChannelId>, p: nat, id: ChannelId, d: Did, cap: nat) {
    && p < |schedule| && schedule[p] == id
    && var t := Run(s, schedule[..p], cap);
       id in t.frames && t.frames[id].pc == TryLock && t.frames[id].cand == d
  }

  /** ...and another channel held the lock then. */
  ghost predicate RefusedAt(s: State, schedule: seq<ChannelId>, p: nat, id: ChannelId, d: Did, cap: nat) {
    && TriesAt(s, schedule, p, id, d, cap)
    && var locks := Run(s, schedule[..p], cap).locks; d in locks && locks[d] != id
  }

  ghost predicate AllRefused(s: State, schedule: seq<ChannelId>, turns: seq<nat>, id: ChannelId, d: Did, cap: nat) {
    forall i :: 0 <= i < |turns| ==> RefusedAt(s, schedule, turns[i], id, d, cap)
  }

  /** Refused at every try but the last, which found the number free or its own. */
  ghost predicate LastGranted(s: State, schedule: seq<ChannelId>, turns: seq<nat>, id: ChannelId, d: Did, cap: nat) {
    && turns != [] && AllRefused(s, schedule, turns[..|turns| - 1], id, d, cap)
    && TriesAt(s, schedule, turns[|turns| - 1], id, d, cap)
    && !RefusedAt(s, schedule, turns[|turns| - 1], id, d, cap)
  }

  predicate HasTried(f: Frame) {
    f.pc == Read || f.pc == Check || f.pc == Write || f.pc == Release || f.pc == Skip
  }

  ghost predicate TriesOk(s: State, schedule: seq<ChannelId>, turns: seq<nat>, id: ChannelId, f: Frame, cap: nat) {
    && (f.pc == TryLock ==> |turns| == f.tries <= 3 && AllRefused(s, schedule, turns, id, f.cand, cap))
    && (f.pc == Relock ==> |turns| == f.tries + 1 <= 4)
    && (f.pc == Relock && !f.lock ==> AllRefused(s, schedule, turns, id, f.cand, cap))
    && (HasTried(f) && !f.lock ==> |turns| == 4 && AllRefused(s, schedule, turns, id, f.cand, cap))
    && ((f.pc == Relock || HasTried(f)) && f.lock ==>
          1 <= |turns| <= 4 && LastGranted(s, schedule, turns, id, f.cand, cap))
  }

  lemma SamePast(s: State, front: seq<ChannelId>, last: ChannelId, p: nat, id: ChannelId, d: Did, cap: nat)
    requires p < |front|
    ensures TriesAt(s, front + [last], p, id, d, cap) <==> TriesAt(s, front, p, id, d, cap)
    ensures RefusedAt(s, front + [last], p, id, d, cap) <==> RefusedAt(s, front, p, id, d, cap)
  {
    assert (front + [last])[..p] == front[..p];
  }

  ghost predicate Earlier(turns: seq<nat>, n: nat) {
    forall i :: 0 <= i < |turns| ==> turns[i] < n
  }

  lemma {:induction false} TriesAreEarlier(s: State, schedule: seq<ChannelId>, id: ChannelId, cap: nat)
    ensures Earlier(Tries(s, schedule, id, cap), |schedule|)
    ensures forall i, j :: 0 <= i < j < |Tries(s, schedule, id, cap)| ==>
              Tries(s, schedule, id, cap)[i] < Tries(s, schedule, id, cap)[j]
    decreases |schedule|
  {
    if schedule != [] {
      TriesAreEarlier(s, schedule[..|schedule| - 1], id, cap);
    }
  }

  lemma StillRefused(s: State, front: seq<ChannelId>, last: ChannelId, turns: seq<nat>, id: ChannelId, d: Did, cap: nat)
    requires Earlier(turns, |front|)
    ensures AllRefused(s, front, turns, id, d, cap) ==> AllRefused(s, front + [last], turns, id, d, cap)
    ensures LastGranted(s, front, turns, id, d, cap) ==> LastGranted(s, front + [last], turns, id, d, cap)
  {
    forall i | 0 <= i < |turns|
      ensures TriesAt(s, front + [last], turns[i], id, d, cap) <==> TriesAt(s, front, turns[i], id, d, cap)
      ensures RefusedAt(s, front + [last], turns[i], id, d, cap) <==> RefusedAt(s, front, turns[i], id, d, cap)
    {
      SamePast(s, front, last, turns[i], id, d, cap);
    }
  }

  /** A turn of another channel, or one that is no try and comes to no new candidate. */
  lemma OthersKeepTries(s: State, front: seq<ChannelId>, last: ChannelId, turns: seq<nat>, id: ChannelId, f: Frame,
                        cap: nat)
    requires Earlier(turns, |front|) && TriesOk(s, front, turns, id, f, cap)
    ensures TriesOk(s, front + [last], turns, id, f, cap)
  {
    StillRefused(s, front, last, turns, id, f.cand, cap);
  }

  /** One more try. */
  lemma TryAdds(s: State, front: seq<ChannelId>, turns: seq<nat>, id: ChannelId, cap: nat)
    requires id in Run(s, front, cap).frames && Run(s, front, cap).frames[id].pc == TryLock
    requires Earlier(turns, |front|) && TriesOk(s, front, turns, id, Run(s, front, cap).frames[id], cap)
    ensures var t := Run(s, front, cap);
            TriesOk(s, front + [id], turns + [|front|], id, FrameAfter(t, id, t.frames[id], cap), cap)
  {
    var t := Run(s, front, cap);
    var d := t.frames[id].cand;
    StillRefused(s, front, id, turns, id, d, cap);
    assert (front + [id])[..|front|] == front;
    assert TriesAt(s, front + [id], |front|, id, d, cap);
    assert RefusedAt(s, front + [id], |front|, id, d, cap) <==> !CanLock(t.locks, id, d);
    assert (turns + [|front|])[..|turns|] == turns;
  }

  /** What any other priority leaves of a frame. */
  lemma FrameKeepsTries(s: State, schedule: seq<ChannelId>, turns: seq<nat>, t: State, id: ChannelId, f: Frame,
                        cap: nat)
    requires f.pc != TryLock && TriesOk(s, schedule, turns, id, f, cap)
    ensures TriesOk(s, schedule, if f.pc == WriteRotor || f.pc == Skip then [] else turns, id,
                    FrameAfter(t, id, f, cap), cap)
  {
  }

  /** Any other turn of the channel. */
  lemma OwnKeepsTries(s: State, front: seq<ChannelId>, turns: seq<nat>, t: State, id: ChannelId, f: Frame, cap: nat)
    requires f.pc != TryLock && Earlier(turns, |front|) && TriesOk(s, front, turns, id, f, cap)
    ensures TriesOk(s, front + [id], if f.pc == WriteRotor || f.pc == Skip then [] else turns, id,
                    FrameAfter(t, id, f, cap), cap)
  {
    OthersKeepTries(s, front, id, turns, id, f, cap);
    FrameKeepsTries(s, front + [id], turns, t, id, f, cap);
  }

  lemma {:induction false} RunKeepsTries(s: State, schedule: seq<ChannelId>, id: ChannelId, cap: nat)
    requires Initial(s) && id in s.frames
    ensures id in Run(s, schedule, cap).frames
    ensures TriesOk(s, schedule, Tries(s, schedule, id, cap), id, Run(s, schedule, cap).frames[id], cap)
    decreases |schedule|
  {
    if schedule != [] {
      var front, last := schedule[..|schedule| - 1], schedule[|schedule| - 1];
      var turns := Tries(s, front, id, cap);
      RunKeepsTries(s, front, id, cap);
      TriesAreEarlier(s, front, id, cap);
      assert schedule == front + [last];
      if last != id {
        OthersKeepTries(s, front, last, turns, id, Run(s, front, cap).frames[id], cap);
      } else if Run(s, front, cap).frames[id].pc == TryLock {
        TryAdds(s, front, turns, id, cap);
      } else {
        OwnKeepsTries(s, front, turns, Run(s, front, cap), id, Run(s, front, cap).frames[id], cap);
      }
    }
  }

  // ---- What the tries say of a pass ----

  /** The channel has tried four times for the number's lock, and found it held by another each time. */
  ghost predicate GaveUp(s: State, schedule: seq<ChannelId>, id: ChannelId, d: Did, cap: nat) {
    var turns := Tries(s, schedule, id, cap);
    |turns| == 4 && AllRefused(s, schedule, turns, id, d, cap)
  }

  lemma GrantedOnce(s: State, schedule: seq<ChannelId>, turns: seq<nat>, id: ChannelId, d: Did, cap: nat)
    requires LastGranted(s, schedule, turns, id, d, cap)
    ensures forall i :: 0 <= i < |turns| ==> TriesAt(s, schedule, turns[i], id, d, cap)
    ensures exists i :: 0 <= i < |turns| && !RefusedAt(s, schedule, turns[i], id, d, cap)
  {
    forall i | 0 <= i < |turns| ensures TriesAt(s, schedule, turns[i], id, d, cap) {
      if i < |turns| - 1 {
        assert RefusedAt(s, schedule, turns[..|turns| - 1][i], id, d, cap);
      }
    }
    assert !RefusedAt(s, schedule, turns[|turns| - 1], id, d, cap);
  }

  /**
   A pass that reads, counts or steps over a number is without the lock if and only if it has given up on it: it
   made four tries, in turn, each while another channel held the lock. If the number was free at one, it is locked.
   */
  lemma UnlockedIffGaveUp(s: State, schedule: seq<ChannelId>, id: ChannelId, cap: nat)
    requires Initial(s) && id in s.frames && id in Run(s, schedule, cap).frames
    requires HasTried(Run(s, schedule, cap).frames[id])
    ensures var f := Run(s, schedule, cap).frames[id];
            var turns := Tries(s, schedule, id, cap);
            && 1 <= |turns| <= 4 && (forall i :: 0 <= i < |turns| ==> TriesAt(s, schedule, turns[i], id, f.cand, cap))
            && (!f.lock <==> GaveUp(s, schedule, id, f.cand, cap))
            && (f.lock <==> exists i :: 0 <= i < |turns| && !RefusedAt(s, schedule, turns[i], id, f.cand, cap))
  {
    RunKeepsTries(s, schedule, id, cap);
    var f := Run(s, schedule, cap).frames[id];
    var turns := Tries(s, schedule, id, cap);
    if f.lock {
      GrantedOnce(s, schedule, turns, id, f.cand, cap);
    }
  }

  /** At some point of the run some channel had given up on the number. */
  ghost predicate SomeoneGaveUp(s: State, schedule: seq<ChannelId>, d: Did, cap: nat) {
    exists m: nat, id: ChannelId :: m <= |schedule| && GaveUp(s, schedule[..m], id, d, cap)
  }

  lemma GaveUpStays(s: State, schedule: seq<ChannelId>, n: nat, d: Did, cap: nat)
    requires n <= |schedule| && SomeoneGaveUp(s, schedule[..n], d, cap)
    ensures SomeoneGaveUp(s, schedule, d, cap)
  {
    var m: nat, id: ChannelId :| m <= n && GaveUp(s, schedule[..n][..m], id, d, cap);
    assert schedule[..n][..m] == schedule[..m];
  }

  ghost predicate LogGaveUp(s: State, schedule: seq<ChannelId>, log: seq<Entry>, cap: nat) {
    forall n :: 0 <= n < |log| && !log[n].locked ==> SomeoneGaveUp(s, schedule, log[n].key.did, cap)
  }

  lemma WriteGaveUp(s: State, front: seq<ChannelId>, id: ChannelId, cap: nat)
    requires Initial(s) && id in s.frames && id in Run(s, front, cap).frames
    requires LogGaveUp(s, front, Run(s, front, cap).log, cap)
    ensures LogGaveUp(s, front, Step(Run(s, front, cap), id, cap).log, cap)
  {
    var t := Run(s, front, cap);
    if t.frames[id].pc == Write && !t.frames[id].lock {
      UnlockedIffGaveUp(s, front, id, cap);
      assert front[..|front|] == front;
    }
  }

  /** Every write without the lock was by a channel that had given up on the number. */
  lemma {:induction false} UnlockedWritesGaveUp(s: State, schedule: seq<ChannelId>, cap: nat)
    requires Initial(s)
    ensures LogGaveUp(s, schedule, Run(s, schedule, cap).log, cap)
    decreases |schedule|
  {
    if schedule != [] {
      var n, id := |schedule| - 1, schedule[|schedule| - 1];
      UnlockedWritesGaveUp(s, schedule[..n], cap);
      if id in Run(s, schedule[..n], cap).frames {
        LoggedChannelsExist(s, schedule[..n], cap);
        WriteGaveUp(s, schedule[..n], id, cap);
      }
      var log := Run(s, schedule, cap).log;
      forall k | 0 <= k < |log| && !log[k].locked ensures SomeoneGaveUp(s, schedule, log[k].key.did, cap) {
        GaveUpStays(s, schedule, n, log[k].key.did, cap);
      }
    }
  }

  /**
   If no channel ever found a number's lock held at four tries running, the number's counter is exact: it is the
   channels the number went to, and their counts were 1, 2, and so on.
   */
  lemma ExactUnlessGivenUp(s: State, schedule: seq<ChannelId>, cap: nat, k: Key)
    requires Initial(s) && Idle(Run(s, schedule, cap)) && !SomeoneGaveUp(s, schedule, k.did, cap)
    ensures var t := Run(s, schedule, cap);
            Counter(t.counters, k) == |Returners(t, k)| && Returns(t.log, k) == UpTo(|Returners(t, k)|)
  {
    UnlockedWritesGaveUp(s, schedule, cap);
    CountersCountReturns(s, schedule, cap, k);
  }

  /** If no channel ever gives up on any number, no write of the run goes without the lock. */
  lemma CleanUnlessGivenUp(s: State, schedule: seq<ChannelId>, cap: nat)
    requires Initial(s) && forall d :: !SomeoneGaveUp(s, schedule, d, cap)
    ensures Clean(Run(s, schedule, cap).log)
  {
    UnlockedWritesGaveUp(s, schedule, cap);
  }
}
