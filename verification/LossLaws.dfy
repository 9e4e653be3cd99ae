/** Exactly how many counts a timed-out pass loses. */
module LossLaws {
  import opened DidRing
  import opened DidProtocol

  lemma CutTwice(log: seq<Entry>, i: nat, j: nat)
    requires i <= j <= |log|
    ensures log[..j][..i] == log[..i]
  {
  }

  lemma OneMoreEntry(log: seq<Entry>, n: nat, k: Key)
    requires n < |log|
    ensures Picks(log[..n + 1], k) == Picks(log[..n], k) + if log[n].key == k then 1 else 0
    ensures Stored(log[..n + 1], k) == if log[n].key == k then log[n].count else Stored(log[..n], k)
  {
    CutTwice(log, n, n + 1);
    assert log[..n + 1][n] == log[n];
  }

  /** A write loses exactly what the counter gained between its read and itself. */
  lemma WriteLosesWhatItOverlaps(log: seq<Entry>, n: nat, k: Key, cap: nat)
    requires LogOk(log, cap) && n < |log| && log[n].key == k && log[n].since <= n
    ensures Lost(log[..n + 1], k) - Lost(log[..n], k) == Stored(log[..n], k) - Stored(log[..log[n].since], k)
  {
    assert EntryOk(log, n, cap);
    OneMoreEntry(log, n, k);
  }

  lemma {:induction false} PicksBetween(log: seq<Entry>, k: Key, i: nat, j: nat)
    requires i <= j <= |log|
    requires forall m :: i <= m < j ==> log[m].key != k
    ensures Picks(log[..i], k) == Picks(log[..j], k) && Stored(log[..i], k) == Stored(log[..j], k)
    decreases j
  {
    if i < j {
      PicksBetween(log, k, i, j - 1);
      OneMoreEntry(log, j - 1, k);
    }
  }

  lemma ExactUpTo(log: seq<Entry>, n: nat, k: Key, cap: nat)
    requires LogOk(log, cap) && n <= |log| && NoTimeouts(log[..n], k.did)
    ensures Stored(log[..n], k) == Picks(log[..n], k) <= cap && Lost(log[..n], k) == 0
  {
    PrefixOk(log, n, cap);
    ExactWithoutTimeouts(log[..n], k, cap);
  }

  lemma FewerStillLocked(log: seq<Entry>, i: nat, n: nat, d: Did)
    requires i <= n <= |log| && NoTimeouts(log[..n], d)
    ensures NoTimeouts(log[..i], d)
  {
    CutTwice(log, i, n);
    forall m | 0 <= m < i && log[..i][m].key.did == d ensures log[..i][m].locked {
      assert log[..n][m] == log[m];
    }
  }

  /** Picks of the key written between a read and a write. */
  function Overlapped(log: seq<Entry>, n: nat, k: Key): int
    requires n < |log| && log[n].since <= n
  {
    Picks(log[..n], k) - Picks(log[..log[n].since], k)
  }

  /** After picks that were all locked, a write of whatever kind leaves lost exactly the picks it overlapped. */
  lemma FirstTimeoutLosesItsOverlap(log: seq<Entry>, n: nat, k: Key, cap: nat)
    requires LogOk(log, cap) && n < |log| && log[n].key == k && log[n].since <= n && NoTimeouts(log[..n], k.did)
    ensures Lost(log[..n + 1], k) == Overlapped(log, n, k)
    ensures 0 <= Overlapped(log, n, k) <= cap
  {
    WriteLosesWhatItOverlaps(log, n, k, cap);
    ExactUpTo(log, n, k, cap);
    FewerStillLocked(log, log[n].since, n, k.did);
    ExactUpTo(log, log[n].since, k, cap);
    PicksGrow(log[..n], k, log[n].since);
    CutTwice(log, log[n].since, n);
  }

  // ---- What stays lost over the rest of the day ----

  /** Entry `n` is the number's only write without the lock. */
  predicate LoneTimeout(log: seq<Entry>, n: nat) {
    && n < |log| && log[n].since <= n && !log[n].locked
    && forall m :: 0 <= m < |log| && m != n && log[m].key.did == log[n].key.did ==> log[m].locked
  }

  /** The lock's holder, having read before the stale write, wrote over it by entry `j`. */
  predicate WrittenOver(log: seq<Entry>, n: nat, j: nat)
    requires n < |log| && j <= |log|
  {
    exists m :: n < m < j && log[m].key == log[n].key && log[m].since <= n
  }

  lemma LoneTimeoutBefore(log: seq<Entry>, n: nat)
    requires LoneTimeout(log, n)
    ensures NoTimeouts(log[..n], log[n].key.did)
  {
    forall m | 0 <= m < n && log[..n][m].key.did == log[n].key.did ensures log[..n][m].locked {
      assert log[..n][m] == log[m];
    }
  }

  /** Between a locked read and its write no other pass wrote the number, but for the lone timed-out one. */
  lemma OnlyTheStaleWrite(log: seq<Entry>, n: nat, j: nat, m: nat, cap: nat)
    requires LogOk(log, cap) && LoneTimeout(log, n) && n < j < |log| && log[j].key == log[n].key
    requires log[j].since <= m < j && m != n
    ensures log[m].key != log[n].key
  {
    assert EntryOk(log, j, cap);
    assert log[..j][m] == log[m];
  }

  /** A pass that read after the stale write loses nothing more. */
  lemma LaterReadLosesNothing(log: seq<Entry>, n: nat, j: nat, cap: nat)
    requires LogOk(log, cap) && LoneTimeout(log, n) && n < j < |log| && log[j].key == log[n].key && n < log[j].since
    ensures Lost(log[..j + 1], log[n].key) == Lost(log[..j], log[n].key)
  {
    var k := log[n].key;
    assert EntryOk(log, j, cap);
    forall m | log[j].since <= m < j ensures log[m].key != k {
      OnlyTheStaleWrite(log, n, j, m, cap);
    }
    PicksBetween(log, k, log[j].since, j);
    WriteLosesWhatItOverlaps(log, j, k, cap);
  }

  /** The holder's own write, read before the stale one, puts the counter right but for the stale pick itself. */
  lemma HolderLeavesOneLost(log: seq<Entry>, n: nat, j: nat, cap: nat)
    requires LogOk(log, cap) && LoneTimeout(log, n) && n < j < |log| && log[j].key == log[n].key && log[j].since <= n
    ensures Lost(log[..j + 1], log[n].key) == 1 && !WrittenOver(log, n, j)
  {
    var k, since := log[n].key, log[j].since;
    assert EntryOk(log, j, cap);
    forall m | since <= m < j && m != n ensures log[m].key != k {
      OnlyTheStaleWrite(log, n, j, m, cap);
    }
    LoneTimeoutBefore(log, n);
    ExactUpTo(log, n, k, cap);
    PicksBetween(log, k, since, n);
    OneMoreEntry(log, n, k);
    PicksBetween(log, k, n + 1, j);
    OneMoreEntry(log, j, k);
  }

  lemma {:induction false} LostThrough(log: seq<Entry>, n: nat, j: nat, cap: nat)
    requires LogOk(log, cap) && LoneTimeout(log, n) && n < j <= |log|
    ensures Lost(log[..j], log[n].key) == if WrittenOver(log, n, j) then 1 else Overlapped(log, n, log[n].key)
    decreases j
  {
    var k := log[n].key;
    if j == n + 1 {
      LoneTimeoutBefore(log, n);
      FirstTimeoutLosesItsOverlap(log, n, k, cap);
    } else {
      LostThrough(log, n, j - 1, cap);
      OneMoreEntry(log, j - 1, k);
      if log[j - 1].key == k {
        if log[j - 1].since <= n {
          HolderLeavesOneLost(log, n, j - 1, cap);
          assert WrittenOver(log, n, j);
        } else {
          LaterReadLosesNothing(log, n, j - 1, cap);
          SameOverwriter(log, n, j);
        }
      } else {
        SameOverwriter(log, n, j);
      }
    }
  }

  lemma SameOverwriter(log: seq<Entry>, n: nat, j: nat)
    requires n + 1 < j <= |log| && (log[j - 1].key != log[n].key || log[j - 1].since > n)
    ensures WrittenOver(log, n, j) <==> WrittenOver(log, n, j - 1)
  {
  }

  /**
   Over a whole log in which one write of the number went without the lock: the counter ends one short if the
   lock's holder wrote over the stale value, and otherwise short by every pick the stale pass overlapped.
   */
  lemma LoneTimeoutLoses(log: seq<Entry>, n: nat, cap: nat)
    requires LogOk(log, cap) && LoneTimeout(log, n)
    ensures Lost(log, log[n].key) == if WrittenOver(log, n, |log|) then 1 else Overlapped(log, n, log[n].key)
  {
    LostThrough(log, n, |log|, cap);
    assert log[..|log|] == log;
  }

  /**
   One timed-out pass undercounts at most one call if and only
   if the holder wrote over it or it overlapped at most one.
   */
  lemma UndercountsOneIff(log: seq<Entry>, n: nat, cap: nat)
    requires LogOk(log, cap) && LoneTimeout(log, n)
    ensures Lost(log, log[n].key) <= 1 <==> WrittenOver(log, n, |log|) || Overlapped(log, n, log[n].key) <= 1
    ensures 0 <= Lost(log, log[n].key) <= cap
  {
    assert EntryOk(log, n, cap);
    LoneTimeoutLoses(log, n, cap);
    LoneTimeoutBefore(log, n);
    FirstTimeoutLosesItsOverlap(log, n, log[n].key, cap);
  }

  /** In every interleaving with one timed-out write of a number, its counter is the picks of it less that loss. */
  lemma CounterAfterLoneTimeout(s: State, schedule: seq<ChannelId>, cap: nat, n: nat)
    requires Initial(s) && LoneTimeout(Run(s, schedule, cap).log, n)
    ensures var t := Run(s, schedule, cap);
            var k := t.log[n].key;
            Counter(t.counters, k)
            == Picks(t.log, k) - if WrittenOver(t.log, n, |t.log|) then 1 else Overlapped(t.log, n, k)
  {
    RunKeepsInv(s, schedule, cap);
    LoneTimeoutLoses(Run(s, schedule, cap).log, n, cap);
  }

  // ---- Any number of timeouts ----

  /** No pass wrote before it read. */
  ghost predicate ReadsFirst(log: seq<Entry>) {
    forall n :: 0 <= n < |log| ==> log[n].since <= n
  }

  /** What the counter descends from after `j` entries: the key's last write, the last before its read, and so on. */
  ghost function Chain(log: seq<Entry>, j: nat, k: Key): (chain: seq<nat>)
    requires ReadsFirst(log) && j <= |log|
    ensures forall i :: 0 <= i < |chain| ==> chain[i] < j && log[chain[i]].key == k
    decreases j
  {
    if j == 0 then []
    else if log[j - 1].key != k then Chain(log, j - 1, k)
    else Chain(log, log[j - 1].since, k) + [j - 1]
  }

  /** Picks overlapped along a chain of writes. */
  ghost function OverlappedAlong(log: seq<Entry>, chain: seq<nat>, k: Key): int
    requires ReadsFirst(log) && forall i :: 0 <= i < |chain| ==> chain[i] < |log|
    decreases |chain|
  {
    if chain == [] then 0
    else OverlappedAlong(log, chain[..|chain| - 1], k) + Overlapped(log, chain[|chain| - 1], k)
  }

  lemma LogReadsFirst(log: seq<Entry>, cap: nat)
    requires LogOk(log, cap)
    ensures ReadsFirst(log)
  {
    forall n | 0 <= n < |log| ensures log[n].since <= n {
      assert EntryOk(log, n, cap);
    }
  }

  /** A write leaves lost what it overlapped and what was lost when it read. */
  lemma WriteInheritsLoss(log: seq<Entry>, n: nat, k: Key, cap: nat)
    requires LogOk(log, cap) && n < |log| && log[n].key == k && log[n].since <= n
    ensures Stored(log[..n + 1], k) == Stored(log[..log[n].since], k) + 1
    ensures Lost(log[..n + 1], k) == Lost(log[..log[n].since], k) + Overlapped(log, n, k)
  {
    assert EntryOk(log, n, cap);
    OneMoreEntry(log, n, k);
    WriteLosesWhatItOverlaps(log, n, k, cap);
  }

  lemma OneMoreOnTheChain(log: seq<Entry>, chain: seq<nat>, n: nat, k: Key)
    requires ReadsFirst(log) && n < |log| && forall i :: 0 <= i < |chain| ==> chain[i] < |log|
    ensures OverlappedAlong(log, chain + [n], k) == OverlappedAlong(log, chain, k) + Overlapped(log, n, k)
  {
    assert (chain + [n])[..|chain|] == chain;
  }

  ghost predicate OnItsChain(log: seq<Entry>, j: nat, k: Key, chain: seq<nat>)
    requires ReadsFirst(log) && j <= |log| && forall i :: 0 <= i < |chain| ==> chain[i] < |log|
  {
    Stored(log[..j], k) == |chain| && Lost(log[..j], k) == OverlappedAlong(log, chain, k)
  }

  lemma ThroughWrite(log: seq<Entry>, n: nat, k: Key, chain: seq<nat>, cap: nat)
    requires LogOk(log, cap) && ReadsFirst(log) && n < |log| && log[n].key == k
    requires (forall i :: 0 <= i < |chain| ==> chain[i] < |log|) && OnItsChain(log, log[n].since, k, chain)
    ensures OnItsChain(log, n + 1, k, chain + [n])
  {
    WriteInheritsLoss(log, n, k, cap);
    OneMoreOnTheChain(log, chain, n, k);
  }

  lemma PastOthers(log: seq<Entry>, n: nat, k: Key, chain: seq<nat>)
    requires ReadsFirst(log) && n < |log| && log[n].key != k
    requires (forall i :: 0 <= i < |chain| ==> chain[i] < |log|) && OnItsChain(log, n, k, chain)
    ensures OnItsChain(log, n + 1, k, chain)
  {
    OneMoreEntry(log, n, k);
  }

  lemma {:induction false} ChainUpTo(log: seq<Entry>, j: nat, k: Key, cap: nat)
    requires LogOk(log, cap) && ReadsFirst(log) && j <= |log|
    ensures OnItsChain(log, j, k, Chain(log, j, k))
    decreases j
  {
    if j > 0 {
      var n := j - 1;
      if log[n].key == k {
        ChainUpTo(log, log[n].since, k, cap);
        ThroughWrite(log, n, k, Chain(log, log[n].since, k), cap);
      } else {
        ChainUpTo(log, n, k, cap);
        PastOthers(log, n, k, Chain(log, n, k));
      }
    }
  }

  lemma {:induction false} NothingOverlappedIff(log: seq<Entry>, chain: seq<nat>, k: Key)
    requires ReadsFirst(log) && forall i :: 0 <= i < |chain| ==> chain[i] < |log|
    ensures OverlappedAlong(log, chain, k) >= 0
    ensures OverlappedAlong(log, chain, k) == 0 <==> forall i :: 0 <= i < |chain| ==> Overlapped(log, chain[i], k) == 0
    decreases |chain|
  {
    if chain != [] {
      var front, n := chain[..|chain| - 1], chain[|chain| - 1];
      NothingOverlappedIff(log, front, k);
      PicksGrow(log[..n], k, log[n].since);
      CutTwice(log, log[n].since, n);
      assert chain == front + [n];
    }
  }

  /**
   However many passes timed out: the counter is the number of writes on its chain, it is short by the picks those
   writes overlapped, and it is exact if and only if none of them overlapped any.
   */
  lemma ChainLoses(log: seq<Entry>, k: Key, cap: nat)
    requires LogOk(log, cap)
    ensures ReadsFirst(log)
    ensures var chain := Chain(log, |log|, k);
            && Stored(log, k) == |chain|
            && Lost(log, k) == OverlappedAlong(log, chain, k)
            && (Lost(log, k) == 0 <==> forall i :: 0 <= i < |chain| ==> Overlapped(log, chain[i], k) == 0)
  {
    LogReadsFirst(log, cap);
    ChainUpTo(log, |log|, k, cap);
    assert log[..|log|] == log;
    NothingOverlappedIff(log, Chain(log, |log|, k), k);
  }

  /** In every interleaving, timeouts and all, a counter is its number's picks less those its chain overlapped. */
  lemma CounterInEveryInterleaving(s: State, schedule: seq<ChannelId>, cap: nat, k: Key)
    requires Initial(s)
    ensures ReadsFirst(Run(s, schedule, cap).log)
    ensures var t := Run(s, schedule, cap);
            Counter(t.counters, k) == Picks(t.log, k) - OverlappedAlong(t.log, Chain(t.log, |t.log|, k), k)
  {
    RunKeepsInv(s, schedule, cap);
    ChainLoses(Run(s, schedule, cap).log, k, cap);
  }
}
