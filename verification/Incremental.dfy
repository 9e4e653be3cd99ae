/** Feeding the matcher piece by piece: what is scored over a whole call, however the speech was cut. */
module Incremental {
  import opened Numbers
  import opened Corpus
  import opened Matcher
  import opened Spans
  import opened Matching
  import opened MatchLaws

  /** One call over the token history: the window starts at `dropped`, ends at `total`, and was matched up to `seen`. */
  datatype View = View(dropped: nat, seen: nat, total: nat)

  function Window(history: seq<Token>, v: View): seq<Token>
    requires v.dropped <= v.total <= |history|
  {
    history[v.dropped..v.total]
  }

  function Since(v: View): (since: nat) {
    Max(0, v.seen - v.dropped)
  }

  /** Successive calls over one history, each matching what the previous one had not seen. */
  ghost predicate Feed(history: seq<Token>, views: seq<View>) {
    && views != [] && views[0].seen == 0 && views[|views| - 1].total == |history|
    && (forall k :: 0 <= k < |views| ==>
                      views[k].dropped <= views[k].total <= |history| && views[k].seen <= views[k].total)
    && (forall k :: 0 <= k < |views| - 1 ==> views[k + 1].seen == views[k].total)
  }

  /** The span [s, e) of the history is scored for the phrase in this call. */
  ghost predicate ScoredIn(c: Config, history: seq<Token>, v: View, pos: nat, s: nat, e: nat)
    requires v.dropped <= v.total <= |history| && pos < |c.phrases|
  {
    && Woken(c, Window(history, v), Since(v), pos)
    && Scored(c.th, c.phrases[pos], |Window(history, v)|, Since(v), s - v.dropped, e - v.dropped)
  }

  lemma {:induction false} CallsFollow(history: seq<Token>, views: seq<View>, j: nat, k: nat)
    requires Feed(history, views) && j < k < |views|
    ensures views[j].total <= views[k].seen
    decreases k
  {
    if j < k - 1 {
      CallsFollow(history, views, j, k - 1);
    }
    assert views[(k - 1) + 1].seen == views[k - 1].total;
  }

  /** No span is scored for a phrase in two calls. */
  lemma ScoredAtMostOnce(c: Config, history: seq<Token>, views: seq<View>, pos: nat, s: nat, e: nat, j: nat, k: nat)
    requires Feed(history, views) && pos < |c.phrases| && j < |views| && k < |views|
    requires ScoredIn(c, history, views[j], pos, s, e) && ScoredIn(c, history, views[k], pos, s, e)
    ensures j == k
  {
    if j < k {
      CallsFollow(history, views, j, k);
    } else if k < j {
      CallsFollow(history, views, k, j);
    }
  }

  /** The call in which token `e - 1` arrived. */
  lemma {:induction false} ArrivalCall(history: seq<Token>, views: seq<View>, e: nat, k: nat) returns (j: nat)
    requires Feed(history, views) && k < |views| && 0 < e <= views[k].total
    ensures j <= k && views[j].seen < e <= views[j].total
    decreases k
  {
    if views[k].seen < e {
      j := k;
    } else {
      assert k > 0 && views[(k - 1) + 1].seen == views[k - 1].total;
      j := ArrivalCall(history, views, e, k - 1);
    }
  }

  /** A span of admissible width holding a token that wakes the phrase, by spelling or by sound. */
  ghost predicate TriggerSpan(c: Config, history: seq<Token>, pos: nat, s: nat, e: nat)
    requires pos < |c.phrases|
  {
    && s < e <= |history|
    && Narrowest(c.phrases[pos]) <= e - s <= Widest(c.th, c.phrases[pos])
    && exists i :: s <= i < e && pos in WokenBy(c, history[i])
  }

  /** The wake scan reaches every span that new tokens can complete. */
  predicate ScanReaches(c: Config) {
    c.th.brandSpan <= MaxSpan(c.phrases) + 1
  }

  lemma WidestWithinReach(c: Config, pos: nat)
    requires ScanReaches(c) && pos < |c.phrases|
    ensures Widest(c.th, c.phrases[pos]) <= MaxSpan(c.phrases) + 1
  {
    MaxSpanCovers(c.phrases, c.phrases[pos]);
  }

  /** A trigger span whose start has not been evicted is scored in the call that completes it. */
  lemma TriggerSpanScored(c: Config, history: seq<Token>, v: View, pos: nat, s: nat, e: nat)
    requires ScanReaches(c) && pos < |c.phrases| && TriggerSpan(c, history, pos, s, e)
    requires v.dropped <= s && v.seen < e <= v.total <= |history|
    ensures ScoredIn(c, history, v, pos, s, e)
  {
    WidestWithinReach(c, pos);
    var i :| s <= i < e && pos in WokenBy(c, history[i]);
    var window := Window(history, v);
    assert window[i - v.dropped] == history[i];
    assert ScanFrom(c, Since(v)) <= i - v.dropped < |window|;
  }

  lemma SameWords(history: seq<Token>, v: View, s: nat, e: nat)
    requires v.dropped <= s <= e <= v.total <= |history|
    ensures Window(history, v)[s - v.dropped..e - v.dropped] == history[s..e]
  {
    var inner := Window(history, v)[s - v.dropped..e - v.dropped];
    assert |inner| == e - s;
    forall i | 0 <= i < e - s ensures inner[i] == history[s..e][i] {
      assert inner[i] == Window(history, v)[s - v.dropped + i];
    }
  }

  ghost predicate NothingEvicted(views: seq<View>) {
    forall k :: 0 <= k < |views| ==> views[k].dropped == 0
  }

  /**
   However the call's speech is cut into utterances, every trigger span is scored in exactly one call,
   on the same words, as long as the window has not let go of its start.
   */
  lemma EveryTriggerSpanScoredOnce(c: Config, history: seq<Token>, views: seq<View>, pos: nat, s: nat, e: nat)
      returns (k: nat)
    requires Feed(history, views) && ScanReaches(c) && pos < |c.phrases| && TriggerSpan(c, history, pos, s, e)
    ensures k < |views| && views[k].seen < e <= views[k].total
    ensures views[k].dropped <= s ==>
              && ScoredIn(c, history, views[k], pos, s, e)
              && (forall j: nat :: j < |views| && ScoredIn(c, history, views[j], pos, s, e) ==> j == k)
              && Window(history, views[k])[s - views[k].dropped..e - views[k].dropped] == history[s..e]
  {
    k := ArrivalCall(history, views, e, |views| - 1);
    if views[k].dropped <= s {
      TriggerSpanScored(c, history, views[k], pos, s, e);
      SameWords(history, views[k], s, e);
      forall j: nat | j < |views| && ScoredIn(c, history, views[j], pos, s, e) ensures j == k {
        ScoredAtMostOnce(c, history, views, pos, s, e, j, k);
      }
    }
  }

  /** The score a trigger span of the phrase attains somewhere in the feed. */
  ghost predicate Attains(c: Config, history: seq<Token>, views: seq<View>, pos: nat, score: real, how: How)
    requires Feed(history, views) && pos < |c.phrases| && Speakable(c.phrases[pos])
  {
    exists k: nat, s: nat, e: nat :: k < |views| && TriggerSpan(c, history, pos, s, e)
      && ScoredIn(c, history, views[k], pos, s, e)
                      && Score(c, c.phrases[pos], history[s..e]) == (score, how)
  }

  /**
   Without eviction, the scores of trigger spans, and so the best of them, do not depend on how the stream was cut.
   */
  lemma CutsDoNotMatter(c: Config, history: seq<Token>, one: seq<View>, other: seq<View>, pos: nat, score: real,
                        how: How)
    requires Feed(history, one) && Feed(history, other) && NothingEvicted(one) && NothingEvicted(other)
    requires ScanReaches(c) && pos < |c.phrases| && Speakable(c.phrases[pos])
    ensures Attains(c, history, one, pos, score, how) ==> Attains(c, history, other, pos, score, how)
  {
    if Attains(c, history, one, pos, score, how) {
      var k: nat, s: nat, e: nat :| k < |one| && TriggerSpan(c, history, pos, s, e)
        && ScoredIn(c, history, one[k], pos, s, e)
                     && Score(c, c.phrases[pos], history[s..e]) == (score, how);
      var j := EveryTriggerSpanScoredOnce(c, history, other, pos, s, e);
    }
  }

  /** An exact occurrence still in the window is complete, for the matcher, in the call that brings its last token. */
  lemma OccurrenceSeenWhenComplete(c: Config, history: seq<Token>, views: seq<View>, pos: nat, s: nat) returns (k: nat)
    requires c.Valid() && Feed(history, views) && pos < |c.phrases|
    requires Occurs(c.phrases[pos], history, 0, s)
    ensures k < |views| && views[k].seen < s + |c.phrases[pos].tokens| <= views[k].total
    ensures views[k].dropped <= s ==>
              Occurs(c.phrases[pos], Window(history, views[k]), Since(views[k]), s - views[k].dropped)
  {
    var e := s + |c.phrases[pos].tokens|;
    k := ArrivalCall(history, views, e, |views| - 1);
    if views[k].dropped <= s {
      SameWords(history, views[k], s, e);
    }
  }

  // ---- Exactly when the scan reaches far enough ----

  function Padded(t: Token, filler: Token, n: nat): seq<Token> {
    [t] + seq(n, _ => filler)
  }

  /** With a wider brand span, a trigger at the front of a span has scrolled behind the scan when the span completes. */
  lemma WideBrandSpanMisses(c: Config, pos: nat, t: Token, filler: Token)
    requires pos < |c.phrases| && c.phrases[pos].anchor == Brand && !ScanReaches(c)
    requires pos in WokenBy(c, t) && pos !in WokenBy(c, filler)
    ensures var w := MaxSpan(c.phrases) + 2;
            var history := Padded(t, filler, w - 1);
            var views := [View(0, 0, w - 1), View(0, w - 1, w)];
            && Feed(history, views) && NothingEvicted(views) && TriggerSpan(c, history, pos, 0, w)
            && !ScoredIn(c, history, views[0], pos, 0, w) && !ScoredIn(c, history, views[1], pos, 0, w)
  {
    var w := MaxSpan(c.phrases) + 2;
    var history := Padded(t, filler, w - 1);
    var v := View(0, w - 1, w);
    assert history[0] == t;
    assert Window(history, v) == history;
    assert forall i :: 1 <= i < w ==> history[i] == filler;
  }

  /**
   Given a brand phrase, a token that wakes it and one that does not: every trigger span of every feed without
   eviction is scored if and only if the brand span is at most one more than the corpus's widest span.
   */
  lemma ScanIsCompleteIff(c: Config, pos: nat, t: Token, filler: Token)
    requires pos < |c.phrases| && c.phrases[pos].anchor == Brand
    requires pos in WokenBy(c, t) && pos !in WokenBy(c, filler)
    ensures ScanReaches(c) <==>
            forall history: seq<Token>, views: seq<View>, s: nat, e: nat ::
              Feed(history, views) && NothingEvicted(views) && TriggerSpan(c, history, pos, s, e) ==>
                exists k :: 0 <= k < |views| && ScoredIn(c, history, views[k], pos, s, e)
  {
    if ScanReaches(c) {
      forall history: seq<Token>, views: seq<View>, s: nat, e: nat
        | Feed(history, views) && NothingEvicted(views) && TriggerSpan(c, history, pos, s, e)
        ensures exists k :: 0 <= k < |views| && ScoredIn(c, history, views[k], pos, s, e)
      {
        var k := EveryTriggerSpanScoredOnce(c, history, views, pos, s, e);
      }
    } else {
      WideBrandSpanMisses(c, pos, t, filler);
      var w := MaxSpan(c.phrases) + 2;
      var views := [View(0, 0, w - 1), View(0, w - 1, w)];
      assert forall k :: 0 <= k < |views| ==> !ScoredIn(c, Padded(t, filler, w - 1), views[k], pos, 0, w);
    }
  }
}
