/** What one call of the matcher guarantees about what it returns. */
module MatchLaws {
  import opened Numbers
  import opened Corpus
  import opened Sorting
  import opened Matcher
  import opened Spans
  import opened Matching
  import EditDistance

  lemma PreferredIsAnOrder()
    ensures TotalPreorder(Preferred) && TotalPreorder(ByStart)
  {
  }

  lemma {:induction false} UnvetoedMembers(raw: seq<Match>, among: seq<Match>, withExclusions: bool)
    ensures forall m :: m in Unvetoed(raw, among, withExclusions) <==>
              m in among && if m.tag == TagX then withExclusions else !Vetoed(raw, m)
    decreases |among|
  {
    if among != [] {
      UnvetoedMembers(raw, among[..|among| - 1], withExclusions);
      assert among == among[..|among| - 1] + [among[|among| - 1]];
    }
  }

  predicate Clash(m: Match, o: Match) {
    Overlap(m, o) && o.phrase.category == m.phrase.category
  }

  ghost predicate KeptApart(chosen: seq<Match>) {
    forall i, j :: 0 <= i < j < |chosen| ==> !Clash(chosen[j], chosen[i])
  }

  /** The match at place `k` was kept, or clashes with one kept from before it. */
  ghost predicate KeptOrBeaten(ranked: seq<Match>, chosen: seq<Match>, k: nat)
    requires k < |ranked|
  {
    ranked[k] in chosen || exists j :: 0 <= j < k && ranked[j] in chosen && Clash(ranked[k], ranked[j])
  }

  lemma {:induction false} SuppressedMembers(ranked: seq<Match>)
    ensures forall m :: m in Suppressed(ranked) ==> m in ranked
    decreases |ranked|
  {
    if ranked != [] {
      SuppressedMembers(ranked[..|ranked| - 1]);
      assert ranked == ranked[..|ranked| - 1] + [ranked[|ranked| - 1]];
    }
  }

  lemma OneMoreApart(chosen: seq<Match>, m: Match)
    requires KeptApart(chosen) && !Clashes(chosen, m)
    ensures KeptApart(chosen + [m])
  {
    forall i | 0 <= i < |chosen| ensures !Clash(m, chosen[i]) {
      assert chosen[i] in chosen;
    }
  }

  lemma {:induction false} SuppressedApart(ranked: seq<Match>)
    ensures KeptApart(Suppressed(ranked))
    decreases |ranked|
  {
    if ranked != [] {
      var front, last := ranked[..|ranked| - 1], ranked[|ranked| - 1];
      SuppressedApart(front);
      if !Clashes(Suppressed(front), last) {
        OneMoreApart(Suppressed(front), last);
      }
    }
  }

  lemma StillBeaten(front: seq<Match>, last: Match, before: seq<Match>, chosen: seq<Match>, k: nat)
    requires k < |front| && KeptOrBeaten(front, before, k)
    requires forall m :: m in before ==> m in chosen
    ensures KeptOrBeaten(front + [last], chosen, k)
  {
    if front[k] !in before {
      var j :| 0 <= j < k && front[j] in before && Clash(front[k], front[j]);
      assert (front + [last])[j] in chosen;
    }
  }

  lemma LastIsBeaten(front: seq<Match>, last: Match, before: seq<Match>)
    requires Clashes(before, last) && forall m :: m in before ==> m in front
    ensures KeptOrBeaten(front + [last], before, |front|)
  {
    var o :| o in before && Overlap(last, o) && o.phrase.category == last.phrase.category;
    var j :| 0 <= j < |front| && front[j] == o;
    assert (front + [last])[j] in before;
  }

  /** Greedy suppression: everything dropped clashes with something kept that was ranked before it. */
  lemma {:induction false} SuppressedIsMaximal(ranked: seq<Match>, k: nat)
    requires k < |ranked|
    ensures KeptOrBeaten(ranked, Suppressed(ranked), k)
    decreases |ranked|
  {
    var front, last := ranked[..|ranked| - 1], ranked[|ranked| - 1];
    assert ranked == front + [last];
    var before := Suppressed(front);
    if k < |front| {
      SuppressedIsMaximal(front, k);
      StillBeaten(front, last, before, Suppressed(ranked), k);
    } else if Clashes(before, last) {
      SuppressedMembers(front);
      LastIsBeaten(front, last, before);
    }
  }

  lemma {:induction false} TwiceMeansTwoPlaces(xs: seq<Match>, x: Match)
    requires multiset(xs)[x] >= 2
    ensures exists i, j :: 0 <= i < j < |xs| && xs[i] == x && xs[j] == x
    decreases |xs|
  {
    var front, last := xs[..|xs| - 1], xs[|xs| - 1];
    assert xs == front + [last];
    if last == x {
      assert x in multiset(front);
      var i :| 0 <= i < |front| && front[i] == x;
      assert xs[i] == x && xs[|xs| - 1] == x;
    } else {
      TwiceMeansTwoPlaces(front, x);
      var i, j :| 0 <= i < j < |front| && front[i] == x && front[j] == x;
      assert xs[i] == x && xs[j] == x;
    }
  }

  /** Reordering keeps a clash-free list clash-free. */
  lemma ReorderKeepsApart(xs: seq<Match>, ys: seq<Match>)
    requires multiset(xs) == multiset(ys)
    requires KeptApart(xs)
    ensures KeptApart(ys)
  {
    forall i, j | 0 <= i < j < |ys| ensures !Clash(ys[j], ys[i]) {
      var x, y := ys[i], ys[j];
      if x == y {
        TwoPlacesMeanTwice(ys, i, j);
        TwiceMeansTwoPlaces(xs, x);
      } else {
        assert x in multiset(ys) && y in multiset(ys);
        var p :| 0 <= p < |xs| && xs[p] == x;
        var q :| 0 <= q < |xs| && xs[q] == y;
        assert !Clash(xs[Max(p, q)], xs[Min(p, q)]);
      }
    }
  }

  lemma TwoPlacesMeanTwice(xs: seq<Match>, i: nat, j: nat)
    requires i < j < |xs| && xs[i] == xs[j]
    ensures multiset(xs)[xs[i]] >= 2
  {
    assert xs == xs[..j] + ([xs[j]] + xs[j + 1..]);
    assert xs[..j][i] == xs[i];
    assert xs[i] in multiset(xs[..j]);
  }

  /**
   The selection, from whatever candidates: nothing returned is an exclusion or overlaps one, nothing
   returned overlaps another of its category, and a candidate free of exclusions is missing only because
   a preferred one of its category, overlapping it, is there.
   */
  lemma SelectionLaws(raw: seq<Match>)
    ensures var r := Select(raw, false);
            && (forall m :: m in r ==> m in raw && m.tag != TagX && !Vetoed(raw, m))
            && KeptApart(r)
            && (forall m :: m in raw && m.tag != TagX && !Vetoed(raw, m) ==>
                  m in r || exists o :: o in r && Clash(m, o) && Preferred(o, m))
            && Ordered(r, ByStart)
  {
    var kept := Unvetoed(raw, raw, false);
    var ranked := Sort(kept, Preferred);
    var chosen := Suppressed(ranked);
    var r := Sort(chosen, ByStart);
    PreferredIsAnOrder();
    UnvetoedMembers(raw, raw, false);
    SortMembers(kept, Preferred);
    SortOrders(kept, Preferred);
    SuppressedMembers(ranked);
    SuppressedApart(ranked);
    SortMembers(chosen, ByStart);
    SortPermutes(chosen, ByStart);
    SortOrders(chosen, ByStart);
    ReorderKeepsApart(chosen, r);
    forall m | m in raw && m.tag != TagX && !Vetoed(raw, m)
      ensures m in r || exists o :: o in r && Clash(m, o) && Preferred(o, m)
    {
      BeatenByPreferred(ranked, m);
    }
  }

  lemma BeatenByPreferred(ranked: seq<Match>, m: Match)
    requires Ordered(ranked, Preferred) && m in ranked
    ensures m in Suppressed(ranked) || exists o :: o in Suppressed(ranked) && Clash(m, o) && Preferred(o, m)
  {
    var k :| 0 <= k < |ranked| && ranked[k] == m;
    SuppressedIsMaximal(ranked, k);
    if m !in Suppressed(ranked) {
      var j :| 0 <= j < k && ranked[j] in Suppressed(ranked) && Clash(ranked[k], ranked[j]);
      assert Preferred(ranked[j], m);
    }
  }

  // ---- Exact occurrences ----

  lemma {:induction false} RawMembers(c: Config, tokens: seq<Token>, since: nat, n: nat, pos: nat)
    requires AllSpeakable(c.phrases) && pos < n <= |c.phrases|
    ensures Woken(c, tokens, since, pos) ==>
              forall m :: m in CandidateOf(c, c.phrases[pos], tokens, since) ==> m in Raw(c, tokens, since, n)
    decreases n
  {
    if pos < n - 1 {
      RawMembers(c, tokens, since, n - 1, pos);
      assert forall m :: m in Raw(c, tokens, since, n - 1) ==> m in Raw(c, tokens, since, n);
    }
  }

  /** A trigger inside the scanned region wakes its phrase. */
  lemma TriggerWakes(c: Config, tokens: seq<Token>, since: nat, pos: nat, i: nat)
    requires c.Valid() && pos < |c.phrases| && ScanFrom(c, since) <= i < |tokens|
    requires tokens[i] in Triggers(c.lex, c.phrases, c.phrases[pos])
    ensures Woken(c, tokens, since, pos)
  {
    assert Literal(tokens[i]) in KeysOf(c.lex, tokens[i]);
    assert Wakes(c.lex, c.phrases, pos, Literal(tokens[i]));
    assert pos in Filed(c.index, Literal(tokens[i]));
    assert pos in WokenBy(c, tokens[i]);
  }

  /** The tokens spell the phrase out, ending after `since`. */
  predicate Occurs(p: Phrase, tokens: seq<Token>, since: nat, s: nat) {
    s + |p.tokens| <= |tokens| && since < s + |p.tokens| && tokens[s..s + |p.tokens|] == p.tokens
  }

  /** The width of its own text is one the phrase is scored at. */
  predicate OwnWidthScored(th: Thresholds, p: Phrase) {
    p.anchor != Brand || |p.tokens| <= th.brandSpan
  }

  /** Somewhere in the occurrence there is a trigger. */
  lemma OccurrenceHasTrigger(c: Config, tokens: seq<Token>, since: nat, pos: nat, s: nat) returns (i: nat)
    requires c.Valid() && pos < |c.phrases| && Occurs(c.phrases[pos], tokens, since, s)
    ensures s <= i < s + |c.phrases[pos].tokens| && tokens[i] in Triggers(c.lex, c.phrases, c.phrases[pos])
  {
    var p := c.phrases[pos];
    var t := HasTrigger(c.lex, c.phrases, p);
    var k :| 0 <= k < |p.tokens| && p.tokens[k] == t;
    assert tokens[s + k] == tokens[s..s + |p.tokens|][k];
    i := s + k;
  }

  lemma OccurrenceWakes(c: Config, tokens: seq<Token>, since: nat, pos: nat, s: nat)
    requires c.Valid() && pos < |c.phrases| && Occurs(c.phrases[pos], tokens, since, s)
    ensures Woken(c, tokens, since, pos)
  {
    var i := OccurrenceHasTrigger(c, tokens, since, pos, s);
    MaxSpanCovers(c.phrases, c.phrases[pos]);
    TriggerWakes(c, tokens, since, pos, i);
  }

  function OwnTag(t: Tier): Tag {
    match t
    case A => TagA
    case B => TagB
    case C => TagC
    case X => TagX
  }

  ghost predicate FullScore(c: Config, tokens: seq<Token>, since: nat, p: Phrase, m: Match)
    requires AllSpeakable(c.phrases)
  {
    m in Candidates(c, tokens, since) && m.phrase == p && m.tag == OwnTag(p.tier) && m.score == 1.0 && since < m.end
  }

  lemma LoadableIsSpeakable(c: Config)
    requires c.Valid()
    ensures AllSpeakable(c.phrases)
  {
    forall p | p in c.phrases ensures Speakable(p) {
      assert p.tokens[0] in p.tokens;
    }
  }

  /** The last `w` tokens of the phrase are heard as the whole of it. */
  ghost predicate TailSounds(c: Config, p: Phrase, w: nat) {
    && 1 <= w <= |p.tokens| && w <= c.th.brandSpan
    && !AllCommon(c.lex, p.tokens[|p.tokens| - w..])
    && c.lex.soundsLike(Join(p.tokens[|p.tokens| - w..]), Join(p.tokens))
  }

  /** The phrase's own text is scored, or a tail that is scored sounds like it. */
  ghost predicate Hearable(c: Config, p: Phrase) {
    OwnWidthScored(c.th, p) || exists w :: TailSounds(c, p, w)
  }

  ghost predicate ScoresOne(c: Config, p: Phrase, span: seq<Token>)
    requires Speakable(p)
  {
    Score(c, p, span).0 == 1.0
  }

  /** How many of an occurrence's last tokens to look at for a score of 1. */
  ghost predicate FullTail(c: Config, p: Phrase, w: nat)
    requires Speakable(p)
  {
    1 <= w <= |p.tokens| && Narrowest(p) <= w <= Widest(c.th, p) && ScoresOne(c, p, p.tokens[|p.tokens| - w..])
  }

  lemma HearableHasFullTail(c: Config, p: Phrase) returns (w: nat)
    requires Speakable(p) && Hearable(c, p)
    ensures FullTail(c, p, w)
  {
    if OwnWidthScored(c.th, p) {
      w := |p.tokens|;
      assert p.tokens[0..] == p.tokens;
      ScoreAtMostOne(c, p, p.tokens);
    } else {
      w :| TailSounds(c, p, w);
    }
  }

  lemma {:induction false} LongerJoin(front: seq<Token>, tail: seq<Token>)
    requires front != [] && tail != []
    ensures |Join(front + tail)| > |Join(tail)|
    decreases |tail|
  {
    var n := |tail| - 1;
    assert (front + tail)[..|front + tail| - 1] == front + tail[..n];
    if n > 0 {
      LongerJoin(front, tail[..n]);
    }
  }

  /** A brand's span scores 1 only if it spells the brand or is no ordinary speech and sounds like it. */
  lemma FullBrandScore(c: Config, p: Phrase, span: seq<Token>)
    requires Speakable(p) && p.anchor == Brand && Score(c, p, span).0 == 1.0
    ensures Join(span) == Join(p.tokens) || (!AllCommon(c.lex, span) && c.lex.soundsLike(Join(span), Join(p.tokens)))
  {
    JoinNonempty(p.tokens);
    var target, cand := Join(p.tokens), Join(span);
    if cand != target {
      EditDistance.DistanceZero(target, cand);
      var d := EditDistance.Distance(target, cand);
      assert d as real / |target| as real > 0.0;
    }
  }

  lemma FullTailIsHearable(c: Config, p: Phrase, w: nat)
    requires Speakable(p) && FullTail(c, p, w)
    ensures Hearable(c, p)
  {
    var n := |p.tokens|;
    var tail := p.tokens[n - w..];
    if p.anchor == Brand && w < n {
      FullBrandScore(c, p, tail);
      LongerJoin(p.tokens[..n - w], tail);
      assert p.tokens[..n - w] + tail == p.tokens;
      assert TailSounds(c, p, w);
    }
  }

  lemma FullScoreMatches(c: Config, p: Phrase, span: seq<Token>)
    requires Speakable(p) && ScoresOne(c, p, span)
    ensures Score(c, p, span).1 != NoMatch
  {
  }

  /** Once a scored span scores 1, so does the chosen one. */
  lemma BestScoresOne(c: Config, p: Phrase, tokens: seq<Token>, since: nat, s: nat, e: nat, span: seq<Token>)
    requires Speakable(p) && Scored(c.th, p, |tokens|, since, s, e)
    requires tokens[s..e] == span && ScoresOne(c, p, span)
    ensures var b := BestSpan(c, p, tokens, since);
            b.Best? && b.score == 1.0 && since < b.end
  {
    BestSpanIsBest(c, p, tokens, since);
    var b := BestSpan(c, p, tokens, since);
    assert Beats(c, p, tokens, b, s, e);
    FullScoreMatches(c, p, span);
    ScoreAtMostOne(c, p, tokens[b.start..b.end]);
  }

  lemma TailOfOccurrence(th: Thresholds, p: Phrase, tokens: seq<Token>, since: nat, s: nat, w: nat, a: nat, e: nat)
    requires Occurs(p, tokens, since, s) && 1 <= w <= |p.tokens| && Narrowest(p) <= w <= Widest(th, p)
    requires e == s + |p.tokens| && a == e - w
    ensures Scored(th, p, |tokens|, since, a, e) && tokens[a..e] == p.tokens[|p.tokens| - w..]
  {
    assert tokens[a..e] == tokens[s..e][|p.tokens| - w..];
  }

  lemma FullTailScoresOne(c: Config, p: Phrase, tokens: seq<Token>, since: nat, s: nat, w: nat)
    requires Speakable(p) && Occurs(p, tokens, since, s) && FullTail(c, p, w)
    ensures var b := BestSpan(c, p, tokens, since);
            b.Best? && b.score == 1.0 && since < b.end
  {
    var e := s + |p.tokens|;
    TailOfOccurrence(c.th, p, tokens, since, s, w, e - w, e);
    BestScoresOne(c, p, tokens, since, e - w, e, p.tokens[|p.tokens| - w..]);
  }

  /** Whatever span is chosen for such a phrase, its score is 1. */
  lemma OccurrenceScoresOne(c: Config, p: Phrase, tokens: seq<Token>, since: nat, s: nat)
    requires Speakable(p) && Occurs(p, tokens, since, s) && Hearable(c, p)
    ensures var b := BestSpan(c, p, tokens, since);
            b.Best? && b.score == 1.0 && since < b.end
  {
    var w := HearableHasFullTail(c, p);
    FullTailScoresOne(c, p, tokens, since, s, w);
  }

  lemma OccurrenceIsCandidate(c: Config, tokens: seq<Token>, since: nat, pos: nat, s: nat) returns (m: Match)
    requires c.Valid()
    requires pos < |c.phrases| && Occurs(c.phrases[pos], tokens, since, s) && Hearable(c, c.phrases[pos])
    requires c.ReviewFor(c.phrases[pos]) <= 1.0 && c.KillFor(c.phrases[pos]) <= 1.0
    ensures AllSpeakable(c.phrases)
    ensures FullScore(c, tokens, since, c.phrases[pos], m)
  {
    var p := c.phrases[pos];
    LoadableIsSpeakable(c);
    OccurrenceScoresOne(c, p, tokens, since, s);
    assert TagFor(c, p, 1.0) == [OwnTag(p.tier)];
    m := CandidateOf(c, p, tokens, since)[0];
    OccurrenceWakes(c, tokens, since, pos, s);
    RawMembers(c, tokens, since, |c.phrases|, pos);
  }

  /**
   An exact occurrence completed by the new tokens is a full-score candidate at its own tier, and is
   returned unless it overlaps an exclusion or a returned match of its category that scores 1 and is at least as long.
   */
  lemma ExactOccurrenceReturned(c: Config, tokens: seq<Token>, since: nat, pos: nat, s: nat) returns (m: Match)
    requires c.Valid()
    requires pos < |c.phrases| && Occurs(c.phrases[pos], tokens, since, s) && Hearable(c, c.phrases[pos])
    requires c.ReviewFor(c.phrases[pos]) <= 1.0 && c.KillFor(c.phrases[pos]) <= 1.0
    ensures AllSpeakable(c.phrases)
    ensures FullScore(c, tokens, since, c.phrases[pos], m)
    ensures c.phrases[pos].tier != X ==>
              var r := Matches(c, tokens, since, false);
              || m in r
              || Vetoed(Candidates(c, tokens, since), m)
              || exists o :: o in r && Clash(m, o) && o.score == 1.0 && o.end - o.start >= m.end - m.start
  {
    m := OccurrenceIsCandidate(c, tokens, since, pos, s);
    SelectionLaws(Candidates(c, tokens, since));
    var r := Matches(c, tokens, since, false);
    if c.phrases[pos].tier != X && m !in r && !Vetoed(Candidates(c, tokens, since), m) {
      var o :| o in r && Clash(m, o) && Preferred(o, m);
      CandidatesScoreAtMostOne(c, tokens, since, |c.phrases|);
    }
  }

  lemma {:induction false} CandidatesScoreAtMostOne(c: Config, tokens: seq<Token>, since: nat, n: nat)
    requires AllSpeakable(c.phrases) && n <= |c.phrases|
    ensures forall m :: m in Raw(c, tokens, since, n) ==> m.score <= 1.0
    decreases n
  {
    if n > 0 {
      CandidatesScoreAtMostOne(c, tokens, since, n - 1);
      var p := c.phrases[n - 1];
      BestSpanIsBest(c, p, tokens, since);
      match BestSpan(c, p, tokens, since)
      case NoBest =>
      case Best(_, start, end, _) => ScoreAtMostOne(c, p, tokens[start..end]);
    }
  }

  // ---- Which phrases are always heard ----

  /** Wherever the phrase is said, the call that hears its end has a full-score candidate for it. */
  ghost predicate AlwaysHeard(c: Config, p: Phrase)
    requires AllSpeakable(c.phrases)
  {
    forall tokens, since, s :: Occurs(p, tokens, since, s) ==> HeardAt(c, p, tokens, since)
  }

  ghost predicate HeardAt(c: Config, p: Phrase, tokens: seq<Token>, since: nat)
    requires AllSpeakable(c.phrases)
  {
    exists m :: FullScore(c, tokens, since, p, m)
  }

  lemma {:induction false} CandidatesAreBest(c: Config, tokens: seq<Token>, since: nat, n: nat, m: Match)
    requires AllSpeakable(c.phrases) && n <= |c.phrases| && m in Raw(c, tokens, since, n)
    ensures m.phrase in c.phrases && BestSpan(c, m.phrase, tokens, since).Best?
    ensures m.score == BestSpan(c, m.phrase, tokens, since).score
    decreases n
  {
    if m !in CandidateOf(c, c.phrases[n - 1], tokens, since) {
      CandidatesAreBest(c, tokens, since, n - 1, m);
    }
  }

  lemma BestIsATail(c: Config, p: Phrase) returns (w: nat)
    requires Speakable(p) && BestSpan(c, p, p.tokens, |p.tokens| - 1).Best?
    ensures 1 <= w <= |p.tokens| && Narrowest(p) <= w <= Widest(c.th, p)
    ensures Score(c, p, p.tokens[|p.tokens| - w..]).0 == BestSpan(c, p, p.tokens, |p.tokens| - 1).score
  {
    BestSpanIsGenuine(c, p, p.tokens, |p.tokens| - 1);
    var b := BestSpan(c, p, p.tokens, |p.tokens| - 1);
    w := b.end - b.start;
    assert p.tokens[b.start..b.end] == p.tokens[|p.tokens| - w..];
  }

  lemma HeardScoresOne(c: Config, p: Phrase, tokens: seq<Token>, since: nat)
    requires AllSpeakable(c.phrases) && p in c.phrases && HeardAt(c, p, tokens, since)
    ensures BestSpan(c, p, tokens, since).Best? && BestSpan(c, p, tokens, since).score == 1.0
  {
    var m :| FullScore(c, tokens, since, p, m);
    CandidatesAreBest(c, tokens, since, |c.phrases|, m);
  }

  /** Of its own text, heard but for the last token before, only the phrase's tails are scored. */
  lemma HeardHasFullTail(c: Config, p: Phrase) returns (w: nat)
    requires AllSpeakable(c.phrases) && p in c.phrases && HeardAt(c, p, p.tokens, |p.tokens| - 1)
    ensures FullTail(c, p, w)
  {
    HeardScoresOne(c, p, p.tokens, |p.tokens| - 1);
    w := BestIsATail(c, p);
  }

  /**
   A phrase is heard wherever it is said if and only if its own text is scored, as for all but a brand longer
   than the brand span, or one of its scored tails is no ordinary speech and sounds like the whole.
   */
  lemma AlwaysHeardIff(c: Config, pos: nat)
    requires c.Valid() && pos < |c.phrases|
    requires c.ReviewFor(c.phrases[pos]) <= 1.0 && c.KillFor(c.phrases[pos]) <= 1.0
    ensures AllSpeakable(c.phrases)
    ensures AlwaysHeard(c, c.phrases[pos]) <==> Hearable(c, c.phrases[pos])
  {
    var p := c.phrases[pos];
    LoadableIsSpeakable(c);
    if Hearable(c, p) {
      forall tokens, since, s | Occurs(p, tokens, since, s) ensures HeardAt(c, p, tokens, since) {
        var m := OccurrenceIsCandidate(c, tokens, since, pos, s);
      }
    } else if AlwaysHeard(c, p) {
      assert p.tokens[0..0 + |p.tokens|] == p.tokens;
      assert Occurs(p, p.tokens, |p.tokens| - 1, 0);
      var w := HeardHasFullTail(c, p);
      if p.anchor == Brand {
        FullTailIsHearable(c, p, w);
      }
    }
  }

  // ---- Which phrases leave any trace of being said ----

  ghost predicate ReachesReport(c: Config, p: Phrase, span: seq<Token>)
    requires Speakable(p)
  {
    Score(c, p, span).1 != NoMatch && TagFor(c, p, Score(c, p, span).0) != []
  }

  /** Some scored span of the window reaches the phrase's report line. */
  ghost predicate SomeSpanReported(c: Config, p: Phrase, tokens: seq<Token>, since: nat)
    requires Speakable(p)
  {
    exists s: nat, e: nat ::
      s <= e <= |tokens| && Scored(c.th, p, |tokens|, since, s, e) && ReachesReport(c, p, tokens[s..e])
  }

  lemma HigherIsReported(c: Config, p: Phrase, low: real, high: real)
    requires low <= high && TagFor(c, p, low) != []
    ensures TagFor(c, p, high) != []
  {
  }

  /** The chosen span is reported if any is. */
  lemma CandidateIff(c: Config, p: Phrase, tokens: seq<Token>, since: nat)
    requires Speakable(p)
    ensures CandidateOf(c, p, tokens, since) != [] <==> SomeSpanReported(c, p, tokens, since)
  {
    BestSpanIsBest(c, p, tokens, since);
    var b := BestSpan(c, p, tokens, since);
    if CandidateOf(c, p, tokens, since) != [] {
      assert ReachesReport(c, p, tokens[b.start..b.end]);
    } else if SomeSpanReported(c, p, tokens, since) {
      var s: nat, e: nat :|
        s <= e <= |tokens| && Scored(c.th, p, |tokens|, since, s, e) && ReachesReport(c, p, tokens[s..e]);
      assert Beats(c, p, tokens, b, s, e);
      HigherIsReported(c, p, Score(c, p, tokens[s..e]).0, b.score);
    }
  }

  lemma {:induction false} CandidatesAreOf(c: Config, tokens: seq<Token>, since: nat, n: nat, m: Match)
    requires AllSpeakable(c.phrases) && n <= |c.phrases| && m in Raw(c, tokens, since, n)
    ensures m.phrase in c.phrases && CandidateOf(c, m.phrase, tokens, since) != []
    decreases n
  {
    if m !in CandidateOf(c, c.phrases[n - 1], tokens, since) {
      CandidatesAreOf(c, tokens, since, n - 1, m);
    }
  }

  /** An occurrence leaves a candidate of its phrase, at whatever tier, if and only if some scored span is reported. */
  lemma OccurrenceLeavesTraceIff(c: Config, tokens: seq<Token>, since: nat, pos: nat, s: nat)
    requires c.Valid() && pos < |c.phrases| && Occurs(c.phrases[pos], tokens, since, s)
    ensures AllSpeakable(c.phrases)
    ensures (exists m :: m in Candidates(c, tokens, since) && m.phrase == c.phrases[pos])
            <==> SomeSpanReported(c, c.phrases[pos], tokens, since)
  {
    var p := c.phrases[pos];
    LoadableIsSpeakable(c);
    CandidateIff(c, p, tokens, since);
    if SomeSpanReported(c, p, tokens, since) {
      OccurrenceWakes(c, tokens, since, pos, s);
      RawMembers(c, tokens, since, |c.phrases|, pos);
      assert CandidateOf(c, p, tokens, since)[0] in Candidates(c, tokens, since);
    } else if m :| m in Candidates(c, tokens, since) && m.phrase == p {
      CandidatesAreOf(c, tokens, since, |c.phrases|, m);
    }
  }

  // ---- Brands longer than the brand span ----

  /** No run of at most `width` of the phrase's own tokens comes near its text, by spelling or by sound. */
  ghost predicate PartsAreFar(c: Config, p: Phrase, width: int) {
    forall s, e {:trigger p.tokens[s..e]} :: 0 <= s < e <= |p.tokens| && e - s <= width ==>
      && |Join(p.tokens)| - |Join(p.tokens[s..e])| > Budget(c.th, Join(p.tokens))
      && !c.lex.soundsLike(Join(p.tokens[s..e]), Join(p.tokens))
  }

  lemma FarPartNeverMatches(c: Config, p: Phrase, span: seq<Token>)
    requires Speakable(p) && p.anchor == Brand
    requires |Join(p.tokens)| - |Join(span)| > Budget(c.th, Join(p.tokens))
             && !c.lex.soundsLike(Join(span), Join(p.tokens))
    ensures Score(c, p, span).1 == NoMatch
  {
    var target, cand := Join(p.tokens), Join(span);
    EditDistance.OffDiagonal(target, cand, |target|, |cand|);
  }

  /**
   A brand longer than the brand span, no part of which comes
   near the whole, is spoken word for word and nothing returns.
   */
  lemma LongBrandMissed(c: Config, p: Phrase)
    requires c.phrases == [p] && p.anchor == Brand && Speakable(p) && PartsAreFar(c, p, c.th.brandSpan)
    ensures AllSpeakable(c.phrases) && Occurs(p, p.tokens, 0, 0) && Matches(c, p.tokens, 0, false) == []
  {
    var tokens := p.tokens;
    assert tokens[0..0 + |tokens|] == tokens;
    BestSpanIsBest(c, p, tokens, 0);
    var b := BestSpan(c, p, tokens, 0);
    if b.Best? {
      FarPartNeverMatches(c, p, tokens[b.start..b.end]);
    }
    assert CandidateOf(c, p, tokens, 0) == [];
    assert Raw(c, tokens, 0, 0) == [];
    assert Raw(c, tokens, 0, 1) == [];
  }

  /** A four-word brand, against the default thresholds and a span of three. */
  const LONG_BRAND: Phrase := Phrase(A, "A1", Brand, ["aaaaa", "bbbbb", "ccccc", "ddddd"], 1)

  const DEFAULTS: Thresholds := Thresholds(0.86, 0.72, 0.92, 0.80, 0.20, 3)

  lemma {:induction false} JoinLength(tokens: seq<Token>)
    requires tokens != [] && forall t :: t in tokens ==> |t| == 5
    ensures |Join(tokens)| == 6 * |tokens| - 1
    decreases |tokens|
  {
    if |tokens| > 1 {
      assert forall t :: t in tokens[..|tokens| - 1] ==> t in tokens;
      JoinLength(tokens[..|tokens| - 1]);
    }
  }

  lemma LongBrandPartsAreFar(c: Config)
    requires c.th == DEFAULTS && forall x, y :: !c.lex.soundsLike(x, y)
    ensures PartsAreFar(c, LONG_BRAND, c.th.brandSpan) && !OwnWidthScored(c.th, LONG_BRAND)
  {
    var target := Join(LONG_BRAND.tokens);
    JoinLength(LONG_BRAND.tokens);
    assert |target| as real * 0.20 == 4.6;
    assert Budget(c.th, target) == 5;
    forall s, e {:trigger LONG_BRAND.tokens[s..e]} | 0 <= s < e <= 4 && e - s <= 3
      ensures |Join(LONG_BRAND.tokens[s..e])| <= 17
    {
      JoinLength(LONG_BRAND.tokens[s..e]);
    }
  }

  /** A long brand said word for word, to a lexicon in which no two texts sound alike: nothing is returned. */
  lemma ALongBrandMissed(c: Config)
    requires c.phrases == [LONG_BRAND] && c.th == DEFAULTS && forall x, y :: !c.lex.soundsLike(x, y)
    ensures AllSpeakable(c.phrases) && Occurs(LONG_BRAND, LONG_BRAND.tokens, 0, 0)
    ensures Matches(c, LONG_BRAND.tokens, 0, false) == []
  {
    LongBrandPartsAreFar(c);
    LongBrandMissed(c, LONG_BRAND);
  }
}
