/** What a reported match says of the words it was found in, in terms of the thresholds and the phrase alone. */
module MatchReports {
  import opened Numbers
  import opened Corpus
  import opened Spans
  import opened Matcher
  import opened Matching
  import opened MatchLaws
  import EditDistance

  /** The lines a phrase is held to: pairs have their own. */
  function KillLine(th: Thresholds, p: Phrase): real {
    match p.anchor
    case Pair => th.pairKill
    case _ => th.kill
  }

  function ReviewLine(th: Thresholds, p: Phrase): real {
    match p.anchor
    case Pair => th.pairReview
    case _ => th.review
  }

  /** Tier A kills at the kill line and is near below it; the other tiers are reported at the kill line only. */
  ghost predicate TaggedRightly(th: Thresholds, m: Match) {
    var kill, review := KillLine(th, m.phrase), ReviewLine(th, m.phrase);
    && m.score >= review
    && (m.phrase.tier == A ==> m.tag == if m.score >= kill then TagA else Near)
    && (m.phrase.tier == B ==> m.tag == TagB && m.score >= kill)
    && (m.phrase.tier == C ==> m.tag == TagC && m.score >= kill)
    && (m.phrase.tier == X ==> m.tag == TagX && m.score >= kill)
  }

  /** No word of the span is anything but ordinary speech. */
  predicate Ordinary(lex: Lexicon, span: seq<Token>) {
    span != [] && forall i :: 0 <= i < |span| ==> span[i] in lex.common
  }

  /** At most one edit, or at most the allowed share of the phrase, rounded up. */
  predicate WithinBudget(th: Thresholds, d: nat, length: nat) {
    d <= 1 || (d - 1) as real < length as real * th.editRatio
  }

  /** How a score follows from the words of the span. */
  ghost predicate ScoredRightly(c: Config, p: Phrase, span: seq<Token>, score: real, how: How)
    requires Speakable(p)
  {
    var target, said := Join(p.tokens), Join(span);
    var d := EditDistance.Distance(target, said);
    && (how == Exact ==> said == target && score == 1.0)
    && (how == Phonetic ==> p.anchor == Brand && said != target && c.lex.soundsLike(said, target)
                            && !Ordinary(c.lex, span) && score == 1.0)
    && (how == Edited ==> d >= 1 && WithinBudget(c.th, d, |target|) && |target| > 0)
    && (how == Edited && p.anchor != Brand ==> score == MaxReal(0.0, 1.0 - d as real / |target| as real))
    && (how == Edited && p.anchor == Brand ==>
          !Ordinary(c.lex, span) && !c.lex.soundsLike(said, target)
          && score == MinReal(1.0 - d as real / |target| as real, ReviewLine(c.th, p) + 0.000000001))
  }

  lemma CeilMeans(d: nat, x: real)
    ensures d <= Ceil(x) <==> (d - 1) as real < x
  {
  }

  lemma BudgetMeans(th: Thresholds, target: string, d: nat)
    ensures d <= Budget(th, target) <==> WithinBudget(th, d, |target|)
  {
    CeilMeans(d, |target| as real * th.editRatio);
  }

  lemma CommonIsOrdinary(lex: Lexicon, span: seq<Token>)
    ensures AllCommon(lex, span) <==> Ordinary(lex, span)
  {
    if Ordinary(lex, span) {
      forall t | t in span ensures t in lex.common {
        var i :| 0 <= i < |span| && span[i] == t;
      }
    }
  }

  lemma SeqScoreMeans(c: Config, p: Phrase, span: seq<Token>)
    requires Speakable(p)
    ensures var target, said := Join(p.tokens), Join(span);
            var d := EditDistance.Distance(target, said);
            var (score, how) := SeqScore(c.th, p, span);
            && |target| > 0 && (d >= 1 <==> said != target)
            && (said == target ==> (score, how) == (1.0, Exact))
            && (said != target && WithinBudget(c.th, d, |target|) ==>
                  how == Edited && score == MaxReal(0.0, 1.0 - d as real / |target| as real))
            && (said != target && !WithinBudget(c.th, d, |target|) ==> how == NoMatch)
  {
    JoinNonempty(p.tokens);
    var target, said := Join(p.tokens), Join(span);
    EditDistance.DistanceZero(target, said);
    BudgetMeans(c.th, target, EditDistance.Distance(target, said));
  }

  lemma ScoreMeans(c: Config, p: Phrase, span: seq<Token>)
    requires Speakable(p) && Score(c, p, span).1 != NoMatch
    ensures ScoredRightly(c, p, span, Score(c, p, span).0, Score(c, p, span).1)
  {
    SeqScoreMeans(c, p, span);
    CommonIsOrdinary(c.lex, span);
  }

  /** A span matches nothing exactly when it is neither the text, nor its sound, nor within the edits allowed. */
  lemma NoMatchMeans(c: Config, p: Phrase, span: seq<Token>)
    requires Speakable(p)
    ensures var target, said := Join(p.tokens), Join(span);
            var d := EditDistance.Distance(target, said);
            Score(c, p, span).1 == NoMatch
            <==> said != target
                 && if p.anchor != Brand then !WithinBudget(c.th, d, |target|)
                    else Ordinary(c.lex, span)
                         || (!c.lex.soundsLike(said, target) && (!WithinBudget(c.th, d, |target|) || d >= |target|))
  {
    SeqScoreMeans(c, p, span);
    CommonIsOrdinary(c.lex, span);
    ShareLeft(EditDistance.Distance(Join(p.tokens), Join(span)), |Join(p.tokens)|);
  }

  lemma BelowOne(q: real, k: real, d: real)
    requires k > 0.0 && q * k == d
    ensures q < 1.0 <==> d < k
  {
    assert (1.0 - q) * k == k - d && (q - 1.0) * k == d - k;
    if q < 1.0 {
      SignOfProduct(1.0 - q, k);
    } else {
      SignOfProduct(q - 1.0, k);
    }
  }

  lemma ShareLeft(d: nat, length: nat)
    requires length > 0
    ensures MaxReal(0.0, 1.0 - d as real / length as real) > 0.0 <==> d < length
  {
    BelowOne(d as real / length as real, length as real, d as real);
  }

  lemma SignOfProduct(x: real, y: real)
    requires y > 0.0
    ensures x >= 0.0 ==> x * y >= 0.0
    ensures x > 0.0 ==> x * y > 0.0
  {
  }

  /** The widths at which a phrase is looked for. */
  predicate Width(th: Thresholds, p: Phrase, w: int) {
    w >= 1 && if p.anchor == Brand then w <= th.brandSpan else |p.tokens| - 1 <= w <= |p.tokens| + 1
  }

  lemma WidthIs(th: Thresholds, p: Phrase, n: nat, since: nat, s: int, e: int)
    requires p.tokens != []
    ensures Scored(th, p, n, since, s, e) <==> Width(th, p, e - s) && 0 <= s && since < e <= n
  {
  }

  /** Everything a candidate says of itself is so. */
  ghost predicate Honest(c: Config, tokens: seq<Token>, since: nat, m: Match)
    requires AllSpeakable(c.phrases)
  {
    && m.phrase in c.phrases
    && m.start < m.end <= |tokens| && since < m.end && Width(c.th, m.phrase, m.end - m.start)
    && m.span == Join(tokens[m.start..m.end])
    && TaggedRightly(c.th, m) && ScoredRightly(c, m.phrase, tokens[m.start..m.end], m.score, m.how)
    && m.how != NoMatch
  }

  lemma TagsAreRight(c: Config, p: Phrase, m: Match)
    requires m.phrase == p && TagFor(c, p, m.score) == [m.tag]
    ensures TaggedRightly(c.th, m)
  {
  }

  /** A phrase has a tag to report a score with exactly when the score reaches its line. */
  lemma TagIff(c: Config, p: Phrase, score: real)
    ensures TagFor(c, p, score) != [] <==>
            score >= ReviewLine(c.th, p) && (p.tier == A || score >= KillLine(c.th, p))
  {
  }

  lemma CandidateIsHonest(c: Config, p: Phrase, tokens: seq<Token>, since: nat, m: Match)
    requires AllSpeakable(c.phrases) && p in c.phrases && m in CandidateOf(c, p, tokens, since)
    ensures Honest(c, tokens, since, m) && m.phrase == p
  {
    BestSpanIsBest(c, p, tokens, since);
    var b := BestSpan(c, p, tokens, since);
    WidthIs(c.th, p, |tokens|, since, b.start, b.end);
    TagsAreRight(c, p, m);
    ScoreMeans(c, p, tokens[b.start..b.end]);
  }

  lemma {:induction false} RawIsHonest(c: Config, tokens: seq<Token>, since: nat, n: nat, m: Match)
    requires AllSpeakable(c.phrases) && n <= |c.phrases| && m in Raw(c, tokens, since, n)
    ensures Honest(c, tokens, since, m)
    decreases n
  {
    if m in CandidateOf(c, c.phrases[n - 1], tokens, since) {
      CandidateIsHonest(c, c.phrases[n - 1], tokens, since, m);
    } else {
      RawIsHonest(c, tokens, since, n - 1, m);
    }
  }

  /** Of every candidate, and so of everything returned: its span, widths, tag and score are right. */
  lemma ReportsAreHonest(c: Config, tokens: seq<Token>, since: nat)
    requires AllSpeakable(c.phrases)
    ensures forall m :: m in Candidates(c, tokens, since) ==> Honest(c, tokens, since, m)
    ensures forall m :: m in Matches(c, tokens, since, false) ==> Honest(c, tokens, since, m) && m.phrase.tier != X
  {
    forall m | m in Candidates(c, tokens, since) ensures Honest(c, tokens, since, m) {
      RawIsHonest(c, tokens, since, |c.phrases|, m);
    }
    SelectionLaws(Candidates(c, tokens, since));
  }

  /** A woken phrase is reported with a score at least that of any span of its widths that reaches its line. */
  lemma NothingBetterIsMissed(c: Config, tokens: seq<Token>, since: nat, pos: nat, s: nat, e: nat) returns (m: Match)
    requires c.Valid() && pos < |c.phrases| && Woken(c, tokens, since, pos)
    requires s < e <= |tokens| && since < e && Width(c.th, c.phrases[pos], e - s)
    requires Speakable(c.phrases[pos]) && Score(c, c.phrases[pos], tokens[s..e]).1 != NoMatch
    requires var p, score := c.phrases[pos], Score(c, c.phrases[pos], tokens[s..e]).0;
             score >= ReviewLine(c.th, p) && (p.tier == A || score >= KillLine(c.th, p))
    ensures AllSpeakable(c.phrases)
    ensures m in Candidates(c, tokens, since) && m.phrase == c.phrases[pos]
    ensures m.score >= Score(c, c.phrases[pos], tokens[s..e]).0
  {
    var p := c.phrases[pos];
    LoadableIsSpeakable(c);
    BestSpanIsBest(c, p, tokens, since);
    WidthIs(c.th, p, |tokens|, since, s, e);
    var b := BestSpan(c, p, tokens, since);
    assert Beats(c, p, tokens, b, s, e);
    TagIff(c, p, Score(c, p, tokens[s..e]).0);
    TagIff(c, p, b.score);
    m := CandidateOf(c, p, tokens, since)[0];
    RawMembers(c, tokens, since, |c.phrases|, pos);
  }

  // ---- Which of them are returned ----

  predicate Covers(m: Match, i: int) {
    m.start <= i < m.end
  }

  ghost predicate ShareAToken(m: Match, o: Match) {
    exists i :: Covers(m, i) && Covers(o, i)
  }

  /** Higher score, then more words, then earlier, then the higher row of the corpus. */
  predicate GoesFirst(x: Match, y: Match) {
    if x.score != y.score then x.score > y.score
    else if x.end - x.start != y.end - y.start then x.end - x.start > y.end - y.start
    else if x.start != y.start then x.start < y.start
    else x.phrase.row <= y.phrase.row
  }

  lemma OverlapIsSharing(m: Match, o: Match)
    requires m.start < m.end && o.start < o.end
    ensures Overlap(m, o) <==> ShareAToken(m, o)
  {
    if Overlap(m, o) {
      var i := if m.start < o.start then o.start else m.start;
      assert Covers(m, i) && Covers(o, i);
    }
  }

  lemma FirstIsPreferred(x: Match, y: Match)
    ensures Preferred(x, y) <==> GoesFirst(x, y)
  {
  }

  /** Vetoed, in the words heard: a candidate of an exclusion phrase shares a token with it. */
  ghost predicate Excluded(c: Config, tokens: seq<Token>, since: nat, m: Match)
    requires AllSpeakable(c.phrases)
  {
    exists v :: v in Candidates(c, tokens, since) && v.phrase.tier == X && ShareAToken(m, v)
  }

  lemma VetoedIsExcluded(c: Config, tokens: seq<Token>, since: nat, m: Match)
    requires AllSpeakable(c.phrases) && m in Candidates(c, tokens, since)
    ensures Vetoed(Candidates(c, tokens, since), m) <==> Excluded(c, tokens, since, m)
  {
    ReportsAreHonest(c, tokens, since);
    forall v | v in Candidates(c, tokens, since) ensures Overlap(m, v) <==> ShareAToken(m, v) {
      OverlapIsSharing(m, v);
    }
    forall v | v in Candidates(c, tokens, since) ensures v.tag == TagX <==> v.phrase.tier == X {
    }
  }

  lemma ClashMeans(m: Match, o: Match)
    requires m.start < m.end && o.start < o.end
    ensures Clash(m, o) <==> ShareAToken(m, o) && m.phrase.category == o.phrase.category
  {
    OverlapIsSharing(m, o);
  }

  /**
   What one call returns, in the words heard: no exclusion and nothing sharing a token with one; no two matches of
   one category sharing a token; every other candidate missing only for one of its category that shares a token with
   it and goes first; and all in order of their starts, the higher score first where these are the same.
   */
  lemma WhatIsReturned(c: Config, tokens: seq<Token>, since: nat)
    requires AllSpeakable(c.phrases)
    ensures var r, all := Matches(c, tokens, since, false), Candidates(c, tokens, since);
            && (forall m :: m in r ==> m in all && m.phrase.tier != X && !Excluded(c, tokens, since, m))
            && (forall i, j :: 0 <= i < j < |r| && ShareAToken(r[j], r[i]) ==>
                                 r[j].phrase.category != r[i].phrase.category)
            && (forall m :: m in all && m.phrase.tier != X && !Excluded(c, tokens, since, m) && m !in r ==>
                  exists o :: o in r && ShareAToken(m, o) && m.phrase.category == o.phrase.category && GoesFirst(o, m))
            && (forall i, j :: 0 <= i < j < |r| ==>
                  r[i].start < r[j].start || (r[i].start == r[j].start && r[i].score >= r[j].score))
  {
    var r, all := Matches(c, tokens, since, false), Candidates(c, tokens, since);
    ReportsAreHonest(c, tokens, since);
    SelectionLaws(all);
    forall m | m in all ensures Vetoed(all, m) <==> Excluded(c, tokens, since, m) {
      VetoedIsExcluded(c, tokens, since, m);
    }
    forall i, j | 0 <= i < j < |r| && ShareAToken(r[j], r[i]) ensures r[j].phrase.category != r[i].phrase.category {
      ClashMeans(r[j], r[i]);
    }
    forall m | m in all && m.phrase.tier != X && !Excluded(c, tokens, since, m) && m !in r
      ensures exists o :: o in r && ShareAToken(m, o) && m.phrase.category == o.phrase.category && GoesFirst(o, m)
    {
      var o :| o in r && Clash(m, o) && Preferred(o, m);
      ClashMeans(m, o);
      FirstIsPreferred(o, m);
    }
  }
}
