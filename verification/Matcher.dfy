/** Scoring a transcript window against the corpus: candidates, the exclusion veto, overlap suppression. */
module Matcher {
  import opened Numbers
  import opened Corpus
  import opened Spans
  import EditDistance
  import Levenshtein

  datatype Thresholds = Thresholds(kill: real, review: real, pairKill: real, pairReview: real,
                                   editRatio: real, brandSpan: int)

  /** Reported tiers: a Tier A phrase below the kill line is only near. */
  datatype Tag = TagA | Near | TagB | TagC | TagX

  datatype Match = Match(phrase: Phrase, tag: Tag, score: real, start: nat, end: nat, span: string, how: How)

  datatype Config = Config(lex: Lexicon, th: Thresholds, phrases: seq<Phrase>, index: Index)
  {
    function KillFor(p: Phrase): real {
      if p.anchor == Pair then th.pairKill else th.kill
    }

    function ReviewFor(p: Phrase): real {
      if p.anchor == Pair then th.pairReview else th.review
    }

    ghost predicate Valid() {
      Loadable(phrases) && IndexOf(lex, phrases, index)
    }
  }

  function Join(tokens: seq<Token>): string {
    if tokens == [] then ""
    else if |tokens| == 1 then tokens[0]
    else Join(tokens[..|tokens| - 1]) + " " + tokens[|tokens| - 1]
  }

  lemma {:induction false} JoinNonempty(tokens: seq<Token>)
    requires tokens != [] && tokens[0] != ""
    ensures |Join(tokens)| > 0
  {
  }

  predicate Speakable(p: Phrase) {
    p.tokens != [] && p.tokens[0] != ""
  }

  // ---- One span against one phrase ----

  function Budget(th: Thresholds, target: string): nat {
    Max(1, Ceil(|target| as real * th.editRatio))
  }

  function EditScore(d: int, length: nat): real
    requires length > 0
  {
    MaxReal(0.0, 1.0 - d as real / length as real)
  }

  function SeqScore(th: Thresholds, p: Phrase, span: seq<Token>): (real, How)
    requires Speakable(p)
  {
    JoinNonempty(p.tokens);
    var target, cand := Join(p.tokens), Join(span);
    if cand == target then (1.0, Exact)
    else
      var d := EditDistance.Distance(target, cand);
      if d > Budget(th, target) then (0.0, NoMatch)
      else (EditScore(d, |target|), Edited)
  }

  predicate AllCommon(lex: Lexicon, tokens: seq<Token>) {
    tokens != [] && forall t :: t in tokens ==> t in lex.common
  }

  function BrandScore(c: Config, p: Phrase, span: seq<Token>): (real, How)
    requires Speakable(p)
  {
    var cand := Join(span);
    if cand == Join(p.tokens) then (1.0, Exact)
    else if AllCommon(c.lex, span) then (0.0, NoMatch)
    else if c.lex.soundsLike(cand, Join(p.tokens)) then (1.0, Phonetic)
    else
      var (s, how) := SeqScore(c.th, p, span);
      if how != NoMatch && s > 0.0 then (MinReal(s, c.ReviewFor(p) + 0.000000001), how) else (0.0, NoMatch)
  }

  function Score(c: Config, p: Phrase, span: seq<Token>): (real, How)
    requires Speakable(p)
  {
    if p.anchor == Brand then BrandScore(c, p, span) else SeqScore(c.th, p, span)
  }

  method ScoreSeq(th: Thresholds, p: Phrase, span: seq<Token>) returns (score: real, how: How)
    requires Speakable(p)
    ensures (score, how) == SeqScore(th, p, span)
  {
    JoinNonempty(p.tokens);
    var target, cand := Join(p.tokens), Join(span);
    if cand == target {
      return 1.0, Exact;
    }
    var budget := Budget(th, target);
    var d := Levenshtein.Levenshtein(target, cand, budget);
    if d > budget {
      return 0.0, NoMatch;
    }
    return EditScore(d, |target|), Edited;
  }

  method ScoreSpan(c: Config, p: Phrase, span: seq<Token>) returns (score: real, how: How)
    requires Speakable(p)
    ensures (score, how) == Score(c, p, span)
  {
    if p.anchor != Brand {
      score, how := ScoreSeq(c.th, p, span);
      return;
    }
    var cand := Join(span);
    if cand == Join(p.tokens) {
      return 1.0, Exact;
    }
    if AllCommon(c.lex, span) {
      return 0.0, NoMatch;
    }
    if c.lex.soundsLike(cand, Join(p.tokens)) {
      return 1.0, Phonetic;
    }
    score, how := ScoreSeq(c.th, p, span);
    if how != NoMatch && score > 0.0 {
      score := MinReal(score, c.ReviewFor(p) + 0.000000001);
    } else {
      score, how := 0.0, NoMatch;
    }
  }

  /** No span scores above 1, and a sequence phrase scores 1 only on its own text. */
  lemma ScoreAtMostOne(c: Config, p: Phrase, span: seq<Token>)
    requires Speakable(p)
    ensures Score(c, p, span).0 <= 1.0
    ensures Join(span) == Join(p.tokens) ==> Score(c, p, span) == (1.0, Exact)
    ensures p.anchor != Brand && Score(c, p, span).0 == 1.0 ==> Join(span) == Join(p.tokens)
  {
    JoinNonempty(p.tokens);
    var target, cand := Join(p.tokens), Join(span);
    var d := EditDistance.Distance(target, cand);
    EditDistance.DistanceZero(target, cand);
    assert d as real / |target| as real >= 0.0;
    if d > 0 {
      assert d as real / |target| as real > 0.0;
    }
  }

  // ---- The best span of one phrase ----

  function Narrowest(p: Phrase): (w: int)
    ensures w >= 1
  {
    if p.anchor == Brand then 1 else Max(1, |p.tokens| - 1)
  }

  function Widest(th: Thresholds, p: Phrase): int {
    if p.anchor == Brand then th.brandSpan else |p.tokens| + 1
  }

  /** The scores of a phrase's spans over one window; a span outside it is no match. */
  function SpanScores(c: Config, p: Phrase, tokens: seq<Token>): SpanScore
    requires Speakable(p)
  {
    (s, e) => if 0 <= s <= e <= |tokens| then Score(c, p, tokens[s..e]) else (0.0, NoMatch)
  }

  function BestSpan(c: Config, p: Phrase, tokens: seq<Token>, since: nat): Best
    requires Speakable(p)
  {
    UpToWidth(SpanScores(c, p, tokens), |tokens|, Narrowest(p), since, Widest(c.th, p) + 1)
  }

  /** `f` gives the scores of the phrase's spans over these tokens. */
  ghost predicate Gives(f: SpanScore, c: Config, p: Phrase, tokens: seq<Token>)
    requires Speakable(p)
  {
    forall s, e {:trigger Score(c, p, tokens[s..e])} ::
      0 <= s <= e <= |tokens| ==> f(s, e) == Score(c, p, tokens[s..e])
  }

  method ScoreAt(c: Config, p: Phrase, tokens: seq<Token>, start: nat, end: nat, ghost f: SpanScore)
      returns (score: real, how: How)
    requires Speakable(p) && start <= end <= |tokens| && Gives(f, c, p, tokens)
    ensures (score, how) == f(start, end)
  {
    score, how := ScoreSpan(c, p, tokens[start..end]);
  }

  method BestAtWidth(c: Config, p: Phrase, tokens: seq<Token>, since: nat, w: int, start: Best, ghost f: SpanScore)
      returns (best: Best)
    requires Speakable(p) && w >= 1 && Gives(f, c, p, tokens)
    ensures best == AtWidth(f, start, w, FirstStart(since, w), |tokens| - w + 1)
  {
    best := start;
    var s := FirstStart(since, w);
    while s < |tokens| - w + 1
      invariant s <= |tokens| - w + 1 || s == FirstStart(since, w)
      invariant s >= FirstStart(since, w)
      invariant best == AtWidth(f, start, w, FirstStart(since, w), s)
      decreases |tokens| - s
    {
      var score, how := ScoreAt(c, p, tokens, s, s + w, f);
      if how != NoMatch && (best == NoBest || score > best.score) {
        best := Best(score, s, s + w, how);
      }
      s := s + 1;
    }
  }

  /** The loops over widths and starts. */
  method Search(c: Config, p: Phrase, tokens: seq<Token>, since: nat, ghost f: SpanScore) returns (best: Best)
    requires Speakable(p) && Gives(f, c, p, tokens)
    ensures best == UpToWidth(f, |tokens|, Narrowest(p), since, Widest(c.th, p) + 1)
  {
    best := NoBest;
    var w := Narrowest(p);
    while w <= Widest(c.th, p)
      invariant w >= Narrowest(p) && (w <= Widest(c.th, p) + 1 || w == Narrowest(p))
      invariant best == UpToWidth(f, |tokens|, Narrowest(p), since, w)
      decreases Widest(c.th, p) - w
    {
      best := BestAtWidth(c, p, tokens, since, w, best, f);
      w := w + 1;
    }
  }

  method FindBest(c: Config, p: Phrase, tokens: seq<Token>, since: nat) returns (best: Best)
    requires Speakable(p)
    ensures best == BestSpan(c, p, tokens, since)
  {
    best := Search(c, p, tokens, since, SpanScores(c, p, tokens));
  }

  // ---- What the best span is ----

  /** The spans one call scores for a woken phrase: every admissible width, ending after `since`. */
  predicate Scored(th: Thresholds, p: Phrase, n: nat, since: nat, start: int, end: int) {
    Narrowest(p) <= end - start <= Widest(th, p) && 0 <= start && since < end <= n
  }

  /** `b` is at least as good as the span: higher, or as high and not after it in scan order. */
  ghost predicate Beats(c: Config, p: Phrase, tokens: seq<Token>, b: Best, start: int, end: int)
    requires Speakable(p)
  {
    Tops(SpanScores(c, p, tokens), b, start, end)
  }

  /** `b` is a genuine candidate: the score of the span it names. */
  ghost predicate Genuine(c: Config, p: Phrase, tokens: seq<Token>, b: Best)
    requires Speakable(p)
  {
    Found(SpanScores(c, p, tokens), |tokens|, b)
  }

  /** For any scoring of spans: what the search ends with is one of the spans scored. */
  lemma SearchIsGenuine(th: Thresholds, p: Phrase, f: SpanScore, n: nat, since: nat, r: Best)
    requires p.tokens != [] && r == UpToWidth(f, n, Narrowest(p), since, Widest(th, p) + 1)
    ensures Found(f, n, r) && (r.Best? ==> Scored(th, p, n, since, r.start, r.end))
  {
    if Widest(th, p) + 1 >= Narrowest(p) {
      UpToWidthFound(f, n, Narrowest(p), since, Widest(th, p) + 1);
    }
  }

  lemma BestSpanIsGenuine(c: Config, p: Phrase, tokens: seq<Token>, since: nat)
    requires Speakable(p)
    ensures var r := BestSpan(c, p, tokens, since);
            Genuine(c, p, tokens, r) && (r.Best? ==> Scored(c.th, p, |tokens|, since, r.start, r.end))
  {
    SearchIsGenuine(c.th, p, SpanScores(c, p, tokens), |tokens|, since, BestSpan(c, p, tokens, since));
  }

  lemma BestSpanBeats(c: Config, p: Phrase, tokens: seq<Token>, since: nat, s: int, e: int)
    requires Speakable(p) && Scored(c.th, p, |tokens|, since, s, e)
    ensures Beats(c, p, tokens, BestSpan(c, p, tokens, since), s, e)
  {
    UpToWidthTops(SpanScores(c, p, tokens), |tokens|, Narrowest(p), since, Widest(c.th, p) + 1, s, e);
  }

  /**
   The chosen span is one that is scored, its score is the highest of all scored spans, and no scored
   span of the same score comes before it in scan order; there is none only if no scored span matches.
   */
  lemma BestSpanIsBest(c: Config, p: Phrase, tokens: seq<Token>, since: nat)
    requires Speakable(p)
    ensures var r := BestSpan(c, p, tokens, since);
            && Genuine(c, p, tokens, r)
            && (r.Best? ==> Scored(c.th, p, |tokens|, since, r.start, r.end))
            && (forall s, e :: Scored(c.th, p, |tokens|, since, s, e) ==> Beats(c, p, tokens, r, s, e))
  {
    BestSpanIsGenuine(c, p, tokens, since);
    forall s, e | Scored(c.th, p, |tokens|, since, s, e)
      ensures Beats(c, p, tokens, BestSpan(c, p, tokens, since), s, e)
    {
      BestSpanBeats(c, p, tokens, since, s, e);
    }
  }

  // ---- From candidates to reported matches ----

  /** The reported tier of a phrase whose best span scores `score`, if it is reported at all. */
  function TagFor(c: Config, p: Phrase, score: real): (tag: seq<Tag>) {
    if score < c.ReviewFor(p) then []
    else
      match p.tier
      case A => [if score >= c.KillFor(p) then TagA else Near]
      case B => if score < c.KillFor(p) then [] else [TagB]
      case C => if score < c.KillFor(p) then [] else [TagC]
      case X => if score < c.KillFor(p) then [] else [TagX]
  }

  function CandidateOf(c: Config, p: Phrase, tokens: seq<Token>, since: nat): seq<Match>
    requires Speakable(p)
  {
    BestSpanIsBest(c, p, tokens, since);
    match BestSpan(c, p, tokens, since)
    case NoBest => []
    case Best(score, start, end, how) =>
      if TagFor(c, p, score) == [] then []
      else [Match(p, TagFor(c, p, score)[0], score, start, end, Join(tokens[start..end]), how)]
  }
}
