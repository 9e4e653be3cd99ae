/** The search for the best-scoring span: every width in turn, every start at that width, the first best kept. */
module Spans {
  import opened Numbers

  /** How a span came to its score. */
  datatype How = NoMatch | Exact | Edited | Phonetic

  datatype Best = NoBest | Best(score: real, start: nat, end: nat, how: How)

  /** What the span from a start to an end scores. */
  type SpanScore = (int, int) -> (real, How)

  /** Keep the earlier candidate unless the later one scores strictly higher. */
  function Better(b: Best, score: real, how: How, start: nat, end: nat): Best {
    if how == NoMatch then b
    else if b == NoBest || score > b.score then Best(score, start, end, how)
    else b
  }

  function FirstStart(since: nat, w: int): (s: int)
    ensures s >= 0
  {
    Max(0, since - w + 1)
  }

  /** All starts from `lo` to below `hi` at one width, folded into `b`. */
  function AtWidth(f: SpanScore, b: Best, w: int, lo: int, hi: int): Best
    requires w >= 1 && lo >= 0
    decreases hi - lo
  {
    if hi <= lo then b
    else
      var (score, how) := f(hi - 1, hi - 1 + w);
      Better(AtWidth(f, b, w, lo, hi - 1), score, how, hi - 1, hi - 1 + w)
  }

  /** All widths from `least` to below `w`, over `n` tokens, for spans that end after `since`. */
  function UpToWidth(f: SpanScore, n: nat, least: int, since: nat, w: int): Best
    requires least >= 1
    decreases w - least
  {
    if w <= least then NoBest
    else AtWidth(f, UpToWidth(f, n, least, since, w - 1), w - 1, FirstStart(since, w - 1), n - (w - 1) + 1)
  }

  /** Scan order: narrower first, then earlier. */
  predicate Earlier(s0: int, e0: int, s1: int, e1: int) {
    e0 - s0 < e1 - s1 || (e0 - s0 == e1 - s1 && s0 < s1)
  }

  /** `b` is at least as good as the span: higher, or as high and not after it in scan order. */
  ghost predicate Tops(f: SpanScore, b: Best, start: int, end: int) {
    var (score, how) := f(start, end);
    how == NoMatch || (b.Best? && (b.score > score || (b.score == score && !Earlier(start, end, b.start, b.end))))
  }

  /** `b` is a genuine candidate: the score of the span it names, one of `n` tokens. */
  ghost predicate Found(f: SpanScore, n: nat, b: Best) {
    b.Best? ==> b.start < b.end <= n && b.how != NoMatch && f(b.start, b.end) == (b.score, b.how)
  }

  /** Folding in a span that comes later in scan order leaves a genuine best that tops it. */
  lemma BetterTopsNew(f: SpanScore, n: nat, b: Best, start: nat, end: nat)
    requires start < end <= n && Found(f, n, b) && (b.Best? ==> Earlier(b.start, b.end, start, end))
    ensures var (score, how) := f(start, end);
            var r := Better(b, score, how, start, end);
            && Found(f, n, r) && Tops(f, r, start, end)
            && (r == b || (r.Best? && r.start == start && r.end == end))
  {
  }

  lemma BetterTopsOld(f: SpanScore, b: Best, score: real, how: How, start: nat, end: nat, s: int, e: int)
    requires Tops(f, b, s, e)
    ensures Tops(f, Better(b, score, how, start, end), s, e)
  {
  }

  lemma {:induction false} AtWidthFound(f: SpanScore, n: nat, b: Best, w: int, lo: int, hi: int)
    requires w >= 1 && lo >= 0 && (hi <= lo || hi + w <= n + 1)
    requires Found(f, n, b) && (b.Best? ==> b.end - b.start < w)
    ensures var r := AtWidth(f, b, w, lo, hi);
            Found(f, n, r) && (r == b || (r.Best? && r.end - r.start == w && lo <= r.start < hi))
    decreases hi - lo
  {
    if hi > lo {
      AtWidthFound(f, n, b, w, lo, hi - 1);
      BetterTopsNew(f, n, AtWidth(f, b, w, lo, hi - 1), hi - 1, hi - 1 + w);
    }
  }

  lemma {:induction false} AtWidthTopsOld(f: SpanScore, b: Best, w: int, lo: int, hi: int, s: int, e: int)
    requires w >= 1 && lo >= 0 && Tops(f, b, s, e)
    ensures Tops(f, AtWidth(f, b, w, lo, hi), s, e)
    decreases hi - lo
  {
    if hi > lo {
      AtWidthTopsOld(f, b, w, lo, hi - 1, s, e);
      var (score, how) := f(hi - 1, hi - 1 + w);
      BetterTopsOld(f, AtWidth(f, b, w, lo, hi - 1), score, how, hi - 1, hi - 1 + w, s, e);
    }
  }

  lemma {:induction false} AtWidthTopsNew(f: SpanScore, n: nat, b: Best, w: int, lo: int, hi: int, s: int)
    requires w >= 1 && lo >= 0 && hi + w <= n + 1 && lo <= s < hi
    requires Found(f, n, b) && (b.Best? ==> b.end - b.start < w)
    ensures Tops(f, AtWidth(f, b, w, lo, hi), s, s + w)
    decreases hi - lo
  {
    var before := AtWidth(f, b, w, lo, hi - 1);
    if s < hi - 1 {
      AtWidthTopsNew(f, n, b, w, lo, hi - 1, s);
      var (score, how) := f(hi - 1, hi - 1 + w);
      BetterTopsOld(f, before, score, how, hi - 1, hi - 1 + w, s, s + w);
    } else {
      AtWidthFound(f, n, b, w, lo, hi - 1);
      BetterTopsNew(f, n, before, hi - 1, hi - 1 + w);
    }
  }

  lemma {:induction false} UpToWidthFound(f: SpanScore, n: nat, least: int, since: nat, w: int)
    requires 1 <= least <= w
    ensures var r := UpToWidth(f, n, least, since, w);
            Found(f, n, r) && (r.Best? ==> least <= r.end - r.start < w && r.end > since)
    decreases w
  {
    if w > least {
      UpToWidthFound(f, n, least, since, w - 1);
      AtWidthFound(f, n, UpToWidth(f, n, least, since, w - 1), w - 1, FirstStart(since, w - 1), n - (w - 1) + 1);
    }
  }

  /** The best over all widths tops every span of those widths that ends after `since`. */
  lemma {:induction false} UpToWidthTops(f: SpanScore, n: nat, least: int, since: nat, w: int, s: nat, e: nat)
    requires 1 <= least <= e - s < w && since < e <= n
    ensures Tops(f, UpToWidth(f, n, least, since, w), s, e)
    decreases w
  {
    var b := UpToWidth(f, n, least, since, w - 1);
    var lo, hi := FirstStart(since, w - 1), n - (w - 1) + 1;
    if e - s < w - 1 {
      UpToWidthTops(f, n, least, since, w - 1, s, e);
      AtWidthTopsOld(f, b, w - 1, lo, hi, s, e);
    } else {
      UpToWidthFound(f, n, least, since, w - 1);
      AtWidthTopsNew(f, n, b, w - 1, lo, hi, s);
    }
  }
}
