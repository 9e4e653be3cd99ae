/** One call's rolling transcript window, its duplicate guard, and the Tier B scorer that reads it. */
module CallWindows {
  import opened Common
  import opened Numbers
  import opened Corpus
  import opened Matcher

  /** An absolute span of the call's token history: start inclusive, end exclusive. */
  datatype Span = Span(start: nat, end: nat)

  datatype Hit = Hit(ts: real, tag: Tag, category: string)

  /** What the scorer counts: a category, or the one pseudo-category of near misses. */
  type Signal = string

  const NEAR_MISS: Signal := "A-near"

  predicate Apart(x: Span, y: Span) {
    x.end <= y.start || y.end <= x.start
  }

  predicate Sorted(times: seq<real>) {
    forall i, j :: 0 <= i < j < |times| ==> times[i] <= times[j]
  }

  /** Where bisection between `lo` and `hi` ends, in order or not. */
  function Bisected(times: seq<real>, cutoff: real, lo: nat, hi: nat): (n: nat)
    requires lo <= hi <= |times|
    ensures lo <= n <= hi
    decreases hi - lo
  {
    if lo == hi then lo
    else
      var mid := (lo + hi) / 2;
      if times[mid] < cutoff then Bisected(times, cutoff, mid + 1, hi) else Bisected(times, cutoff, lo, mid)
  }

  predicate OlderBefore(times: seq<real>, cutoff: real, n: nat)
    requires n <= |times|
  {
    forall i :: 0 <= i < n ==> times[i] < cutoff
  }

  predicate NoneOlderFrom(times: seq<real>, cutoff: real, n: nat) {
    forall i :: n <= i < |times| ==> times[i] >= cutoff
  }

  lemma MiddleParts(times: seq<real>, cutoff: real, mid: nat)
    requires Sorted(times) && mid < |times|
    ensures if times[mid] < cutoff then OlderBefore(times, cutoff, mid + 1) else NoneOlderFrom(times, cutoff, mid)
  {
  }

  /** Over times in order, bisection parts what is older than the cutoff from what is not. */
  lemma {:induction false} BisectionParts(times: seq<real>, cutoff: real, lo: nat, hi: nat)
    requires Sorted(times) && lo <= hi <= |times|
    requires OlderBefore(times, cutoff, lo) && NoneOlderFrom(times, cutoff, hi)
    ensures var n := Bisected(times, cutoff, lo, hi);
            OlderBefore(times, cutoff, n) && NoneOlderFrom(times, cutoff, n)
    decreases hi - lo
  {
    if lo < hi {
      var mid := (lo + hi) / 2;
      MiddleParts(times, cutoff, mid);
      if times[mid] < cutoff {
        BisectionParts(times, cutoff, mid + 1, hi);
      } else {
        BisectionParts(times, cutoff, lo, mid);
      }
    }
  }

  method BisectLeft(times: seq<real>, cutoff: real) returns (n: nat)
    ensures n == Bisected(times, cutoff, 0, |times|)
  {
    var lo, hi := 0, |times|;
    while lo < hi
      invariant 0 <= lo <= hi <= |times|
      invariant Bisected(times, cutoff, 0, |times|) == Bisected(times, cutoff, lo, hi)
    {
      var mid := (lo + hi) / 2;
      if times[mid] < cutoff {
        lo := mid + 1;
      } else {
        hi := mid;
      }
    }
    return lo;
  }

  function SignalsOf(h: Hit): set<Signal> {
    {h.category} + if h.tag == Near then {NEAR_MISS} else {}
  }

  /** Every signal some hit in the window still carries. */
  function Live(hits: seq<Hit>): set<Signal> {
    if hits == [] then {} else Live(hits[..|hits| - 1]) + SignalsOf(hits[|hits| - 1])
  }

  function Recent(hits: seq<Hit>, cutoff: real): seq<Hit> {
    if hits == [] then []
    else Recent(hits[..|hits| - 1], cutoff) + if hits[|hits| - 1].ts >= cutoff then [hits[|hits| - 1]] else []
  }

  lemma {:induction false} LiveShrinks(hits: seq<Hit>, cutoff: real)
    ensures Live(Recent(hits, cutoff)) <= Live(hits)
    decreases |hits|
  {
    if hits != [] {
      var front, last := hits[..|hits| - 1], hits[|hits| - 1];
      LiveShrinks(front, cutoff);
      if last.ts >= cutoff {
        assert Recent(hits, cutoff)[..|Recent(hits, cutoff)| - 1] == Recent(front, cutoff);
      } else {
        assert Recent(hits, cutoff) == Recent(front, cutoff);
      }
    }
  }

  function StillInside(spans: seq<Span>, dropped: nat): seq<Span> {
    if spans == [] then []
    else
      StillInside(spans[..|spans| - 1], dropped)
      + if spans[|spans| - 1].end > dropped then [spans[|spans| - 1]] else []
  }

  lemma {:induction false} StillInsideMembers(spans: seq<Span>, dropped: nat)
    ensures forall x :: x in StillInside(spans, dropped) <==> x in spans && x.end > dropped
    decreases |spans|
  {
    if spans != [] {
      StillInsideMembers(spans[..|spans| - 1], dropped);
      assert spans == spans[..|spans| - 1] + [spans[|spans| - 1]];
    }
  }

  type SpanTable = map<nat, seq<Span>>

  function SpansOf(table: SpanTable, row: nat): seq<Span> {
    if row in table then table[row] else []
  }

  function With(table: SpanTable, row: nat, x: Span): (r: SpanTable)
    ensures SpansOf(r, row) == SpansOf(table, row) + [x]
    ensures forall other :: other != row ==> SpansOf(r, other) == SpansOf(table, other)
  {
    table[row := SpansOf(table, row) + [x]]
  }

  /** The table without the spans that ended behind the window. */
  function Trimmed(table: SpanTable, dropped: nat): (r: SpanTable)
    ensures forall row :: SpansOf(r, row) == StillInside(SpansOf(table, row), dropped)
  {
    map row | row in table && StillInside(table[row], dropped) != [] :: StillInside(table[row], dropped)
  }

  predicate OverlapsNone(spans: seq<Span>, x: Span) {
    forall y :: y in spans ==> Apart(y, x)
  }

  /** The fields of one call's window. */
  datatype Window = Window(tokens: seq<Token>, times: seq<real>, dropped: nat, hits: seq<Hit>, reported: SpanTable,
                           fired: set<Signal>, bEvents: nat)

  /** The window's span in seconds and its cap on tokens. */
  datatype Limits = Limits(seconds: real, maxTokens: nat)

  const Empty := Window([], [], 0, [], map[], {}, 0)

  predicate Shaped(w: Window) {
    |w.tokens| == |w.times|
  }

  /** Tokens to let go of: those bisection finds too old, or however many put the window over its cap. */
  function Leaving(l: Limits, times: seq<real>, now: real): (keep: nat)
    ensures keep <= |times|
  {
    Max(Bisected(times, now - l.seconds, 0, |times|), |times| - l.maxTokens)
  }

  function Shortened(w: Window, keep: nat): (r: Window)
    requires Shaped(w) && keep <= |w.tokens|
    ensures Shaped(r)
  {
    if keep == 0 then w
    else w.(tokens := w.tokens[keep..], times := w.times[keep..], dropped := w.dropped + keep,
            reported := Trimmed(w.reported, w.dropped + keep))
  }

  /** Only recent hits count, and only signals that some recent hit carries stay fired. */
  function Aged(w: Window, cutoff: real): Window {
    w.(hits := Recent(w.hits, cutoff), fired := w.fired * Live(Recent(w.hits, cutoff)))
  }

  function Evicted(l: Limits, w: Window, now: real): (r: Window)
    requires Shaped(w)
    ensures Shaped(r)
  {
    Aged(Shortened(w, Leaving(l, w.times, now)), now - l.seconds)
  }

  function Heard(w: Window, more: seq<Token>, now: real): (r: Window)
    requires Shaped(w)
    ensures Shaped(r)
  {
    w.(tokens := w.tokens + more, times := w.times + Repeat(now, |more|))
  }

  function Added(l: Limits, w: Window, more: seq<Token>, now: real): (r: Window)
    requires Shaped(w)
    ensures Shaped(r)
  {
    if more == [] then w else Evicted(l, Heard(w, more, now), now)
  }

  function SpanAt(w: Window, start: nat, end: nat): Span {
    Span(w.dropped + start, w.dropped + end)
  }

  function Accepted(w: Window, row: nat, x: Span): Window {
    if OverlapsNone(SpansOf(w.reported, row), x) then w.(reported := With(w.reported, row, x)) else w
  }

  function Recorded(w: Window, h: Hit): Window {
    w.(hits := w.hits + [h])
  }

  /** Forget spans that ended behind the window. */
  method Forget(table: SpanTable, dropped: nat) returns (r: SpanTable)
    ensures r == Trimmed(table, dropped)
  {
    r := table;
    var todo := table.Keys;
    while todo != {}
      invariant todo <= table.Keys
      invariant forall row :: row in r <==> row in table && (row in todo || StillInside(table[row], dropped) != [])
      invariant forall row :: row in r ==>
                  r[row] == if row in todo then table[row] else StillInside(table[row], dropped)
      decreases todo
    {
      var row :| row in todo;
      var spans := StillInside(table[row], dropped);
      if spans != [] {
        r := r[row := spans];
      } else {
        r := r - {row};
      }
      todo := todo - {row};
    }
  }

  class CallWindow {
    const limits: Limits
    var tokens: seq<Token>
    var times: seq<real>
    var dropped: nat
    var hits: seq<Hit>
    var reported: SpanTable
    var fired: set<Signal>
    var bEvents: nat

    function Contents(): Window
      reads this
    {
      Window(tokens, times, dropped, hits, reported, fired, bEvents)
    }

    constructor (limits: Limits)
      ensures Contents() == Empty && this.limits == limits
    {
      this.limits := limits;
      tokens, times, dropped, hits, reported, fired, bEvents := [], [], 0, [], map[], {}, 0;
    }

    method CountLeaving(now: real) returns (keep: nat)
      requires Shaped(Contents())
      ensures keep == Leaving(limits, times, now)
    {
      keep := BisectLeft(times, now - limits.seconds);
      if |tokens| - keep > limits.maxTokens {
        keep := |tokens| - limits.maxTokens;
      }
    }

    method DropTokens(keep: nat)
      requires Shaped(Contents()) && keep <= |tokens|
      modifies this`tokens, this`times, this`dropped, this`reported
      ensures Contents() == Shortened(old(Contents()), keep)
    {
      if keep > 0 {
        tokens := tokens[keep..];
        times := times[keep..];
        dropped := dropped + keep;
        reported := Forget(reported, dropped);
      }
    }

    method DropHits(cutoff: real)
      modifies this`hits, this`fired
      ensures Contents() == Aged(old(Contents()), cutoff)
    {
      hits := Recent(hits, cutoff);
      fired := fired * Live(hits);
    }

    /** Let go of what has left the window: tokens, spans, hits, and the signals no remaining hit carries. */
    method Evict(now: real)
      requires Shaped(Contents())
      modifies this
      ensures Contents() == Evicted(limits, old(Contents()), now)
    {
      var keep := CountLeaving(now);
      DropTokens(keep);
      DropHits(now - limits.seconds);
    }

    /** Append recognised tokens; returns the index of the first new one still in the window. */
    method Add(more: seq<Token>, now: real) returns (first: nat)
      requires Shaped(Contents())
      modifies this
      ensures Contents() == Added(limits, old(Contents()), more, now)
      ensures first == Max(0, old(|tokens|) - (dropped - old(dropped)))
    {
      first := |tokens|;
      if more == [] {
        return;
      }
      tokens := tokens + more;
      times := times + Repeat(now, |more|);
      var before := dropped;
      Evict(now);
      first := Max(0, first - (dropped - before));
    }

    /** Whether the phrase has no remembered span on any of these words; if so, this one is remembered. */
    method Accept(row: nat, start: nat, end: nat) returns (isNew: bool)
      requires start < end <= |tokens|
      modifies this`reported
      ensures isNew <==> OverlapsNone(SpansOf(old(reported), row), SpanAt(Contents(), start, end))
      ensures Contents() == Accepted(old(Contents()), row, SpanAt(Contents(), start, end))
    {
      var x := SpanAt(Contents(), start, end);
      var spans := SpansOf(reported, row);
      for k := 0 to |spans|
        invariant forall j :: 0 <= j < k ==> Apart(spans[j], x)
      {
        if spans[k].start < x.end && x.start < spans[k].end {
          assert spans[k] in spans && !Apart(spans[k], x);
          return false;
        }
      }
      reported := With(reported, row, x);
      return true;
    }

    /** Note a match in the window. */
    method Record(tag: Tag, category: string, now: real)
      modifies this`hits
      ensures Contents() == Recorded(old(Contents()), Hit(now, tag, category))
    {
      hits := hits + [Hit(now, tag, category)];
    }
  }
}
