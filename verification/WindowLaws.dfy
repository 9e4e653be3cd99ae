/** What the window holds after words are heard: exactly what arrived within its seconds, and no more than its cap. */
module WindowLaws {
  import opened Common
  import opened Numbers
  import opened Corpus
  import opened CallWindows
  import opened Scorer
  import opened CallRuns

  /** When each token of a call's history arrived. */
  function Arrivals(ops: seq<Op>): seq<real> {
    if ops == [] then []
    else
      var last := ops[|ops| - 1];
      Arrivals(ops[..|ops| - 1]) + if last.Say? then Repeat(last.now, |last.more|) else []
  }

  /** Every hit noted in the call. */
  function Noted(ops: seq<Op>): seq<Hit> {
    if ops == [] then []
    else
      var last := ops[|ops| - 1];
      Noted(ops[..|ops| - 1]) + if last.Note? then [last.hit] else []
  }

  predicate HearsWords(op: Op) {
    op.Say? && op.more != []
  }

  /** When words were last heard. */
  function Clock(ops: seq<Op>): Option<real> {
    if ops == [] then None
    else if HearsWords(ops[|ops| - 1]) then Some(ops[|ops| - 1].now)
    else Clock(ops[..|ops| - 1])
  }

  /** Words are heard at nondecreasing times. */
  predicate InOrder(ops: seq<Op>) {
    ops == []
    || (var front, last := ops[..|ops| - 1], ops[|ops| - 1];
        InOrder(front) && (HearsWords(last) && Clock(front).Some? ==> Clock(front).value <= last.now))
  }

  /** Arrival times in order, none after the clock. */
  ghost predicate Ticking(arrivals: seq<real>, clock: Option<real>) {
    && Sorted(arrivals)
    && (clock.None? ==> arrivals == [])
    && (clock.Some? ==> forall i :: 0 <= i < |arrivals| ==> arrivals[i] <= clock.value)
  }

  /** The window's times are the arrivals from `dropped` on; whatever has gone was too old or too much by the clock. */
  ghost predicate Kept(l: Limits, w: Window, arrivals: seq<real>, clock: Option<real>) {
    && Shaped(w) && w.dropped <= |arrivals| && w.times == arrivals[w.dropped..]
    && forall i :: 0 <= i < w.dropped ==>
                     i < |arrivals| - l.maxTokens || (clock.Some? && arrivals[i] < clock.value - l.seconds)
  }

  lemma MoreTicks(arrivals: seq<real>, clock: Option<real>, now: real, n: nat)
    requires Ticking(arrivals, clock) && n > 0 && (clock.Some? ==> clock.value <= now)
    ensures Ticking(arrivals + Repeat(now, n), Some(now))
  {
  }

  lemma HeardIsKept(l: Limits, w: Window, arrivals: seq<real>, clock: Option<real>, more: seq<Token>, now: real)
    requires Kept(l, w, arrivals, clock) && (clock.Some? ==> clock.value <= now)
    ensures Kept(l, Heard(w, more, now), arrivals + Repeat(now, |more|), Some(now))
  {
    var grown := arrivals + Repeat(now, |more|);
    assert grown[w.dropped..] == arrivals[w.dropped..] + Repeat(now, |more|);
  }

  /** Of the tokens still held, those let go are exactly the ones too old or too many. */
  lemma LeavingIs(l: Limits, times: seq<real>, now: real, i: nat)
    requires Sorted(times) && i < |times|
    ensures i < Leaving(l, times, now) <==> times[i] < now - l.seconds || i < |times| - l.maxTokens
  {
    BisectionParts(times, now - l.seconds, 0, |times|);
  }

  /** The tokens in the window after an eviction: those in time and among the newest. */
  ghost predicate Exact(l: Limits, dropped: nat, arrivals: seq<real>, now: real) {
    forall i: nat :: i < |arrivals| ==>
                       (i >= dropped <==> arrivals[i] >= now - l.seconds && i >= |arrivals| - l.maxTokens)
  }

  lemma EvictionIsExact(l: Limits, w: Window, arrivals: seq<real>, now: real)
    requires Kept(l, w, arrivals, Some(now)) && Sorted(arrivals)
    ensures Exact(l, Evicted(l, w, now).dropped, arrivals, now)
    ensures Kept(l, Evicted(l, w, now), arrivals, Some(now))
  {
    var keep := Leaving(l, w.times, now);
    var v := Evicted(l, w, now);
    assert Sorted(w.times) && v.dropped == w.dropped + keep;
    forall i: nat | i < |arrivals|
      ensures i >= v.dropped <==> arrivals[i] >= now - l.seconds && i >= |arrivals| - l.maxTokens
    {
      if i >= w.dropped {
        LeavingIs(l, w.times, now, i - w.dropped);
      }
    }
    assert v.times == arrivals[v.dropped..];
  }

  // ---- Hits ----

  /** Inside the window's seconds the window's hits are all the hits noted. */
  ghost predicate HitsKept(hits: seq<Hit>, noted: seq<Hit>, cutoff: real) {
    forall late :: late >= cutoff ==> Recent(hits, late) == Recent(noted, late)
  }

  lemma RecentGrows(hits: seq<Hit>, h: Hit, cutoff: real)
    ensures Recent(hits + [h], cutoff) == Recent(hits, cutoff) + if h.ts >= cutoff then [h] else []
  {
    assert (hits + [h])[..|hits|] == hits;
  }

  lemma {:induction false} RecentTwice(hits: seq<Hit>, early: real, late: real)
    requires early <= late
    ensures Recent(Recent(hits, early), late) == Recent(hits, late)
    decreases |hits|
  {
    if hits != [] {
      var front, last := hits[..|hits| - 1], hits[|hits| - 1];
      assert hits == front + [last];
      RecentTwice(front, early, late);
      RecentGrows(front, last, early);
      RecentGrows(front, last, late);
      if last.ts >= early {
        RecentGrows(Recent(front, early), last, late);
      } else {
        assert Recent(hits, early) == Recent(front, early) && Recent(hits, late) == Recent(front, late);
      }
    }
  }

  /** The recent hits are those noted at or after the cutoff, each as often as it was noted. */
  lemma {:induction false} RecentAre(hits: seq<Hit>, cutoff: real, h: Hit)
    ensures multiset(Recent(hits, cutoff))[h] == if h.ts >= cutoff then multiset(hits)[h] else 0
    decreases |hits|
  {
    if hits != [] {
      RecentAre(hits[..|hits| - 1], cutoff, h);
      assert hits == hits[..|hits| - 1] + [hits[|hits| - 1]];
    }
  }

  lemma HitsAfterEviction(hits: seq<Hit>, noted: seq<Hit>, early: real, cutoff: real)
    requires HitsKept(hits, noted, early) && early <= cutoff
    ensures Recent(hits, cutoff) == Recent(noted, cutoff) && HitsKept(Recent(hits, cutoff), noted, cutoff)
  {
    forall late | late >= cutoff ensures Recent(Recent(hits, cutoff), late) == Recent(noted, late) {
      RecentTwice(hits, cutoff, late);
    }
  }

  lemma HitsAfterNote(hits: seq<Hit>, noted: seq<Hit>, h: Hit, cutoff: real)
    requires HitsKept(hits, noted, cutoff)
    ensures HitsKept(hits + [h], noted + [h], cutoff)
  {
    forall late | late >= cutoff ensures Recent(hits + [h], late) == Recent(noted + [h], late) {
      RecentGrows(hits, h, late);
      RecentGrows(noted, h, late);
    }
  }

  // ---- Whole calls ----

  ghost predicate HitsOk(l: Limits, hits: seq<Hit>, noted: seq<Hit>, clock: Option<real>) {
    if clock.None? then hits == noted else HitsKept(hits, noted, clock.value - l.seconds)
  }

  ghost predicate TokensOk(l: Limits, w: Window, arrivals: seq<real>, clock: Option<real>) {
    Ticking(arrivals, clock) && Kept(l, w, arrivals, clock)
  }

  lemma SayKeepsHits(l: Limits, hits: seq<Hit>, noted: seq<Hit>, clock: Option<real>, now: real, cutoff: real)
    requires HitsOk(l, hits, noted, clock) && (clock.Some? ==> clock.value <= now) && cutoff == now - l.seconds
    ensures Recent(hits, cutoff) == Recent(noted, cutoff) && HitsKept(Recent(hits, cutoff), noted, cutoff)
  {
    HitsAfterEviction(hits, noted, if clock.Some? then clock.value - l.seconds else cutoff, cutoff);
  }

  lemma EvictedHits(l: Limits, w: Window, now: real)
    requires Shaped(w)
    ensures Evicted(l, w, now).hits == Recent(w.hits, now - l.seconds)
  {
  }

  lemma SayKeepsTokens(l: Limits, w: Window, arrivals: seq<real>, clock: Option<real>, more: seq<Token>, now: real)
    requires TokensOk(l, w, arrivals, clock) && more != [] && (clock.Some? ==> clock.value <= now)
    ensures var v, grown := Added(l, w, more, now), arrivals + Repeat(now, |more|);
            TokensOk(l, v, grown, Some(now)) && Exact(l, v.dropped, grown, now)
  {
    var grown := arrivals + Repeat(now, |more|);
    MoreTicks(arrivals, clock, now, |more|);
    HeardIsKept(l, w, arrivals, clock, more, now);
    EvictionIsExact(l, Heard(w, more, now), grown, now);
  }

  lemma OneMoreOp(front: seq<Op>, ops: seq<Op>, op: Op)
    requires ops != [] && ops[..|ops| - 1] == front && ops[|ops| - 1] == op && InOrder(ops)
    ensures InOrder(front) && Noted(ops) == if op.Note? then Noted(front) + [op.hit] else Noted(front)
    ensures HearsWords(op) ==>
              Arrivals(ops) == Arrivals(front) + Repeat(op.now, |op.more|) && Clock(ops) == Some(op.now)
    ensures HearsWords(op) && Clock(front).Some? ==> Clock(front).value <= op.now
    ensures !HearsWords(op) ==> Arrivals(ops) == Arrivals(front) && Clock(ops) == Clock(front)
  {
  }

  lemma OthersKeepTokens(l: Limits, v: Weights, c: Call, op: Op, arrivals: seq<real>, clock: Option<real>)
    requires TokensOk(l, c.w, arrivals, clock) && Legal(c, op) && !HearsWords(op)
    ensures TokensOk(l, Next(l, v, c, op).w, arrivals, clock)
  {
  }

  lemma OneMoreToken(l: Limits, v: Weights, c: Call, op: Op, front: seq<Op>, ops: seq<Op>)
    requires ops != [] && ops[..|ops| - 1] == front && ops[|ops| - 1] == op && InOrder(ops) && Legal(c, op)
    requires TokensOk(l, c.w, Arrivals(front), Clock(front))
    ensures TokensOk(l, Next(l, v, c, op).w, Arrivals(ops), Clock(ops))
    ensures HearsWords(op) ==> Exact(l, Next(l, v, c, op).w.dropped, Arrivals(ops), op.now)
  {
    OneMoreOp(front, ops, op);
    if HearsWords(op) {
      SayKeepsTokens(l, c.w, Arrivals(front), Clock(front), op.more, op.now);
    } else {
      OthersKeepTokens(l, v, c, op, Arrivals(front), Clock(front));
    }
  }

  lemma {:induction false} RunKeepsTokens(l: Limits, v: Weights, ops: seq<Op>, calls: seq<Call>, n: nat)
    requires Runs(l, v, ops, calls) && n <= |ops| && InOrder(ops[..n])
    ensures TokensOk(l, calls[n].w, Arrivals(ops[..n]), Clock(ops[..n]))
    ensures n > 0 && HearsWords(ops[n - 1]) ==> Exact(l, calls[n].w.dropped, Arrivals(ops[..n]), ops[n - 1].now)
    decreases n
  {
    if n > 0 {
      assert ops[..n][..n - 1] == ops[..n - 1] && ops[..n][n - 1] == ops[n - 1];
      RunKeepsTokens(l, v, ops, calls, n - 1);
      OneMoreToken(l, v, calls[n - 1], ops[n - 1], ops[..n - 1], ops[..n]);
    }
  }

  lemma OneMoreHit(l: Limits, v: Weights, c: Call, op: Op, noted: seq<Hit>, clock: Option<real>)
    requires HitsOk(l, c.w.hits, noted, clock) && Legal(c, op) && !HearsWords(op)
    ensures HitsOk(l, Next(l, v, c, op).w.hits, if op.Note? then noted + [op.hit] else noted, clock)
  {
    if op.Note? && clock.Some? {
      HitsAfterNote(c.w.hits, noted, op.hit, clock.value - l.seconds);
    }
  }

  lemma HitsOnceHeard(l: Limits, v: Weights, c: Call, op: Op, noted: seq<Hit>, clock: Option<real>)
    requires HitsOk(l, c.w.hits, noted, clock) && Legal(c, op) && HearsWords(op)
    requires clock.Some? ==> clock.value <= op.now
    ensures HitsOk(l, Next(l, v, c, op).w.hits, noted, Some(op.now))
    ensures Next(l, v, c, op).w.hits == Recent(noted, op.now - l.seconds)
  {
    SayKeepsHits(l, c.w.hits, noted, clock, op.now, op.now - l.seconds);
    EvictedHits(l, Heard(c.w, op.more, op.now), op.now);
  }

  function HeardAt(ops: seq<Op>): Option<real> {
    if ops != [] && HearsWords(ops[|ops| - 1]) then Some(ops[|ops| - 1].now) else None
  }

  /** Kept since the last words, and exactly the recent ones if words have just been heard. */
  ghost predicate HitsRight(l: Limits, hits: seq<Hit>, noted: seq<Hit>, clock: Option<real>, heard: Option<real>) {
    && HitsOk(l, hits, noted, clock)
    && (heard.Some? ==> hits == Recent(noted, heard.value - l.seconds))
  }

  lemma HitsAfterWords(l: Limits, v: Weights, c: Call, op: Op, noted: seq<Hit>, clock: Option<real>)
    requires HitsOk(l, c.w.hits, noted, clock) && Legal(c, op) && HearsWords(op)
    requires clock.Some? ==> clock.value <= op.now
    ensures HitsRight(l, Next(l, v, c, op).w.hits, noted, Some(op.now), Some(op.now))
  {
    HitsOnceHeard(l, v, c, op, noted, clock);
  }

  lemma HitsAfterOp(l: Limits, v: Weights, c: Call, op: Op, front: seq<Op>, ops: seq<Op>)
    requires ops != [] && ops[..|ops| - 1] == front && ops[|ops| - 1] == op && InOrder(ops) && Legal(c, op)
    requires HitsOk(l, c.w.hits, Noted(front), Clock(front))
    ensures HitsRight(l, Next(l, v, c, op).w.hits, Noted(ops), Clock(ops), HeardAt(ops))
  {
    OneMoreOp(front, ops, op);
    if HearsWords(op) {
      HitsAfterWords(l, v, c, op, Noted(front), Clock(front));
    } else {
      OneMoreHit(l, v, c, op, Noted(front), Clock(front));
    }
  }

  lemma {:induction false} RunKeepsHits(l: Limits, v: Weights, ops: seq<Op>, calls: seq<Call>, n: nat)
    requires Runs(l, v, ops, calls) && n <= |ops| && InOrder(ops[..n])
    ensures HitsRight(l, calls[n].w.hits, Noted(ops[..n]), Clock(ops[..n]), HeardAt(ops[..n]))
    decreases n
  {
    if n > 0 {
      assert ops[..n][..n - 1] == ops[..n - 1] && ops[..n][n - 1] == ops[n - 1];
      RunKeepsHits(l, v, ops, calls, n - 1);
      HitsAfterOp(l, v, calls[n - 1], ops[n - 1], ops[..n - 1], ops[..n]);
    }
  }

  /**
   Once words have been heard at `now`, token `i` of the call is in the window if and only if it arrived no longer
   than the window's seconds ago and is among the newest tokens up to the cap.
   */
  lemma WindowIsTheLastSeconds(l: Limits, v: Weights, ops: seq<Op>, calls: seq<Call>, k: nat)
    requires Runs(l, v, ops, calls) && k < |ops| && HearsWords(ops[k]) && InOrder(ops[..k + 1])
    ensures var w, arrivals := calls[k + 1].w, Arrivals(ops[..k + 1]);
            && w.dropped <= |calls[k + 1].history| && w.tokens == calls[k + 1].history[w.dropped..]
            && |arrivals| == |calls[k + 1].history| && w.times == arrivals[w.dropped..]
            && Exact(l, w.dropped, arrivals, ops[k].now)
  {
    RunKeepsTokens(l, v, ops, calls, k + 1);
    WindowIsTheTail(l, v, ops, calls, k + 1);
  }

  /** ...and the hits are those noted in the call no longer than the window's seconds ago. */
  lemma HitsAreTheLastSeconds(l: Limits, v: Weights, ops: seq<Op>, calls: seq<Call>, k: nat)
    requires Runs(l, v, ops, calls) && k < |ops| && HearsWords(ops[k]) && InOrder(ops[..k + 1])
    ensures calls[k + 1].w.hits == Recent(Noted(ops[..k + 1]), ops[k].now - l.seconds)
  {
    RunKeepsHits(l, v, ops, calls, k + 1);
  }

  // ---- Reports, word by word ----

  /** Word `p` of the call is in the span. */
  predicate Holds(x: Span, p: nat) {
    x.start <= p < x.end
  }

  ghost predicate Spoken(accepted: seq<Span>, p: nat) {
    exists y :: y in accepted && Holds(y, p)
  }

  lemma ApartMeans(y: Span, x: Span)
    requires y.start < y.end && x.start < x.end
    ensures Apart(y, x) <==> forall p :: Holds(x, p) ==> !Holds(y, p)
  {
    if !Apart(y, x) {
      var p := Max(x.start, y.start);
      assert Holds(x, p) && Holds(y, p);
    }
  }

  lemma NoneMeans(accepted: seq<Span>, x: Span)
    requires x.start < x.end && forall y :: y in accepted ==> y.start < y.end
    ensures OverlapsNone(accepted, x) <==> forall p :: Holds(x, p) ==> !Spoken(accepted, p)
  {
    forall y | y in accepted ensures Apart(y, x) <==> forall p :: Holds(x, p) ==> !Holds(y, p) {
      ApartMeans(y, x);
    }
  }

  /**
   A report is accepted exactly if none of its words is in a span accepted for the phrase before, in the window
   still or long since gone from it; and then it is the last of the phrase's accepted spans.
   */
  lemma OnlyNewWordsAreAccepted(l: Limits, v: Weights, ops: seq<Op>, calls: seq<Call>, k: nat)
    requires Runs(l, v, ops, calls) && k < |ops| && ops[k].Report?
    ensures var row, before := ops[k].row, calls[k].accepted;
            var x := Span(calls[k].w.dropped + ops[k].start, calls[k].w.dropped + ops[k].end);
            && (forall r :: r != row ==> SpansOf(calls[k + 1].accepted, r) == SpansOf(before, r))
            && SpansOf(calls[k + 1].accepted, row)
               == SpansOf(before, row)
                  + if forall p :: Holds(x, p) ==> !Spoken(SpansOf(before, row), p) then [x] else []
  {
    var row, before := ops[k].row, calls[k].accepted;
    var x := SpanAt(calls[k].w, ops[k].start, ops[k].end);
    RunKeeps(l, v, ops, calls, k);
    assert Legal(calls[k], ops[k]) && calls[k + 1] == Next(l, v, calls[k], ops[k]);
    NewMeansNeverReported(l, v, ops, calls, k);
    NoneMeans(SpansOf(before, row), x);
  }

  /** No word of a call is in two spans accepted for a phrase. */
  lemma NoWordTwice(l: Limits, v: Weights, ops: seq<Op>, calls: seq<Call>, k: nat, row: nat, i: nat, j: nat, p: nat)
    requires Runs(l, v, ops, calls) && k <= |ops|
    requires i < j < |SpansOf(calls[k].accepted, row)|
    ensures !(Holds(SpansOf(calls[k].accepted, row)[i], p) && Holds(SpansOf(calls[k].accepted, row)[j], p))
  {
    NothingCountedTwice(l, v, ops, calls, k, row, i, j);
  }
}
