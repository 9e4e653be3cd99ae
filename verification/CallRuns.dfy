/** A whole call: every run of the window's operations, and what holds after each of them. */
module CallRuns {
  import opened Common
  import opened Numbers
  import opened Corpus
  import opened Matcher
  import opened Incremental
  import opened CallWindows
  import opened Scorer

  /** What the daemon does to a window: hear words, report a match, note a hit, judge the score. */
  datatype Op = Say(more: seq<Token>, now: real) | Report(row: nat, start: nat, end: nat) | Note(hit: Hit) | Judge

  /**
   A window with the call's past: every token heard, every span accepted, how many times a signal has come
   alive, and the signals whose present period has paid for no event.
   */
  datatype Call = Call(w: Window, history: seq<Token>, accepted: SpanTable, periods: nat, spare: set<Signal>)

  const Begin := Call(Empty, [], map[], 0, {})

  ghost predicate Legal(c: Call, op: Op) {
    && Shaped(c.w)
    && match op
       case Report(row, start, end) => start < end <= |c.w.tokens|
       case _ => true
  }

  function Fresh(c: Call, h: Hit): set<Signal> {
    SignalsOf(h) - Live(c.w.hits)
  }

  ghost function Next(l: Limits, v: Weights, c: Call, op: Op): Call
    requires Legal(c, op)
  {
    match op
    case Say(more, now) => c.(w := Added(l, c.w, more, now), history := c.history + more)
    case Report(row, start, end) =>
      var x := SpanAt(c.w, start, end);
      c.(w := Accepted(c.w, row, x),
         accepted := if OverlapsNone(SpansOf(c.w.reported, row), x) then With(c.accepted, row, x) else c.accepted)
    case Note(h) => c.(w := Recorded(c.w, h), periods := c.periods + |Fresh(c, h)|, spare := c.spare + Fresh(c, h))
    case Judge =>
      c.(w := Judged(v, c.w), spare := if Crosses(v, c.w) then c.spare - Contributing(c.w.hits) else c.spare)
  }

  ghost predicate Runs(l: Limits, v: Weights, ops: seq<Op>, calls: seq<Call>) {
    && |calls| == |ops| + 1 && calls[0] == Begin
    && forall k :: 0 <= k < |ops| ==> Legal(calls[k], ops[k]) && calls[k + 1] == Next(l, v, calls[k], ops[k])
  }

  // The window is a suffix of the history.

  ghost predicate TailOf(w: Window, history: seq<Token>) {
    Shaped(w) && w.dropped <= |history| && w.tokens == history[w.dropped..]
  }

  lemma TailHeard(w: Window, history: seq<Token>, more: seq<Token>, now: real)
    requires TailOf(w, history)
    ensures TailOf(Heard(w, more, now), history + more)
  {
  }

  lemma TailShortened(w: Window, history: seq<Token>, keep: nat)
    requires TailOf(w, history) && keep <= |w.tokens|
    ensures TailOf(Shortened(w, keep), history) && Shortened(w, keep).dropped == w.dropped + keep
  {
  }

  lemma AddedKeepsTail(l: Limits, w: Window, history: seq<Token>, more: seq<Token>, now: real)
    requires TailOf(w, history)
    ensures TailOf(Added(l, w, more, now), history + more)
    ensures Added(l, w, more, now).dropped >= w.dropped
  {
    if more == [] {
      assert history + more == history;
    } else {
      var heard := Heard(w, more, now);
      TailHeard(w, history, more, now);
      TailShortened(heard, history + more, Leaving(l, heard.times, now));
    }
  }

  // The duplicate guard.

  ghost predicate PairwiseApart(spans: seq<Span>) {
    forall i, j :: 0 <= i < j < |spans| ==> Apart(spans[i], spans[j])
  }

  /** The table lists only accepted spans, and every accepted one that reaches into the window. */
  ghost predicate Remembers(reported: SpanTable, accepted: SpanTable, dropped: nat) {
    && (forall row, x :: x in SpansOf(reported, row) ==> x in SpansOf(accepted, row))
    && (forall row, x :: x in SpansOf(accepted, row) && x.end > dropped ==> x in SpansOf(reported, row))
  }

  ghost predicate Within(accepted: SpanTable, total: nat) {
    forall row, x :: x in SpansOf(accepted, row) ==> x.start < x.end <= total
  }

  ghost predicate NoneOverlap(accepted: SpanTable) {
    forall row :: PairwiseApart(SpansOf(accepted, row))
  }

  lemma TrimmedStillRemembers(reported: SpanTable, accepted: SpanTable, before: nat, dropped: nat)
    requires Remembers(reported, accepted, before) && before <= dropped
    ensures Remembers(Trimmed(reported, dropped), accepted, dropped)
  {
    var after := Trimmed(reported, dropped);
    forall row, x | x in SpansOf(after, row) ensures x in SpansOf(accepted, row) {
      StillInsideMembers(SpansOf(reported, row), dropped);
    }
    forall row, x | x in SpansOf(accepted, row) && x.end > dropped ensures x in SpansOf(after, row) {
      StillInsideMembers(SpansOf(reported, row), dropped);
    }
  }

  lemma BothRemember(reported: SpanTable, accepted: SpanTable, dropped: nat, row: nat, x: Span)
    requires Remembers(reported, accepted, dropped)
    ensures Remembers(With(reported, row, x), With(accepted, row, x), dropped)
  {
    var after, all := With(reported, row, x), With(accepted, row, x);
    forall r, y | y in SpansOf(after, r) ensures y in SpansOf(all, r) {
      assert r != row ==> y in SpansOf(reported, r);
    }
    forall r, y | y in SpansOf(all, r) && y.end > dropped ensures y in SpansOf(after, r) {
      assert r != row ==> y in SpansOf(accepted, r);
    }
  }

  /** A span inside the window overlaps an accepted span exactly when it overlaps a remembered one. */
  lemma RememberedSuffice(reported: SpanTable, accepted: SpanTable, dropped: nat, row: nat, x: Span)
    requires Remembers(reported, accepted, dropped) && dropped <= x.start < x.end
    ensures OverlapsNone(SpansOf(accepted, row), x) <==> OverlapsNone(SpansOf(reported, row), x)
  {
    if OverlapsNone(SpansOf(reported, row), x) {
      forall y | y in SpansOf(accepted, row) ensures Apart(y, x) {
        assert y.end <= dropped || y in SpansOf(reported, row);
      }
    }
  }

  lemma OneMoreApart(accepted: SpanTable, row: nat, x: Span, total: nat)
    requires NoneOverlap(accepted) && Within(accepted, total) && x.start < x.end <= total
    requires OverlapsNone(SpansOf(accepted, row), x)
    ensures NoneOverlap(With(accepted, row, x)) && Within(With(accepted, row, x), total)
  {
    var all := With(accepted, row, x);
    forall r ensures PairwiseApart(SpansOf(all, r)) {
      assert PairwiseApart(SpansOf(accepted, r));
    }
    forall r, y | y in SpansOf(all, r) ensures y.start < y.end <= total {
      assert r != row ==> y in SpansOf(accepted, r);
    }
  }

  // The ledger of B events.

  /**
   B events are paid for by live periods: every live signal has been charged or is spare, only live signals
   stay charged, and events and spare signals together are no more than the periods begun.
   */
  ghost predicate Paid(live: set<Signal>, fired: set<Signal>, spare: set<Signal>, bEvents: nat, periods: nat) {
    && (forall x :: x in live ==> x in fired || x in spare)
    && (forall x :: x in fired ==> x in live)
    && bEvents + |spare| <= periods
  }

  lemma PaidAfterAging(hits: seq<Hit>, cutoff: real, fired: set<Signal>, spare: set<Signal>, bEvents: nat, periods: nat)
    requires Paid(Live(hits), fired, spare, bEvents, periods)
    ensures Paid(Live(Recent(hits, cutoff)), fired * Live(Recent(hits, cutoff)), spare, bEvents, periods)
  {
    LiveShrinks(hits, cutoff);
  }

  /** A signal that comes alive brings one live period with it. */
  lemma PaidAfterNote(live: set<Signal>, fired: set<Signal>, spare: set<Signal>, bEvents: nat, periods: nat,
                      carried: set<Signal>)
    requires Paid(live, fired, spare, bEvents, periods)
    ensures Paid(live + carried, fired, spare + (carried - live), bEvents, periods + |carried - live|)
  {
  }

  /** An event spends the period of a signal that had not fired. */
  lemma PaidAfterEvent(live: set<Signal>, fired: set<Signal>, spare: set<Signal>, bEvents: nat, periods: nat,
                       charged: set<Signal>)
    requires Paid(live, fired, spare, bEvents, periods)
    requires charged <= live && !(charged <= fired)
    ensures Paid(live, fired + charged, spare - charged, bEvents + 1, periods)
  {
    var x :| x in charged && x !in fired;
    SubsetSize((spare - charged) + {x}, spare);
  }

  lemma LiveGrows(hits: seq<Hit>, h: Hit)
    ensures Live(hits + [h]) == Live(hits) + SignalsOf(h)
  {
    assert (hits + [h])[..|hits|] == hits;
  }

  // Every step keeps all three.

  ghost predicate GuardOk(c: Call) {
    Remembers(c.w.reported, c.accepted, c.w.dropped) && Within(c.accepted, |c.history|) && NoneOverlap(c.accepted)
  }

  ghost predicate LedgerOk(c: Call) {
    Paid(Live(c.w.hits), c.w.fired, c.spare, c.w.bEvents, c.periods)
  }

  lemma StepKeepsTail(l: Limits, v: Weights, c: Call, op: Op)
    requires TailOf(c.w, c.history) && Legal(c, op)
    ensures TailOf(Next(l, v, c, op).w, Next(l, v, c, op).history)
  {
    if op.Say? {
      AddedKeepsTail(l, c.w, c.history, op.more, op.now);
    }
  }

  lemma AddedTable(l: Limits, w: Window, more: seq<Token>, now: real)
    requires Shaped(w)
    ensures var r := Added(l, w, more, now);
            && r.dropped >= w.dropped
            && r.reported == if r.dropped == w.dropped then w.reported else Trimmed(w.reported, r.dropped)
  {
  }

  lemma TableKept(reported: SpanTable, accepted: SpanTable, before: nat, dropped: nat, after: SpanTable)
    requires Remembers(reported, accepted, before) && before <= dropped
    requires after == if dropped == before then reported else Trimmed(reported, dropped)
    ensures Remembers(after, accepted, dropped)
  {
    if dropped > before {
      TrimmedStillRemembers(reported, accepted, before, dropped);
    }
  }

  lemma WithinMore(accepted: SpanTable, total: nat, more: nat)
    requires Within(accepted, total) && total <= more
    ensures Within(accepted, more)
  {
  }

  lemma SayKeepsGuard(l: Limits, w: Window, accepted: SpanTable, total: nat, more: seq<Token>, now: real)
    requires Shaped(w)
    requires Remembers(w.reported, accepted, w.dropped) && Within(accepted, total)
    ensures var r := Added(l, w, more, now);
            Remembers(r.reported, accepted, r.dropped) && Within(accepted, total + |more|)
  {
    var r := Added(l, w, more, now);
    AddedTable(l, w, more, now);
    TableKept(w.reported, accepted, w.dropped, r.dropped, r.reported);
    WithinMore(accepted, total, total + |more|);
  }

  lemma ReportKeepsGuard(reported: SpanTable, accepted: SpanTable, dropped: nat, total: nat, row: nat, x: Span)
    requires Remembers(reported, accepted, dropped) && Within(accepted, total) && NoneOverlap(accepted)
    requires dropped <= x.start < x.end <= total && OverlapsNone(SpansOf(reported, row), x)
    ensures Remembers(With(reported, row, x), With(accepted, row, x), dropped)
    ensures Within(With(accepted, row, x), total) && NoneOverlap(With(accepted, row, x))
  {
    RememberedSuffice(reported, accepted, dropped, row, x);
    BothRemember(reported, accepted, dropped, row, x);
    OneMoreApart(accepted, row, x, total);
  }

  lemma StepKeepsGuard(l: Limits, v: Weights, c: Call, op: Op)
    requires TailOf(c.w, c.history) && GuardOk(c) && Legal(c, op)
    ensures GuardOk(Next(l, v, c, op))
  {
    match op
    case Say(more, now) => SayKeepsGuard(l, c.w, c.accepted, |c.history|, more, now);
    case Report(row, start, end) =>
      var x := SpanAt(c.w, start, end);
      if OverlapsNone(SpansOf(c.w.reported, row), x) {
        ReportKeepsGuard(c.w.reported, c.accepted, c.w.dropped, |c.history|, row, x);
      }
    case _ =>
  }

  lemma NoteKeepsLedger(c: Call, h: Hit)
    requires LedgerOk(c)
    ensures Paid(Live(Recorded(c.w, h).hits), c.w.fired, c.spare + Fresh(c, h), c.w.bEvents, c.periods + |Fresh(c, h)|)
  {
    LiveGrows(c.w.hits, h);
    PaidAfterNote(Live(c.w.hits), c.w.fired, c.spare, c.w.bEvents, c.periods, SignalsOf(h));
  }

  lemma SayKeepsLedger(l: Limits, c: Call, more: seq<Token>, now: real)
    requires LedgerOk(c) && Shaped(c.w)
    ensures LedgerOk(c.(w := Added(l, c.w, more, now)))
  {
    if more != [] {
      PaidAfterAging(c.w.hits, now - l.seconds, c.w.fired, c.spare, c.w.bEvents, c.periods);
    }
  }

  lemma StepKeepsLedger(l: Limits, v: Weights, c: Call, op: Op)
    requires LedgerOk(c) && Legal(c, op)
    ensures LedgerOk(Next(l, v, c, op))
  {
    match op
    case Say(more, now) => SayKeepsLedger(l, c, more, now);
    case Report(row, start, end) =>
    case Note(h) => NoteKeepsLedger(c, h);
    case Judge =>
      if Crosses(v, c.w) {
        ContributingIsLive(c.w.hits);
        PaidAfterEvent(Live(c.w.hits), c.w.fired, c.spare, c.w.bEvents, c.periods, Contributing(c.w.hits));
      }
  }

  lemma {:induction false} RunKeeps(l: Limits, v: Weights, ops: seq<Op>, calls: seq<Call>, k: nat)
    requires Runs(l, v, ops, calls) && k <= |ops|
    ensures TailOf(calls[k].w, calls[k].history) && GuardOk(calls[k]) && LedgerOk(calls[k])
  {
    if k > 0 {
      RunKeeps(l, v, ops, calls, k - 1);
      assert calls[k - 1 + 1] == Next(l, v, calls[k - 1], ops[k - 1]);
      StepKeepsTail(l, v, calls[k - 1], ops[k - 1]);
      StepKeepsGuard(l, v, calls[k - 1], ops[k - 1]);
      StepKeepsLedger(l, v, calls[k - 1], ops[k - 1]);
    }
  }

  /** Throughout a call the window is the part of everything said that starts at `dropped`. */
  lemma WindowIsTheTail(l: Limits, v: Weights, ops: seq<Op>, calls: seq<Call>, k: nat)
    requires Runs(l, v, ops, calls) && k <= |ops|
    ensures calls[k].w.dropped <= |calls[k].history|
    ensures calls[k].w.tokens == calls[k].history[calls[k].w.dropped..]
  {
    RunKeeps(l, v, ops, calls, k);
  }

  /** No words are counted twice for a phrase, even once the window has forgotten them. */
  lemma NothingCountedTwice(l: Limits, v: Weights, ops: seq<Op>, calls: seq<Call>, k: nat, row: nat, i: nat, j: nat)
    requires Runs(l, v, ops, calls) && k <= |ops|
    requires i < j < |SpansOf(calls[k].accepted, row)|
    ensures Apart(SpansOf(calls[k].accepted, row)[i], SpansOf(calls[k].accepted, row)[j])
  {
    RunKeeps(l, v, ops, calls, k);
    assert PairwiseApart(SpansOf(calls[k].accepted, row));
  }

  /** A report is taken exactly when its words overlap nothing ever accepted for the phrase. */
  lemma NewMeansNeverReported(l: Limits, v: Weights, ops: seq<Op>, calls: seq<Call>, k: nat)
    requires Runs(l, v, ops, calls) && k < |ops| && ops[k].Report?
    ensures var x := SpanAt(calls[k].w, ops[k].start, ops[k].end);
            OverlapsNone(SpansOf(calls[k].w.reported, ops[k].row), x)
            <==> OverlapsNone(SpansOf(calls[k].accepted, ops[k].row), x)
  {
    RunKeeps(l, v, ops, calls, k);
    assert Legal(calls[k], ops[k]);
    RememberedSuffice(calls[k].w.reported, calls[k].accepted, calls[k].w.dropped, ops[k].row,
                      SpanAt(calls[k].w, ops[k].start, ops[k].end));
  }

  /** There are never more B events than times a signal came alive in the window. */
  lemma EventsArePaidFor(l: Limits, v: Weights, ops: seq<Op>, calls: seq<Call>, k: nat)
    requires Runs(l, v, ops, calls) && k <= |ops|
    ensures calls[k].w.bEvents <= calls[k].periods
    ensures calls[k].w.fired <= Live(calls[k].w.hits)
  {
    RunKeeps(l, v, ops, calls, k);
  }

  // A run of the window is a feed of the matcher.

  /** What the matcher is handed each time words are heard, up to step `n`. */
  ghost function Views(ops: seq<Op>, calls: seq<Call>, n: nat): seq<View>
    requires |calls| == |ops| + 1 && n <= |ops|
  {
    if n == 0 then []
    else
      Views(ops, calls, n - 1)
      + if ops[n - 1].Say? then [View(calls[n].w.dropped, |calls[n - 1].history|, |calls[n].history|)] else []
  }

  ghost predicate Chain(views: seq<View>, total: nat) {
    && (views == [] ==> total == 0)
    && (views != [] ==> views[0].seen == 0 && views[|views| - 1].total == total)
    && (forall k :: 0 <= k < |views| ==> views[k].dropped <= views[k].total <= total && views[k].seen <= views[k].total)
    && (forall k :: 0 <= k < |views| - 1 ==> views[k + 1].seen == views[k].total)
  }

  lemma ChainGrows(views: seq<View>, total: nat, x: View)
    requires Chain(views, total) && x.seen == total && x.dropped <= x.total && total <= x.total
    ensures Chain(views + [x], x.total)
  {
  }

  lemma ViewsStep(l: Limits, v: Weights, ops: seq<Op>, calls: seq<Call>, n: nat)
    requires Runs(l, v, ops, calls) && n < |ops| && Chain(Views(ops, calls, n), |calls[n].history|)
    ensures Chain(Views(ops, calls, n + 1), |calls[n + 1].history|)
  {
    assert Legal(calls[n], ops[n]) && calls[n + 1] == Next(l, v, calls[n], ops[n]);
    if ops[n].Say? {
      RunKeeps(l, v, ops, calls, n + 1);
      ChainGrows(Views(ops, calls, n), |calls[n].history|,
                 View(calls[n + 1].w.dropped, |calls[n].history|, |calls[n + 1].history|));
    } else {
      assert Views(ops, calls, n + 1) == Views(ops, calls, n);
    }
  }

  lemma {:induction false} ViewsChain(l: Limits, v: Weights, ops: seq<Op>, calls: seq<Call>, n: nat)
    requires Runs(l, v, ops, calls) && n <= |ops|
    ensures Chain(Views(ops, calls, n), |calls[n].history|)
  {
    if n > 0 {
      ViewsChain(l, v, ops, calls, n - 1);
      ViewsStep(l, v, ops, calls, n - 1);
    }
  }

  /** Over a whole call, however it was cut and whatever was evicted, the matcher is fed one unbroken history. */
  lemma ACallIsAFeed(l: Limits, v: Weights, ops: seq<Op>, calls: seq<Call>)
    requires Runs(l, v, ops, calls)
    requires exists k :: 0 <= k < |ops| && ops[k].Say?
    ensures Feed(calls[|ops|].history, Views(ops, calls, |ops|))
  {
    var k :| 0 <= k < |ops| && ops[k].Say?;
    ViewsChain(l, v, ops, calls, |ops|);
    SomeView(ops, calls, |ops|, k);
  }

  lemma {:induction false} SomeView(ops: seq<Op>, calls: seq<Call>, n: nat, k: nat)
    requires |calls| == |ops| + 1 && k < n <= |ops| && ops[k].Say?
    ensures Views(ops, calls, n) != []
  {
    if k < n - 1 {
      SomeView(ops, calls, n - 1, k);
    }
  }

  lemma PrefixOfPrefix(a: seq<Token>, b: seq<Token>, c: seq<Token>)
    requires a <= b && b <= c
    ensures a <= c
  {
  }

  lemma {:induction false} HistoryGrows(l: Limits, v: Weights, ops: seq<Op>, calls: seq<Call>, k: nat, n: nat)
    requires Runs(l, v, ops, calls) && k <= n <= |ops|
    ensures calls[k].history <= calls[n].history
    decreases n
  {
    if k < n {
      HistoryGrows(l, v, ops, calls, k, n - 1);
      HistoryStep(l, v, ops, calls, n - 1);
      PrefixOfPrefix(calls[k].history, calls[n - 1].history, calls[n].history);
    }
  }

  lemma HistoryStep(l: Limits, v: Weights, ops: seq<Op>, calls: seq<Call>, n: nat)
    requires Runs(l, v, ops, calls) && n < |ops|
    ensures calls[n].history <= calls[n + 1].history
  {
    assert Legal(calls[n], ops[n]) && calls[n + 1] == Next(l, v, calls[n], ops[n]);
  }

  /** What the window holds after words are heard, and where its new words start, is the view the feed says. */
  lemma WindowIsItsView(l: Limits, v: Weights, ops: seq<Op>, calls: seq<Call>, k: nat)
    requires Runs(l, v, ops, calls) && k < |ops| && ops[k].Say?
    ensures var x := View(calls[k + 1].w.dropped, |calls[k].history|, |calls[k + 1].history|);
            && x.dropped <= x.total <= |calls[|ops|].history|
            && calls[k + 1].w.tokens == Incremental.Window(calls[|ops|].history, x)
            && Since(x) == Max(0, |calls[k].w.tokens| - (calls[k + 1].w.dropped - calls[k].w.dropped))
  {
    RunKeeps(l, v, ops, calls, k);
    RunKeeps(l, v, ops, calls, k + 1);
    HistoryGrows(l, v, ops, calls, k + 1, |ops|);
    var all, seen := calls[|ops|].history, calls[k + 1].history;
    assert all[..|seen|][calls[k + 1].w.dropped..] == all[calls[k + 1].w.dropped..|seen|];
  }
}
