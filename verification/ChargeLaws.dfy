/** How often one signal can be charged with a B event. */
module ChargeLaws {
  import opened Corpus
  import opened CallWindows
  import opened CallRuns
  import opened Scorer

  /** This step charges the signal: an event to which it contributes and for which it had not been charged. */
  predicate Charges(v: Weights, c: Call, op: Op, x: Signal) {
    op.Judge? && Crosses(v, c.w) && x in Contributing(c.w.hits) && x !in c.w.fired
  }

  /** This step brings the signal to life: a hit carries it, and no hit in the window did. */
  predicate Revives(c: Call, op: Op, x: Signal) {
    op.Note? && x in SignalsOf(op.hit) && x !in Live(c.w.hits)
  }

  /** Only an eviction that leaves no hit carrying a signal makes it chargeable again. */
  lemma OnlyLapsedSignalsAreForgiven(l: Limits, v: Weights, c: Call, op: Op, x: Signal)
    requires Legal(c, op) && x in c.w.fired && x !in Next(l, v, c, op).w.fired
    ensures op.Say? && x !in Live(Next(l, v, c, op).w.hits)
  {
  }

  /** Every event charges at least one signal. */
  lemma AnEventCharges(v: Weights, c: Call) returns (x: Signal)
    requires Crosses(v, c.w)
    ensures Charges(v, c, Judge, x)
  {
    x :| x in Contributing(c.w.hits) && x !in c.w.fired;
  }

  ghost function TimesCharged(v: Weights, ops: seq<Op>, calls: seq<Call>, n: nat, x: Signal): nat
    requires |calls| == |ops| + 1 && n <= |ops|
  {
    if n == 0 then 0
    else TimesCharged(v, ops, calls, n - 1, x) + if Charges(v, calls[n - 1], ops[n - 1], x) then 1 else 0
  }

  ghost function TimesRevived(ops: seq<Op>, calls: seq<Call>, n: nat, x: Signal): nat
    requires |calls| == |ops| + 1 && n <= |ops|
  {
    if n == 0 then 0 else TimesRevived(ops, calls, n - 1, x) + if Revives(calls[n - 1], ops[n - 1], x) then 1 else 0
  }

  /** The signal lives and has not been charged since it came to life. */
  predicate Chargeable(w: Window, x: Signal) {
    x in Live(w.hits) && x !in w.fired
  }

  lemma SayMakesNothingChargeable(l: Limits, c: Call, more: seq<Token>, now: real, x: Signal)
    requires LedgerOk(c) && Shaped(c.w) && Chargeable(Added(l, c.w, more, now), x)
    ensures Chargeable(c.w, x)
  {
    LiveShrinks(c.w.hits, now - l.seconds);
  }

  lemma NoteMakesChargeable(c: Call, h: Hit, x: Signal)
    requires LedgerOk(c)
    ensures Chargeable(Recorded(c.w, h), x) <==> Chargeable(c.w, x) || Revives(c, Note(h), x)
    ensures !(Chargeable(c.w, x) && Revives(c, Note(h), x))
  {
    LiveGrows(c.w.hits, h);
  }

  lemma JudgeSpends(v: Weights, c: Call, x: Signal)
    requires LedgerOk(c)
    ensures Charges(v, c, Judge, x) ==> Chargeable(c.w, x) && !Chargeable(Judged(v, c.w), x)
    ensures Chargeable(Judged(v, c.w), x) ==> Chargeable(c.w, x)
  {
    ContributingIsLive(c.w.hits);
  }

  function One(b: bool): nat {
    if b then 1 else 0
  }

  /** A charge uses up a life: charges and an unspent life together grow no faster than lives. */
  lemma StepBalances(l: Limits, v: Weights, c: Call, op: Op, x: Signal)
    requires LedgerOk(c) && Legal(c, op)
    ensures One(Charges(v, c, op, x)) + One(Chargeable(Next(l, v, c, op).w, x))
            <= One(Chargeable(c.w, x)) + One(Revives(c, op, x))
  {
    match op
    case Say(more, now) =>
      if Chargeable(Added(l, c.w, more, now), x) {
        SayMakesNothingChargeable(l, c, more, now, x);
      }
    case Report(row, start, end) =>
    case Note(h) => NoteMakesChargeable(c, h, x);
    case Judge => JudgeSpends(v, c, x);
  }

  lemma {:induction false} ChargesBalance(l: Limits, v: Weights, ops: seq<Op>, calls: seq<Call>, n: nat, x: Signal)
    requires Runs(l, v, ops, calls) && n <= |ops|
    ensures TimesCharged(v, ops, calls, n, x) + One(Chargeable(calls[n].w, x)) <= TimesRevived(ops, calls, n, x)
  {
    if n > 0 {
      ChargesBalance(l, v, ops, calls, n - 1, x);
      RunKeeps(l, v, ops, calls, n - 1);
      assert Legal(calls[n - 1], ops[n - 1]) && calls[n - 1 + 1] == Next(l, v, calls[n - 1], ops[n - 1]);
      StepBalances(l, v, calls[n - 1], ops[n - 1], x);
    }
  }

  /** Over a whole call each signal is charged at most once for each time it came to life in the window. */
  lemma OneChargePerLife(l: Limits, v: Weights, ops: seq<Op>, calls: seq<Call>, n: nat, x: Signal)
    requires Runs(l, v, ops, calls) && n <= |ops|
    ensures TimesCharged(v, ops, calls, n, x) <= TimesRevived(ops, calls, n, x)
  {
    ChargesBalance(l, v, ops, calls, n, x);
  }

  /** Words were heard at step `k` and the eviction left no hit carrying the signal. */
  ghost predicate LapsesAt(ops: seq<Op>, calls: seq<Call>, k: nat, x: Signal)
    requires |calls| == |ops| + 1 && k < |ops|
  {
    ops[k].Say? && x !in Live(calls[k + 1].w.hits)
  }

  lemma ChargedOneMoreStep(l: Limits, v: Weights, ops: seq<Op>, calls: seq<Call>, k: nat, x: Signal)
    requires Runs(l, v, ops, calls) && k < |ops| && x in calls[k].w.fired && !LapsesAt(ops, calls, k, x)
    ensures x in calls[k + 1].w.fired
  {
    assert Legal(calls[k], ops[k]) && calls[k + 1] == Next(l, v, calls[k], ops[k]);
    if x !in calls[k + 1].w.fired {
      OnlyLapsedSignalsAreForgiven(l, v, calls[k], ops[k], x);
    }
  }

  lemma {:induction false} ChargedUntilItLapses(l: Limits, v: Weights, ops: seq<Op>, calls: seq<Call>, i: nat, j: nat,
                                                x: Signal)
    requires Runs(l, v, ops, calls) && i <= j <= |ops| && x in calls[i].w.fired
    requires forall k :: i <= k < j ==> !LapsesAt(ops, calls, k, x)
    ensures x in calls[j].w.fired
    decreases j
  {
    if i < j {
      ChargedUntilItLapses(l, v, ops, calls, i, j - 1, x);
      ChargedOneMoreStep(l, v, ops, calls, j - 1, x);
    }
  }

  /** Between two charges of a signal there was an eviction at which no live hit carried it. */
  lemma RechargeNeedsALapse(l: Limits, v: Weights, ops: seq<Op>, calls: seq<Call>, i: nat, j: nat, x: Signal)
    requires Runs(l, v, ops, calls) && i < j < |ops|
    requires Charges(v, calls[i], ops[i], x) && Charges(v, calls[j], ops[j], x)
    ensures exists k :: i < k < j && LapsesAt(ops, calls, k, x)
  {
    assert calls[i + 1] == Next(l, v, calls[i], ops[i]);
    if forall k :: i < k < j ==> !LapsesAt(ops, calls, k, x) {
      ChargedUntilItLapses(l, v, ops, calls, i + 1, j, x);
    }
  }
}
