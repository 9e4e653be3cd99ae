/** The B score in terms of the hits alone: which signals count, what disclaimers take off, and when that fires. */
module ScorerLaws {
  import opened Common
  import opened Numbers
  import opened Matcher
  import opened CallWindows
  import opened Scorer

  /** A hit stands for this signal: a B match of the category, or a near miss of any phrase. */
  predicate StandsFor(h: Hit, x: Signal) {
    (h.tag == TagB && h.category == x) || (h.tag == Near && x == "A-near")
  }

  lemma {:induction false} ContributingAre(hits: seq<Hit>, x: Signal)
    ensures x in Contributing(hits) <==> exists i :: 0 <= i < |hits| && StandsFor(hits[i], x)
    decreases |hits|
  {
    if hits != [] {
      var front, last := hits[..|hits| - 1], hits[|hits| - 1];
      ContributingAre(front, x);
      assert forall i :: 0 <= i < |front| ==> front[i] == hits[i];
      if StandsFor(last, x) {
        assert StandsFor(hits[|hits| - 1], x);
      }
    }
  }

  lemma {:induction false} SuppressingAre(hits: seq<Hit>, x: string)
    ensures x in Suppressing(hits) <==> exists i :: 0 <= i < |hits| && hits[i].tag == TagC && hits[i].category == x
    decreases |hits|
  {
    if hits != [] {
      var front, last := hits[..|hits| - 1], hits[|hits| - 1];
      SuppressingAre(front, x);
      assert forall i :: 0 <= i < |front| ==> front[i] == hits[i];
      if last.tag == TagC && last.category == x {
        assert hits[|hits| - 1].tag == TagC;
      }
    }
  }

  lemma {:induction false} TimesIsProduct(x: real, n: nat)
    ensures Times(x, n) == n as real * x
  {
    if n > 0 {
      TimesIsProduct(x, n - 1);
      assert n as real * x == (n - 1) as real * x + x;
    }
  }

  /** The government disclaimer takes off its own weight, and every other suppressing category the common one. */
  lemma SuppressionIs(v: Weights, s: set<string>)
    ensures Suppression(v, s) == (if "C1" in s then v.c1 else 0.0) + |s - {"C1"}| as real * v.c2
  {
    TimesIsProduct(v.c2, |s - {"C1"}|);
  }

  /** What is left of so many signals, never below nothing, however much speaks against them. */
  lemma ScoreIs(v: Weights, hits: seq<Hit>)
    ensures var off := Suppression(v, Suppressing(hits));
            var left := |Contributing(hits)| as real - if off <= v.maxSuppress then off else v.maxSuppress;
            ScoreOf(v, hits) == if left > 0.0 then left else 0.0
  {
    WhatIsLeft(|Contributing(hits)| as real, Suppression(v, Suppressing(hits)), v.maxSuppress);
  }

  lemma WhatIsLeft(n: real, off: real, most: real)
    ensures MaxReal(0.0, n - MinReal(off, most)) ==
            if n - (if off <= most then off else most) > 0.0 then n - (if off <= most then off else most) else 0.0
  {
  }

  /** It fires exactly when what is left reaches the threshold and some signal has not been charged yet. */
  lemma FiresIff(v: Weights, w: Window)
    ensures Crosses(v, w) <==>
            ScoreOf(v, w.hits) >= v.threshold && exists x :: x in Contributing(w.hits) && x !in w.fired
  {
  }

  lemma TwoElements<T>(s: set<T>, x: T, y: T)
    requires x in s && y in s && x != y
    ensures |s| >= 2
  {
    SubsetSize({x, y}, s);
  }

  lemma AtLeastTwo<T>(s: set<T>) returns (x: T, y: T)
    requires |s| >= 2
    ensures x in s && y in s && x != y
  {
    x :| x in s;
    assert |s - {x}| >= 1;
    y :| y in s - {x};
  }

  /** Two different signals stand in the hits. */
  ghost predicate TwoSignals(hits: seq<Hit>) {
    exists i, j, x, y :: 0 <= i < |hits| && 0 <= j < |hits| && x != y && StandsFor(hits[i], x) && StandsFor(hits[j], y)
  }

  lemma TwoSignalsIff(hits: seq<Hit>)
    ensures TwoSignals(hits) <==> |Contributing(hits)| >= 2
  {
    if TwoSignals(hits) {
      var i, j, x, y :|
        0 <= i < |hits| && 0 <= j < |hits| && x != y && StandsFor(hits[i], x) && StandsFor(hits[j], y);
      ContributingAre(hits, x);
      ContributingAre(hits, y);
      TwoElements(Contributing(hits), x, y);
    }
    if |Contributing(hits)| >= 2 {
      var x, y := AtLeastTwo(Contributing(hits));
      ContributingAre(hits, x);
      ContributingAre(hits, y);
    }
  }

  lemma NothingSuppressing(hits: seq<Hit>)
    requires forall i :: 0 <= i < |hits| ==> hits[i].tag != TagC
    ensures Suppressing(hits) == {}
  {
    forall x ensures x !in Suppressing(hits) {
      SuppressingAre(hits, x);
    }
  }

  /**
   At the shipped threshold of two, with no disclaimer in the window and nothing charged yet, an event is two
   different signals: B matches of two categories, or one and a near miss of the A tier.
   */
  lemma TwoSignalsFire(v: Weights, w: Window)
    requires v.threshold == 2.0 && v.maxSuppress >= 0.0 && w.fired == {}
    requires forall i :: 0 <= i < |w.hits| ==> w.hits[i].tag != TagC
    ensures Crosses(v, w) <==> TwoSignals(w.hits)
  {
    NothingSuppressing(w.hits);
    ScoreIs(v, w.hits);
    SuppressionIs(v, {});
    TwoSignalsIff(w.hits);
    if |Contributing(w.hits)| >= 2 {
      var x, y := AtLeastTwo(Contributing(w.hits));
      assert x !in w.fired;
    }
  }

  /** With the government disclaimer read at the shipped weights, three signals are not enough and four are. */
  lemma ADisclaimerTakesTwo(v: Weights, w: Window)
    requires v == Weights(2.0, 1.5, 0.5, 2.0) && w.fired == {} && Suppressing(w.hits) == {"C1"}
    ensures Crosses(v, w) <==> |Contributing(w.hits)| >= 4
  {
    ScoreIs(v, w.hits);
    SuppressionIs(v, {"C1"});
    assert {"C1"} - {"C1"} == {};
    if |Contributing(w.hits)| >= 4 {
      var x, y := AtLeastTwo(Contributing(w.hits));
      assert x !in w.fired;
    }
  }
}
