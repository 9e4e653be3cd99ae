/** Tier B scoring: distinct signals in the window, less what the disclaimers suppress, fired when newly crossed. */
module Scorer {
  import opened Common
  import opened Numbers
  import opened Matcher
  import opened CallWindows

  datatype Weights = Weights(threshold: real, c1: real, c2: real, maxSuppress: real)

  /** One hit's contribution: a B category, or the shared signal of every near miss. */
  function Contribution(h: Hit): set<Signal> {
    match h.tag
    case TagB => {h.category}
    case Near => {NEAR_MISS}
    case _ => {}
  }

  function Contributing(hits: seq<Hit>): set<Signal> {
    if hits == [] then {} else Contributing(hits[..|hits| - 1]) + Contribution(hits[|hits| - 1])
  }

  function Suppressor(h: Hit): set<string> {
    if h.tag == TagC then {h.category} else {}
  }

  function Suppressing(hits: seq<Hit>): set<string> {
    if hits == [] then {}
    else Suppressing(hits[..|hits| - 1]) + Suppressor(hits[|hits| - 1])
  }

  const Disclaimer := "C1"

  function Times(x: real, n: nat): real {
    if n == 0 then 0.0 else Times(x, n - 1) + x
  }

  /** What a set of suppressing categories takes off: the disclaimer its own weight, every other the common one. */
  function Suppression(v: Weights, s: set<string>): real {
    (if Disclaimer in s then v.c1 else 0.0) + Times(v.c2, |s - {Disclaimer}|)
  }

  function Rate(v: Weights, contributing: set<Signal>, suppressing: set<string>): real {
    MaxReal(0.0, |contributing| as real - MinReal(Suppression(v, suppressing), v.maxSuppress))
  }

  function ScoreOf(v: Weights, hits: seq<Hit>): real {
    Rate(v, Contributing(hits), Suppressing(hits))
  }

  predicate Crosses(v: Weights, w: Window) {
    ScoreOf(v, w.hits) >= v.threshold && !(Contributing(w.hits) <= w.fired)
  }

  function Judged(v: Weights, w: Window): Window {
    if Crosses(v, w) then w.(fired := w.fired + Contributing(w.hits), bEvents := w.bEvents + 1) else w
  }

  lemma SuppressionGrows(v: Weights, s: set<string>, c: string)
    requires c !in s
    ensures Suppression(v, s + {c}) == Suppression(v, s) + if c == Disclaimer then v.c1 else v.c2
  {
    if c == Disclaimer {
      assert s + {c} - {Disclaimer} == s - {Disclaimer};
    } else {
      assert s + {c} - {Disclaimer} == (s - {Disclaimer}) + {c};
    }
  }

  method Signals(hits: seq<Hit>) returns (contributing: set<Signal>, suppressing: set<string>)
    ensures contributing == Contributing(hits) && suppressing == Suppressing(hits)
  {
    contributing, suppressing := {}, {};
    for k := 0 to |hits|
      invariant contributing == Contributing(hits[..k]) && suppressing == Suppressing(hits[..k])
    {
      match hits[k].tag {
        case TagB => contributing := contributing + {hits[k].category};
        case Near => contributing := contributing + {NEAR_MISS};
        case TagC => suppressing := suppressing + {hits[k].category};
        case _ =>
      }
      assert hits[..k + 1][..k] == hits[..k];
    }
    assert hits[..|hits|] == hits;
  }

  lemma MoveOver(all: set<string>, done: set<string>, todo: set<string>, c: string)
    requires done + todo == all && done !! todo && c in todo
    ensures done + {c} + (todo - {c}) == all && (done + {c}) !! (todo - {c})
  {
  }

  method Suppress(v: Weights, suppressing: set<string>) returns (suppress: real)
    ensures suppress == Suppression(v, suppressing)
  {
    suppress := 0.0;
    var todo := suppressing;
    ghost var done: set<string> := {};
    while todo != {}
      invariant done + todo == suppressing && done !! todo
      invariant suppress == Suppression(v, done)
      decreases todo
    {
      var c :| c in todo;
      SuppressionGrows(v, done, c);
      MoveOver(suppressing, done, todo, c);
      suppress := suppress + if c == Disclaimer then v.c1 else v.c2;
      done := done + {c};
      todo := todo - {c};
    }
    assert done == suppressing;
  }

  method Score(v: Weights, hits: seq<Hit>) returns (score: real, contributing: set<Signal>, suppressing: set<string>)
    ensures score == ScoreOf(v, hits) && contributing == Contributing(hits) && suppressing == Suppressing(hits)
  {
    contributing, suppressing := Signals(hits);
    var suppress := Suppress(v, suppressing);
    score := MaxReal(0.0, |contributing| as real - MinReal(suppress, v.maxSuppress));
  }

  /** Whether the window crosses the threshold with something it had not fired for, and what it scored. */
  method ShouldFire(v: Weights, window: CallWindow)
      returns (fires: bool, score: real, contributing: set<Signal>, suppressing: set<string>)
    modifies window`fired, window`bEvents
    ensures fires == Crosses(v, old(window.Contents()))
    ensures window.Contents() == Judged(v, old(window.Contents()))
    ensures score == ScoreOf(v, window.hits)
    ensures contributing == Contributing(window.hits) && suppressing == Suppressing(window.hits)
  {
    score, contributing, suppressing := Score(v, window.hits);
    fires := score >= v.threshold && !(contributing <= window.fired);
    if fires {
      window.fired := window.fired + contributing;
      window.bEvents := window.bEvents + 1;
    }
  }

  /** A window that has just fired does not fire again until something new is heard or something lapses. */
  lemma FiresOnce(v: Weights, w: Window)
    ensures !Crosses(v, Judged(v, w)) && Judged(v, Judged(v, w)) == Judged(v, w)
  {
  }

  lemma {:induction false} ContributingIsLive(hits: seq<Hit>)
    ensures Contributing(hits) <= Live(hits)
    decreases |hits|
  {
    if hits != [] {
      ContributingIsLive(hits[..|hits| - 1]);
    }
  }

  lemma {:induction false} TimesIsNonneg(x: real, n: nat)
    requires x >= 0.0
    ensures Times(x, n) >= 0.0
  {
    if n > 0 {
      TimesIsNonneg(x, n - 1);
    }
  }

  lemma AppendSignals(v: Weights, hits: seq<Hit>, h: Hit)
    ensures ScoreOf(v, hits + [h]) == Rate(v, Contributing(hits) + Contribution(h), Suppressing(hits) + Suppressor(h))
  {
    assert (hits + [h])[..|hits|] == hits;
  }

  lemma MoreSignals(v: Weights, a: set<Signal>, s: set<string>, h: Hit)
    ensures Rate(v, a, s) <= Rate(v, a + Contribution(h), s) <= Rate(v, a, s) + 1.0
  {
    var x := if h.tag == TagB then h.category else NEAR_MISS;
    if Contribution(h) <= a {
      assert a + Contribution(h) == a;
    } else {
      assert a + Contribution(h) == a + {x};
    }
  }

  lemma MoreDisclaimers(v: Weights, a: set<Signal>, s: set<string>, c: string)
    requires v.c1 >= 0.0 && v.c2 >= 0.0
    ensures Rate(v, a, s + {c}) <= Rate(v, a, s)
  {
    if c in s {
      assert s + {c} == s;
    } else {
      SuppressionGrows(v, s, c);
    }
  }

  lemma Absorbs<T>(a: set<T>, b: set<T>)
    requires b <= a
    ensures a + b == a
  {
  }

  /** Categories are counted, not phrases: a hit on signals already heard leaves the score as it was. */
  lemma RepeatsDoNotCount(v: Weights, hits: seq<Hit>, h: Hit)
    requires Contribution(h) <= Contributing(hits) && Suppressor(h) <= Suppressing(hits)
    ensures ScoreOf(v, hits + [h]) == ScoreOf(v, hits)
  {
    AppendSignals(v, hits, h);
    Absorbs(Contributing(hits), Contribution(h));
    Absorbs(Suppressing(hits), Suppressor(h));
  }

  /** Any hit that is not a disclaimer can only raise the score, and by no more than one. */
  lemma ASignalCountsOnce(v: Weights, hits: seq<Hit>, h: Hit)
    requires h.tag != TagC
    ensures ScoreOf(v, hits) <= ScoreOf(v, hits + [h]) <= ScoreOf(v, hits) + 1.0
  {
    AppendSignals(v, hits, h);
    MoreSignals(v, Contributing(hits), Suppressing(hits), h);
    assert Suppressing(hits) + Suppressor(h) == Suppressing(hits);
  }

  /** A disclaimer never raises the score. */
  lemma DisclaimersOnlyLower(v: Weights, hits: seq<Hit>, h: Hit)
    requires v.c1 >= 0.0 && v.c2 >= 0.0 && h.tag == TagC
    ensures ScoreOf(v, hits + [h]) <= ScoreOf(v, hits)
  {
    AppendSignals(v, hits, h);
    assert Contributing(hits) + Contribution(h) == Contributing(hits);
    MoreDisclaimers(v, Contributing(hits), Suppressing(hits), h.category);
  }

  /** With no negative weight, an event needs as many distinct signals in the window as the threshold says. */
  lemma AnEventNeedsDistinctSignals(v: Weights, w: Window)
    requires v.c1 >= 0.0 && v.c2 >= 0.0 && v.maxSuppress >= 0.0 && v.threshold > 0.0
    requires Crosses(v, w)
    ensures |Live(w.hits)| as real >= |Contributing(w.hits)| as real >= v.threshold
    ensures exists x :: x in Contributing(w.hits) && x !in w.fired
  {
    ContributingIsLive(w.hits);
    SubsetSize(Contributing(w.hits), Live(w.hits));
    TimesIsNonneg(v.c2, |Suppressing(w.hits) - {Disclaimer}|);
  }
}
