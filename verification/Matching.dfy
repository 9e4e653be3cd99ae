/** One call of the matcher over a window: wake phrases, collect candidates, veto, suppress, order. */
module Matching {
  import opened Numbers
  import opened Corpus
  import opened Sorting
  import opened Matcher
  import opened Spans

  function ScanFrom(c: Config, since: nat): (i: nat) {
    Max(0, since - MaxSpan(c.phrases))
  }

  /** The phrases one token wakes, by its spelling or by its sound. */
  function WokenBy(c: Config, t: Token): set<nat> {
    Filed(c.index, Literal(t)) + if c.lex.soundOf(t) != "" then Filed(c.index, Sound(c.lex.soundOf(t))) else {}
  }

  ghost predicate Woken(c: Config, tokens: seq<Token>, since: nat, pos: nat) {
    exists i :: ScanFrom(c, since) <= i < |tokens| && pos in WokenBy(c, tokens[i])
  }

  method Wake(c: Config, tokens: seq<Token>, since: nat) returns (wake: set<nat>)
    ensures forall pos :: pos in wake <==> Woken(c, tokens, since, pos)
  {
    wake := {};
    var i := ScanFrom(c, since);
    while i < |tokens|
      invariant ScanFrom(c, since) <= i
      invariant forall pos :: pos in wake <==>
                  exists j :: ScanFrom(c, since) <= j < i && j < |tokens| && pos in WokenBy(c, tokens[j])
    {
      wake := wake + WokenBy(c, tokens[i]);
      i := i + 1;
    }
  }

  predicate AllSpeakable(phrases: seq<Phrase>) {
    forall p :: p in phrases ==> Speakable(p)
  }

  /** Candidates of the woken phrases among the first `n`, in corpus order. */
  ghost function Raw(c: Config, tokens: seq<Token>, since: nat, n: nat): seq<Match>
    requires AllSpeakable(c.phrases) && n <= |c.phrases|
  {
    if n == 0 then []
    else
      Raw(c, tokens, since, n - 1)
      + if Woken(c, tokens, since, n - 1) then CandidateOf(c, c.phrases[n - 1], tokens, since) else []
  }

  predicate Overlap(m: Match, o: Match) {
    o.start < m.end && m.start < o.end
  }

  predicate Vetoed(raw: seq<Match>, m: Match) {
    exists v :: v in raw && v.tag == TagX && Overlap(m, v)
  }

  /** What survives the exclusions: nothing that overlaps one, and no exclusion itself unless asked for. */
  function Unvetoed(raw: seq<Match>, among: seq<Match>, withExclusions: bool): seq<Match> {
    if among == [] then []
    else
      var m := among[|among| - 1];
      Unvetoed(raw, among[..|among| - 1], withExclusions)
      + if (if m.tag == TagX then withExclusions else !Vetoed(raw, m)) then [m] else []
  }

  /** Best score first, then the longer span, then the earlier, then the corpus row. */
  predicate Preferred(x: Match, y: Match) {
    x.score > y.score
    || (x.score == y.score
        && (x.end - x.start > y.end - y.start
            || (x.end - x.start == y.end - y.start
                && (x.start < y.start || (x.start == y.start && x.phrase.row <= y.phrase.row)))))
  }

  predicate ByStart(x: Match, y: Match) {
    x.start < y.start || (x.start == y.start && x.score >= y.score)
  }

  predicate Clashes(chosen: seq<Match>, m: Match) {
    exists o :: o in chosen && Overlap(m, o) && o.phrase.category == m.phrase.category
  }

  /** In order of preference, keep what does not clash with anything kept before it. */
  function Suppressed(ranked: seq<Match>): seq<Match> {
    if ranked == [] then []
    else
      var chosen := Suppressed(ranked[..|ranked| - 1]);
      if Clashes(chosen, ranked[|ranked| - 1]) then chosen else chosen + [ranked[|ranked| - 1]]
  }

  function Select(raw: seq<Match>, withExclusions: bool): seq<Match> {
    Sort(Suppressed(Sort(Unvetoed(raw, raw, withExclusions), Preferred)), ByStart)
  }

  ghost function Candidates(c: Config, tokens: seq<Token>, since: nat): seq<Match>
    requires AllSpeakable(c.phrases)
  {
    Raw(c, tokens, since, |c.phrases|)
  }

  ghost function Matches(c: Config, tokens: seq<Token>, since: nat, withExclusions: bool): seq<Match>
    requires AllSpeakable(c.phrases)
  {
    Select(Candidates(c, tokens, since), withExclusions)
  }

  lemma {:induction false} NothingRaw(c: Config, tokens: seq<Token>, since: nat, n: nat)
    requires AllSpeakable(c.phrases) && n <= |c.phrases|
    requires forall pos: nat :: pos < |c.phrases| ==> !Woken(c, tokens, since, pos)
    ensures Raw(c, tokens, since, n) == []
    decreases n
  {
    if n > 0 {
      NothingRaw(c, tokens, since, n - 1);
    }
  }

  method Veto(raw: seq<Match>, withExclusions: bool) returns (kept: seq<Match>)
    ensures kept == Unvetoed(raw, raw, withExclusions)
  {
    kept := [];
    for k := 0 to |raw|
      invariant kept == Unvetoed(raw, raw[..k], withExclusions)
    {
      assert raw[..k + 1][..k] == raw[..k];
      var m := raw[k];
      if m.tag == TagX {
        if withExclusions {
          kept := kept + [m];
        }
        continue;
      }
      var vetoed := false;
      for j := 0 to |raw|
        invariant vetoed <==> exists v :: v in raw[..j] && v.tag == TagX && Overlap(m, v)
      {
        assert raw[..j + 1] == raw[..j] + [raw[j]];
        vetoed := vetoed || (raw[j].tag == TagX && Overlap(m, raw[j]));
      }
      assert raw[..|raw|] == raw;
      if !vetoed {
        kept := kept + [m];
      }
    }
    assert raw[..|raw|] == raw;
  }

  method Suppress(ranked: seq<Match>) returns (chosen: seq<Match>)
    ensures chosen == Suppressed(ranked)
  {
    chosen := [];
    for k := 0 to |ranked|
      invariant chosen == Suppressed(ranked[..k])
    {
      assert ranked[..k + 1][..k] == ranked[..k];
      var m := ranked[k];
      var clash := false;
      for j := 0 to |chosen|
        invariant clash <==> exists o :: o in chosen[..j] && Overlap(m, o) && o.phrase.category == m.phrase.category
      {
        assert chosen[..j + 1] == chosen[..j] + [chosen[j]];
        clash := clash || (Overlap(m, chosen[j]) && chosen[j].phrase.category == m.phrase.category);
      }
      assert chosen[..|chosen|] == chosen;
      if !clash {
        chosen := chosen + [m];
      }
    }
    assert ranked[..|ranked|] == ranked;
  }

  /** The match a woken phrase is good for, if its best span scores high enough for its tier. */
  method CandidateFrom(c: Config, p: Phrase, tokens: seq<Token>, since: nat) returns (found: seq<Match>)
    requires Speakable(p)
    ensures found == CandidateOf(c, p, tokens, since)
  {
    var best := FindBest(c, p, tokens, since);
    BestSpanIsBest(c, p, tokens, since);
    if best == NoBest || best.score < c.ReviewFor(p) {
      return [];
    }
    var tag;
    if p.tier == A {
      tag := if best.score >= c.KillFor(p) then TagA else Near;
    } else {
      if best.score < c.KillFor(p) {
        return [];
      }
      tag := match p.tier case B => TagB case C => TagC case X => TagX;
    }
    return [Match(p, tag, best.score, best.start, best.end, Join(tokens[best.start..best.end]), best.how)];
  }

  method Collect(c: Config, tokens: seq<Token>, since: nat, wake: set<nat>) returns (raw: seq<Match>)
    requires AllSpeakable(c.phrases)
    requires forall pos :: pos in wake <==> Woken(c, tokens, since, pos)
    ensures raw == Candidates(c, tokens, since)
  {
    raw := [];
    for pos := 0 to |c.phrases|
      invariant raw == Raw(c, tokens, since, pos)
    {
      if pos in wake {
        var found := CandidateFrom(c, c.phrases[pos], tokens, since);
        raw := raw + found;
      }
    }
  }

  /** One incremental call: only spans ending after `since` are considered. */
  method Run(c: Config, tokens: seq<Token>, since: nat, withExclusions: bool) returns (r: seq<Match>)
    requires AllSpeakable(c.phrases)
    ensures r == Matches(c, tokens, since, withExclusions)
  {
    var wake := Wake(c, tokens, since);
    if |tokens| == 0 || wake == {} {
      NothingRaw(c, tokens, since, |c.phrases|);
      assert Candidates(c, tokens, since) == [];
      return [];
    }
    var raw := Collect(c, tokens, since, wake);
    if raw == [] {
      return [];
    }
    var kept := Veto(raw, withExclusions);
    var chosen := Suppress(Sort(kept, Preferred));
    return Sort(chosen, ByStart);
  }
}
