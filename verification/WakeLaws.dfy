/** Which tokens wake a phrase, said of the corpus and the words heard alone. */
module WakeLaws {
  import opened Corpus
  import opened Matching
  import opened Matcher

  /** The phrases that contain the token. */
  function Holders(phrases: seq<Phrase>, t: Token): set<nat> {
    set i | 0 <= i < |phrases| && t in phrases[i].tokens
  }

  lemma {:induction false} DfIs(phrases: seq<Phrase>, t: Token)
    ensures Df(phrases, t) == |Holders(phrases, t)|
    decreases |phrases|
  {
    if phrases != [] {
      var n := |phrases| - 1;
      DfIs(phrases[..n], t);
      assert Holders(phrases, t) == Holders(phrases[..n], t) + if t in phrases[n].tokens then {n} else {};
    }
  }

  /** Alphabetically before: a proper beginning, or lower at the first place where they differ. */
  ghost predicate SpeltBefore(s: string, t: string) {
    exists k: nat :: k <= |s| && k < |t| && s[..k] == t[..k] && (k == |s| || s[k] < t[k])
  }

  lemma {:induction false} BeforeIs(s: string, t: string)
    ensures Before(s, t) <==> SpeltBefore(s, t)
    decreases |s|
  {
    if t == [] {
      assert !SpeltBefore(s, t);
    } else if s == [] || s[0] < t[0] {
      assert s[..0] == t[..0];
      assert SpeltBefore(s, t);
    } else {
      if s[0] == t[0] {
        BeforeIs(s[1..], t[1..]);
        if k: nat :| k <= |s[1..]| && k < |t[1..]| && s[1..][..k] == t[1..][..k]
                     && (k == |s[1..]| || s[1..][k] < t[1..][k]) {
          assert s[..k + 1] == [s[0]] + s[1..][..k] && t[..k + 1] == [t[0]] + t[1..][..k];
          assert SpeltBefore(s, t);
        }
      }
      if k: nat :| k <= |s| && k < |t| && s[..k] == t[..k] && (k == |s| || s[k] < t[k]) {
        assert k > 0 && s[0] == s[..k][0] == t[..k][0] == t[0];
        assert s[1..][..k - 1] == s[..k][1..] && t[1..][..k - 1] == t[..k][1..];
        assert SpeltBefore(s[1..], t[1..]);
      }
    }
  }

  lemma {:induction false} BeforeIsTotal(s: string, t: string)
    ensures s == t || Before(s, t) || Before(t, s)
    ensures !(Before(s, t) && Before(t, s))
  {
    if s != [] && t != [] && s[0] == t[0] {
      BeforeIsTotal(s[1..], t[1..]);
      assert s == [s[0]] + s[1..] && t == [t[0]] + t[1..];
    }
  }

  lemma {:induction false} BeforeFollows(s: string, t: string, u: string)
    requires Before(s, t) && Before(t, u)
    ensures Before(s, u)
  {
    if s != [] && s[0] == t[0] == u[0] {
      BeforeFollows(s[1..], t[1..], u[1..]);
    }
  }

  /** In fewer phrases, or in as many and the same word or alphabetically before. */
  ghost predicate AtLeastAsRare(phrases: seq<Phrase>, s: Token, t: Token) {
    var x, y := |Holders(phrases, s)|, |Holders(phrases, t)|;
    x < y || (x == y && (s == t || SpeltBefore(s, t)))
  }

  lemma RarerIs(phrases: seq<Phrase>, s: Token, t: Token)
    ensures AtLeastAsRare(phrases, s, t) <==> s == t || Rarer(phrases, s, t)
  {
    DfIs(phrases, s);
    DfIs(phrases, t);
    BeforeIs(s, t);
  }

  lemma RarerFollows(phrases: seq<Phrase>, s: Token, t: Token, u: Token)
    requires Rarer(phrases, s, t) && (t == u || Rarer(phrases, t, u))
    ensures Rarer(phrases, s, u)
  {
    if Before(s, t) && t != u && Before(t, u) {
      BeforeFollows(s, t, u);
    }
  }

  lemma RarerOrNot(phrases: seq<Phrase>, s: Token, t: Token)
    ensures s == t || Rarer(phrases, s, t) || Rarer(phrases, t, s)
  {
    BeforeIsTotal(s, t);
  }

  lemma {:induction false} RarestIs(phrases: seq<Phrase>, tokens: seq<Token>, t: Token)
    requires t in tokens
    ensures Rarest(phrases, tokens) == t || Rarer(phrases, Rarest(phrases, tokens), t)
    decreases |tokens|
  {
    if |tokens| > 1 {
      var front, last := tokens[..|tokens| - 1], tokens[|tokens| - 1];
      var best := Rarest(phrases, front);
      if t in front {
        RarestIs(phrases, front, t);
        if Rarer(phrases, last, best) {
          RarerFollows(phrases, last, best, t);
        }
      } else {
        assert t == last;
        RarerOrNot(phrases, best, last);
      }
    }
  }

  /** A token of the phrase that is no stopword and that twelve phrases at most contain. */
  ghost predicate Telling(lex: Lexicon, phrases: seq<Phrase>, p: Phrase, t: Token) {
    t in p.tokens && t !in lex.stopwords && |Holders(phrases, t)| <= 12
  }

  /** A phrase's triggers are its telling tokens, or if it has none its rarest one, the first by spelling of those. */
  lemma TriggersAre(lex: Lexicon, phrases: seq<Phrase>, p: Phrase, t: Token)
    requires p.tokens != []
    ensures t in Triggers(lex, phrases, p) <==>
              if exists u :: Telling(lex, phrases, p, u) then Telling(lex, phrases, p, t)
              else t in p.tokens && forall u :: u in p.tokens ==> AtLeastAsRare(phrases, t, u)
  {
    forall u ensures u in Distinctive(lex, phrases, p) <==> Telling(lex, phrases, p, u) {
      DfIs(phrases, u);
    }
    if Distinctive(lex, phrases, p) == {} {
      var r := Rarest(phrases, p.tokens);
      forall u | u in p.tokens ensures AtLeastAsRare(phrases, r, u) {
        RarestIs(phrases, p.tokens, u);
        RarerIs(phrases, r, u);
      }
      if t in p.tokens && t != r && AtLeastAsRare(phrases, t, r) {
        RarerIs(phrases, t, r);
        RarerIs(phrases, r, t);
        BeforeIsTotal(r, t);
      }
    }
  }

  /** Spelt alike, or sounding alike where the sound says more than the spelling. */
  predicate HeardAs(lex: Lexicon, heard: Token, t: Token) {
    heard == t
    || (lex.soundOf(heard) == lex.soundOf(t) && lex.soundOf(t) != "" && lex.soundOf(t) != t)
  }

  lemma WokenByIff(c: Config, heard: Token, pos: nat)
    requires Loadable(c.phrases) && IndexOf(c.lex, c.phrases, c.index)
    ensures pos in WokenBy(c, heard) <==>
              pos < |c.phrases|
              && exists t :: t in Triggers(c.lex, c.phrases, c.phrases[pos]) && HeardAs(c.lex, heard, t)
  {
    var sound := c.lex.soundOf(heard);
    if pos in Filed(c.index, Literal(heard)) {
      var t :| t in Triggers(c.lex, c.phrases, c.phrases[pos]) && Literal(heard) in KeysOf(c.lex, t);
      assert HeardAs(c.lex, heard, t);
    }
    if sound != "" && pos in Filed(c.index, Sound(sound)) {
      var t :| t in Triggers(c.lex, c.phrases, c.phrases[pos]) && Sound(sound) in KeysOf(c.lex, t);
      assert HeardAs(c.lex, heard, t);
    }
    if pos < |c.phrases| {
      forall t | t in Triggers(c.lex, c.phrases, c.phrases[pos]) && HeardAs(c.lex, heard, t)
        ensures pos in WokenBy(c, heard)
      {
        if heard == t {
          assert Literal(heard) in KeysOf(c.lex, t);
          assert Wakes(c.lex, c.phrases, pos, Literal(heard));
        } else {
          assert Sound(sound) in KeysOf(c.lex, t);
          assert Wakes(c.lex, c.phrases, pos, Sound(sound));
        }
      }
    }
  }

  /** Four, or one more than the tokens of the longest phrase if that is more. */
  lemma {:induction false} MaxSpanIs(phrases: seq<Phrase>)
    ensures MaxSpan(phrases) >= 4 && forall p :: p in phrases ==> MaxSpan(phrases) >= |p.tokens| + 1
    ensures MaxSpan(phrases) == 4 || exists p :: p in phrases && MaxSpan(phrases) == |p.tokens| + 1
    decreases |phrases|
  {
    if phrases != [] {
      var front, last := phrases[..|phrases| - 1], phrases[|phrases| - 1];
      MaxSpanIs(front);
      assert phrases == front + [last];
    }
  }

  /** The token is among those looked at: it stands no further before the new ones than the widest span. */
  ghost predicate LookedAt(c: Config, tokens: seq<Token>, since: nat, i: int) {
    0 <= i < |tokens| && i + MaxSpan(c.phrases) >= since
  }

  /** A phrase is woken exactly if some token looked at is heard as one of its triggers. */
  lemma WhoIsWoken(c: Config, tokens: seq<Token>, since: nat, pos: nat)
    requires Loadable(c.phrases) && IndexOf(c.lex, c.phrases, c.index)
    ensures Woken(c, tokens, since, pos) <==>
              pos < |c.phrases|
              && exists i, t :: LookedAt(c, tokens, since, i) && t in Triggers(c.lex, c.phrases, c.phrases[pos])
                                && HeardAs(c.lex, tokens[i], t)
  {
    if Woken(c, tokens, since, pos) {
      var i :| ScanFrom(c, since) <= i < |tokens| && pos in WokenBy(c, tokens[i]);
      WokenByIff(c, tokens[i], pos);
      assert LookedAt(c, tokens, since, i);
    }
    if pos < |c.phrases| {
      forall i, t | LookedAt(c, tokens, since, i) && t in Triggers(c.lex, c.phrases, c.phrases[pos])
                    && HeardAs(c.lex, tokens[i], t)
        ensures Woken(c, tokens, since, pos)
      {
        WokenByIff(c, tokens[i], pos);
      }
    }
  }
}
