/** The phrase corpus and the inverted index that decides which phrases a transcript wakes. */
module Corpus {
  import Normalize

  type Token = Normalize.Token

  datatype Anchor = Brand | Pair | Seq

  datatype Tier = A | B | C | X

  datatype Phrase = Phrase(tier: Tier, category: string, anchor: Anchor, tokens: seq<Token>, row: nat)

  /** Pronunciation and word lists: given, and the same on both sides of every comparison. */
  datatype Lexicon = Lexicon(soundOf: string -> string, soundsLike: (string, string) -> bool,
                             stopwords: set<Token>, common: set<Token>)

  /** Index keys: a literal spelling, or a pronunciation. */
  datatype Key = Literal(token: Token) | Sound(code: string)

  const TRIGGER_DF_MAX: nat := 12

  function TokenSet(p: Phrase): set<Token> {
    set t | t in p.tokens
  }

  /** How many phrases contain the token. */
  function Df(phrases: seq<Phrase>, t: Token): nat {
    if phrases == [] then 0
    else Df(phrases[..|phrases| - 1], t) + if t in phrases[|phrases| - 1].tokens then 1 else 0
  }

  predicate Before(s: string, t: string) {
    t != [] && (s == [] || s[0] < t[0] || (s[0] == t[0] && Before(s[1..], t[1..])))
  }

  /** `s` is rarer than `t`; ties go to the lesser spelling. */
  predicate Rarer(phrases: seq<Phrase>, s: Token, t: Token) {
    Df(phrases, s) < Df(phrases, t) || (Df(phrases, s) == Df(phrases, t) && Before(s, t))
  }

  function Rarest(phrases: seq<Phrase>, tokens: seq<Token>): (r: Token)
    requires tokens != []
    ensures r in tokens
  {
    if |tokens| == 1 then tokens[0]
    else
      var best := Rarest(phrases, tokens[..|tokens| - 1]);
      if Rarer(phrases, tokens[|tokens| - 1], best) then tokens[|tokens| - 1] else best
  }

  function Distinctive(lex: Lexicon, phrases: seq<Phrase>, p: Phrase): set<Token> {
    set t | t in p.tokens && t !in lex.stopwords && Df(phrases, t) <= TRIGGER_DF_MAX
  }

  /** The tokens that wake a phrase: its distinctive ones, or failing any, its rarest. */
  function Triggers(lex: Lexicon, phrases: seq<Phrase>, p: Phrase): set<Token>
    requires p.tokens != []
  {
    if Distinctive(lex, phrases, p) != {} then Distinctive(lex, phrases, p) else {Rarest(phrases, p.tokens)}
  }

  /** The keys one trigger is filed under: its spelling, and its pronunciation if that says anything more. */
  function KeysOf(lex: Lexicon, t: Token): set<Key> {
    {Literal(t)} + if lex.soundOf(t) != "" && lex.soundOf(t) != t then {Sound(lex.soundOf(t))} else {}
  }

  predicate Loadable(phrases: seq<Phrase>) {
    forall p :: p in phrases ==> p.tokens != [] && forall t :: t in p.tokens ==> t != ""
  }

  ghost predicate Wakes(lex: Lexicon, phrases: seq<Phrase>, pos: nat, k: Key)
    requires Loadable(phrases)
  {
    pos < |phrases| && exists t :: t in Triggers(lex, phrases, phrases[pos]) && k in KeysOf(lex, t)
  }

  type Index = map<Key, set<nat>>

  function Filed(index: Index, k: Key): set<nat> {
    if k in index then index[k] else {}
  }

  ghost predicate IndexesFirst(lex: Lexicon, phrases: seq<Phrase>, n: nat, index: Index)
    requires Loadable(phrases)
  {
    forall k, pos: nat :: pos in Filed(index, k) <==> pos < n && Wakes(lex, phrases, pos, k)
  }

  ghost predicate IndexOf(lex: Lexicon, phrases: seq<Phrase>, index: Index)
    requires Loadable(phrases)
  {
    forall k, pos: nat :: pos in Filed(index, k) <==> Wakes(lex, phrases, pos, k)
  }

  method CountTokens(phrases: seq<Phrase>) returns (df: map<Token, nat>)
    ensures forall t :: (if t in df then df[t] else 0) == Df(phrases, t)
  {
    df := map[];
    for k := 0 to |phrases|
      invariant forall t :: (if t in df then df[t] else 0) == Df(phrases[..k], t)
    {
      var before := df;
      var todo := TokenSet(phrases[k]);
      assert phrases[..k + 1][..k] == phrases[..k];
      while todo != {}
        invariant todo <= TokenSet(phrases[k])
        invariant forall t :: (if t in df then df[t] else 0)
                              == Df(phrases[..k], t) + if t in phrases[k].tokens && t !in todo then 1 else 0
        decreases todo
      {
        var t :| t in todo;
        df := df[t := (if t in df then df[t] else 0) + 1];
        todo := todo - {t};
      }
    }
    assert phrases[..|phrases|] == phrases;
  }

  /** File one phrase under every key of every trigger. */
  method FilePhrase(lex: Lexicon, pos: nat, triggers: set<Token>, start: Index) returns (index: Index)
    ensures forall k, q: nat :: q in Filed(index, k) <==>
              q in Filed(start, k) || (q == pos && exists t :: t in triggers && k in KeysOf(lex, t))
  {
    index := start;
    var todo := triggers;
    while todo != {}
      invariant todo <= triggers
      invariant forall k, q: nat :: q in Filed(index, k) <==>
                  q in Filed(start, k) || (q == pos && exists t :: t in triggers - todo && k in KeysOf(lex, t))
      decreases todo
    {
      var t :| t in todo;
      ghost var done, had := triggers - todo, index;
      index := index[Literal(t) := Filed(index, Literal(t)) + {pos}];
      var sound := lex.soundOf(t);
      if sound != "" && sound != t {
        index := index[Sound(sound) := Filed(index, Sound(sound)) + {pos}];
      }
      todo := todo - {t};
      assert forall k, q: nat :: q in Filed(index, k) <==> q in Filed(had, k) || (q == pos && k in KeysOf(lex, t));
      assert triggers - todo == done + {t};
    }
    assert triggers - todo == triggers;
  }

  /** The index wakes a phrase for exactly the keys of its triggers. */
  method BuildIndex(lex: Lexicon, phrases: seq<Phrase>) returns (index: Index)
    requires Loadable(phrases)
    ensures IndexOf(lex, phrases, index)
  {
    var df := CountTokens(phrases);
    index := map[];
    for pos := 0 to |phrases|
      invariant IndexesFirst(lex, phrases, pos, index)
    {
      var p := phrases[pos];
      var triggers := set t | t in p.tokens && t !in lex.stopwords && (if t in df then df[t] else 0) <= TRIGGER_DF_MAX;
      assert triggers == Distinctive(lex, phrases, p);
      if triggers == {} {
        triggers := {Rarest(phrases, p.tokens)};
      }
      index := FilePhrase(lex, pos, triggers, index);
    }
  }

  /** Every phrase has a trigger, and it is one of its own tokens. */
  lemma HasTrigger(lex: Lexicon, phrases: seq<Phrase>, p: Phrase) returns (t: Token)
    requires p.tokens != []
    ensures t in p.tokens && t in Triggers(lex, phrases, p)
  {
    var d := Distinctive(lex, phrases, p);
    if d != {} {
      t :| t in d;
    } else {
      t := Rarest(phrases, p.tokens);
    }
  }

  /** No phrase is dead: an index built from the corpus wakes each one on a token of its own text. */
  lemma EveryPhraseCanWake(lex: Lexicon, phrases: seq<Phrase>, index: Index, pos: nat)
    requires Loadable(phrases) && pos < |phrases| && IndexOf(lex, phrases, index)
    ensures exists t :: t in phrases[pos].tokens && pos in Filed(index, Literal(t))
  {
    var t := HasTrigger(lex, phrases, phrases[pos]);
    assert Literal(t) in KeysOf(lex, t);
    assert Wakes(lex, phrases, pos, Literal(t));
  }

  /** One token more than the longest phrase, and at least four: the reach of an incremental call. */
  function MaxSpan(phrases: seq<Phrase>): nat {
    if phrases == [] then 4
    else
      var front := MaxSpan(phrases[..|phrases| - 1]);
      var own := |phrases[|phrases| - 1].tokens| + 1;
      if front < own then own else front
  }

  lemma {:induction false} MaxSpanCovers(phrases: seq<Phrase>, p: Phrase)
    requires p in phrases
    ensures MaxSpan(phrases) >= |p.tokens| + 1
    decreases |phrases|
  {
    if p != phrases[|phrases| - 1] {
      assert p in phrases[..|phrases| - 1];
      MaxSpanCovers(phrases[..|phrases| - 1], p);
    }
  }
}
