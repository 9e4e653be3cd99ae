/** From text to tokens: lower case, markers and apostrophes out, everything else a gap, number words folded. */
module Normalize {
  import opened Common

  type Token = string

  const NumberWords: map<string, string> := map[
    "zero" := "0", "oh" := "0", "one" := "1", "two" := "2", "three" := "3", "four" := "4", "five" := "5",
    "six" := "6", "seven" := "7", "eight" := "8", "nine" := "9", "ten" := "10", "eleven" := "11",
    "twelve" := "12", "thirteen" := "13", "fourteen" := "14", "fifteen" := "15", "sixteen" := "16",
    "seventeen" := "17", "eighteen" := "18", "nineteen" := "19", "twenty" := "20", "thirty" := "30",
    "forty" := "40", "fifty" := "50", "sixty" := "60", "seventy" := "70", "eighty" := "80", "ninety" := "90",
    "hundred" := "100", "thousand" := "1000"]

  /** What the recogniser prints for audio outside its grammar. */
  const Unknown := "[unk]"

  predicate WordChar(c: char) {
    'a' <= c <= 'z' || '0' <= c <= '9'
  }

  predicate Apostrophe(c: char) {
    c == '\'' || c == '\U{2019}' || c == '`'
  }

  /** Every unknown marker becomes a gap. */
  function Unmarked(s: string): string {
    if s == "" then ""
    else if Unknown <= s then " " + Unmarked(s[|Unknown|..])
    else [s[0]] + Unmarked(s[1..])
  }

  function CleanedChar(c: char): string {
    if Apostrophe(c) then "" else if WordChar(c) then [c] else " "
  }

  /** Apostrophes vanish, so that a contraction stays one word; any other stray character is a gap. */
  function Cleaned(s: string): string {
    if s == "" then ""
    else CleanedChar(s[0]) + Cleaned(s[1..])
  }

  function FirstWord(s: string): (w: string)
    ensures w <= s && (s != "" && s[0] != ' ' ==> w != "")
  {
    if s == "" || s[0] == ' ' then "" else [s[0]] + FirstWord(s[1..])
  }

  function Words(s: string): seq<Token>
    decreases |s|
  {
    if s == "" then []
    else if s[0] == ' ' then Words(s[1..])
    else [FirstWord(s)] + Words(s[|FirstWord(s)|..])
  }

  function Fold(t: Token): Token {
    if t in NumberWords then NumberWords[t] else t
  }

  function FoldAll(ts: seq<Token>): seq<Token> {
    if ts == [] then [] else [Fold(ts[0])] + FoldAll(ts[1..])
  }

  function Tokens(text: string): seq<Token> {
    FoldAll(Words(Cleaned(Unmarked(Lower(text)))))
  }

  // ---- Text is normalised utterance by utterance ----

  /** What is left of a text behind its first `n` characters, when something else follows it. */
  lemma Behind<T>(a: seq<T>, b: seq<T>, n: nat)
    requires n <= |a|
    ensures (a + b)[n..] == a[n..] + b
  {
  }

  lemma {:induction false} LowerJoins(a: string, b: string)
    ensures Lower(a + b) == Lower(a) + Lower(b)
  {
    if a == "" {
      assert a + b == b;
    } else {
      LowerJoins(a[1..], b);
      Behind(a, b, 1);
      Associates(Lower(a[..1]), Lower(a[1..]), Lower(b));
      assert (a + b)[0] == a[0] && a[..1][1..] == "";
    }
  }

  lemma {:induction false} CleanedJoins(a: string, b: string)
    ensures Cleaned(a + b) == Cleaned(a) + Cleaned(b)
  {
    if a == "" {
      assert a + b == b;
    } else {
      CleanedJoins(a[1..], b);
      Behind(a, b, 1);
      Associates(CleanedChar(a[0]), Cleaned(a[1..]), Cleaned(b));
    }
  }

  /** A marker does not reach across a gap. */
  lemma NoMarkerAcross(a: string, b: string)
    ensures Unknown <= a + " " + b <==> Unknown <= a
  {
    var whole := a + " " + b;
    if |a| < |Unknown| {
      assert whole[|a|] == ' ' && Unknown[|a|] != ' ';
    } else {
      assert whole[..|Unknown|] == a[..|Unknown|];
    }
  }

  lemma GapAfter(a: string, b: string, n: nat)
    requires n <= |a|
    ensures (a + " " + b)[n..] == a[n..] + " " + b
  {
    Associates(a, " ", b);
    Behind(a, " " + b, n);
    Associates(a[n..], " ", b);
  }

  lemma Regap(x: string, y: string, z: string)
    ensures x + (y + " " + z) == (x + y) + " " + z
  {
    Associates(x, y + " ", z);
    Associates(x, y, " ");
  }

  lemma {:induction false} UnmarkedJoins(a: string, b: string)
    ensures Unmarked(a + " " + b) == Unmarked(a) + " " + Unmarked(b)
    decreases |a|
  {
    NoMarkerAcross(a, b);
    if a == "" {
      GapAfter(a, b, 0);
      assert (" " + b)[1..] == b;
    } else if Unknown <= a {
      UnmarkedJoins(a[|Unknown|..], b);
      GapAfter(a, b, |Unknown|);
      Regap(" ", Unmarked(a[|Unknown|..]), Unmarked(b));
    } else {
      UnmarkedJoins(a[1..], b);
      GapAfter(a, b, 1);
      Regap([a[0]], Unmarked(a[1..]), Unmarked(b));
    }
  }

  lemma {:induction false} FirstWordStops(a: string, b: string)
    ensures FirstWord(a + " " + b) == FirstWord(a)
    decreases |a|
  {
    if a != "" && a[0] != ' ' {
      FirstWordStops(a[1..], b);
      GapAfter(a, b, 1);
    }
  }

  lemma {:induction false} WordsJoin(a: string, b: string)
    ensures Words(a + " " + b) == Words(a) + Words(b)
    decreases |a|
  {
    if a == "" {
      assert ("" + " " + b)[1..] == b;
    } else if a[0] == ' ' {
      WordsJoin(a[1..], b);
      GapAfter(a, b, 1);
    } else {
      var w := FirstWord(a);
      FirstWordStops(a, b);
      WordsJoin(a[|w|..], b);
      GapAfter(a, b, |w|);
      Associates([w], Words(a[|w|..]), Words(b));
    }
  }

  lemma {:induction false} FoldAllJoins(a: seq<Token>, b: seq<Token>)
    ensures FoldAll(a + b) == FoldAll(a) + FoldAll(b)
  {
    if a == [] {
      assert a + b == b;
    } else {
      FoldAllJoins(a[1..], b);
      Behind(a, b, 1);
      Associates([Fold(a[0])], FoldAll(a[1..]), FoldAll(b));
    }
  }

  /** Normalising two utterances said one after the other is normalising each: cuts between words change nothing. */
  lemma TokensJoin(a: string, b: string)
    ensures Tokens(a + " " + b) == Tokens(a) + Tokens(b)
  {
    LowerJoins(a, " " + b);
    LowerJoins(" ", b);
    assert a + " " + b == a + (" " + b);
    assert Lower(" ") == " ";
    assert Lower(a) + (" " + Lower(b)) == Lower(a) + " " + Lower(b);
    var x, y := Lower(a), Lower(b);
    UnmarkedJoins(x, y);
    var u, v := Unmarked(x), Unmarked(y);
    CleanedJoins(u + " ", v);
    CleanedJoins(u, " ");
    assert Cleaned(" ") == " ";
    WordsJoin(Cleaned(u), Cleaned(v));
    FoldAllJoins(Words(Cleaned(u)), Words(Cleaned(v)));
  }

  /** Utterances one after the other, as one text. */
  function Transcript(utterances: seq<string>): string {
    if utterances == [] then "" else Transcript(utterances[..|utterances| - 1]) + " " + utterances[|utterances| - 1]
  }

  /** The tokens a call accumulates, utterance by utterance. */
  function History(utterances: seq<string>): seq<Token> {
    if utterances == [] then [] else History(utterances[..|utterances| - 1]) + Tokens(utterances[|utterances| - 1])
  }

  /** However the speech is cut between words, the token history is that of the whole transcript. */
  lemma {:induction false} CutsAreInvisible(utterances: seq<string>)
    ensures History(utterances) == Tokens(Transcript(utterances))
    decreases |utterances|
  {
    if utterances != [] {
      CutsAreInvisible(utterances[..|utterances| - 1]);
      TokensJoin(Transcript(utterances[..|utterances| - 1]), utterances[|utterances| - 1]);
    }
  }

  // ---- Tokens are words, and normalising them again changes nothing ----

  predicate Word(t: Token) {
    t != "" && forall i :: 0 <= i < |t| ==> WordChar(t[i])
  }

  predicate Sayable(s: string) {
    forall i :: 0 <= i < |s| ==> WordChar(s[i]) || s[i] == ' '
  }

  lemma {:induction false} CleanedIsSayable(s: string)
    ensures Sayable(Cleaned(s))
  {
    if s != "" {
      CleanedIsSayable(s[1..]);
    }
  }

  lemma {:induction false} FirstWordIsAWord(s: string)
    requires Sayable(s) && s != "" && s[0] != ' '
    ensures Word(FirstWord(s))
  {
    if |s| > 1 && s[1] != ' ' {
      FirstWordIsAWord(s[1..]);
    } else {
      assert FirstWord(s) == [s[0]];
    }
  }

  lemma {:induction false} WordsAreWords(s: string)
    requires Sayable(s)
    ensures forall t :: t in Words(s) ==> Word(t)
    decreases |s|
  {
    if s != "" {
      if s[0] == ' ' {
        WordsAreWords(s[1..]);
      } else {
        FirstWordIsAWord(s);
        WordsAreWords(s[|FirstWord(s)|..]);
      }
    }
  }

  predicate Numeral(t: Token) {
    t != "" && forall i :: 0 <= i < |t| ==> '0' <= t[i] <= '9'
  }

  lemma NumbersAreSpelled(t: Token)
    requires t in NumberWords
    ensures t != "" && 'a' <= t[0] <= 'z'
  {
  }

  lemma NumbersFoldToNumerals(t: Token)
    requires t in NumberWords
    ensures Numeral(NumberWords[t])
  {
  }

  lemma FoldedIsFinal(t: Token)
    ensures Word(t) ==> Word(Fold(t))
    ensures Fold(Fold(t)) == Fold(t)
  {
    if t in NumberWords {
      var n := NumberWords[t];
      NumbersFoldToNumerals(t);
      if n in NumberWords {
        NumbersAreSpelled(n);
      }
    }
  }

  lemma {:induction false} FoldAllIsFinal(ts: seq<Token>)
    ensures FoldAll(FoldAll(ts)) == FoldAll(ts)
    ensures (forall t :: t in ts ==> Word(t)) ==> forall t :: t in FoldAll(ts) ==> Word(t)
  {
    if ts != [] {
      FoldedIsFinal(ts[0]);
      FoldAllIsFinal(ts[1..]);
    }
  }

  /** Every token is a nonempty word of lower-case letters and digits. */
  lemma TokensAreWords(text: string)
    ensures forall t :: t in Tokens(text) ==> Word(t)
  {
    var s := Cleaned(Unmarked(Lower(text)));
    CleanedIsSayable(Unmarked(Lower(text)));
    WordsAreWords(s);
    FoldAllIsFinal(Words(s));
  }

  function Spoken(ts: seq<Token>): string {
    if ts == [] then "" else ts[0] + " " + Spoken(ts[1..])
  }

  lemma {:induction false} CharsStay(t: string)
    requires forall i :: 0 <= i < |t| ==> WordChar(t[i])
    ensures Lower(t) == t && Unmarked(t) == t && Cleaned(t) == t && FirstWord(t) == t
  {
    if t != "" {
      CharsStay(t[1..]);
      assert t == [t[0]] + t[1..];
    }
  }

  lemma WordStays(t: Token)
    requires Word(t)
    ensures Tokens(t) == [Fold(t)]
  {
    CharsStay(t);
    assert Words(t) == [t] + Words(t[|t|..]);
    assert FoldAll([t]) == [Fold(t)] + FoldAll([t][1..]);
  }

  lemma {:induction false} SpokenWordsStay(ts: seq<Token>)
    requires forall t :: t in ts ==> Word(t)
    ensures Tokens(Spoken(ts)) == FoldAll(ts)
  {
    if ts != [] {
      TokensJoin(ts[0], Spoken(ts[1..]));
      WordStays(ts[0]);
      SpokenWordsStay(ts[1..]);
    }
  }

  /** The corpus and the transcript meet: saying the tokens of a text gives the same tokens again. */
  lemma NormalizingTwiceIsOnce(text: string)
    ensures Tokens(Spoken(Tokens(text))) == Tokens(text)
  {
    TokensAreWords(text);
    SpokenWordsStay(Tokens(text));
    FoldAllIsFinal(Words(Cleaned(Unmarked(Lower(text)))));
  }
}
