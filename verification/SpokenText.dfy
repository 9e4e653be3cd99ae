/** What becomes of each kind of character and word in a text: laws that settle the tokens of all ordinary speech. */
module SpokenText {
  import opened Common
  import opened Normalize

  /** No unknown marker can begin in the text. */
  predicate NoBracket(s: string) {
    '[' !in s
  }

  lemma {:induction false} LowerKeepsBrackets(s: string)
    requires NoBracket(s)
    ensures NoBracket(Lower(s))
  {
    if s != "" {
      LowerKeepsBrackets(s[1..]);
      assert s == [s[0]] + s[1..];
    }
  }

  lemma {:induction false} NothingUnmarked(s: string)
    requires NoBracket(s)
    ensures Unmarked(s) == s
  {
    if s != "" {
      NothingUnmarked(s[1..]);
      assert s == [s[0]] + s[1..];
    }
  }

  lemma TokensOf(s: string)
    requires NoBracket(s)
    ensures Tokens(s) == FoldAll(Words(Cleaned(Lower(s))))
  {
    LowerKeepsBrackets(s);
    NothingUnmarked(Lower(s));
  }

  lemma CleanedAround(a: string, c: char, b: string)
    ensures Cleaned(Lower(a + [c] + b)) == Cleaned(Lower(a)) + Cleaned(Lower([c])) + Cleaned(Lower(b))
  {
    LowerJoins(a + [c], b);
    LowerJoins(a, [c]);
    CleanedJoins(Lower(a) + Lower([c]), Lower(b));
    CleanedJoins(Lower(a), Lower([c]));
  }

  lemma CleanedPair(a: string, b: string)
    ensures Cleaned(Lower(a + b)) == Cleaned(Lower(a)) + Cleaned(Lower(b))
  {
    LowerJoins(a, b);
    CleanedJoins(Lower(a), Lower(b));
  }

  lemma OneCleaned(c: char)
    ensures Cleaned([c]) == CleanedChar(c)
  {
    assert [c][1..] == "";
    assert CleanedChar(c) + "" == CleanedChar(c);
  }

  lemma OneLower(c: char)
    ensures Lower([c]) == [if 'A' <= c <= 'Z' then c - 'A' + 'a' else c]
  {
    assert [c][1..] == "";
  }

  lemma NothingBetween(x: string, y: string)
    ensures x + "" + y == x + y
  {
  }

  lemma CleanedWithout(a: string, c: char, b: string)
    requires c == '\'' || c == '\U{2019}' || c == '`'
    ensures Cleaned(Lower(a + [c] + b)) == Cleaned(Lower(a + b))
  {
    OneLower(c);
    OneCleaned(c);
    CleanedAround(a, c, b);
    CleanedPair(a, b);
    NothingBetween(Cleaned(Lower(a)), Cleaned(Lower(b)));
  }

  /** An apostrophe of any of three kinds leaves no trace: a contraction is one word. */
  lemma ApostrophesVanish(a: string, c: char, b: string)
    requires NoBracket(a) && NoBracket(b)
    requires c == '\'' || c == '\U{2019}' || c == '`'
    ensures Tokens(a + [c] + b) == Tokens(a + b)
  {
    CleanedWithout(a, c, b);
    TokensOf(a + [c] + b);
    TokensOf(a + b);
  }

  /** Any other character that is neither letter nor digit parts what is before it from what is behind it. */
  lemma OthersPart(a: string, c: char, b: string)
    requires NoBracket(a) && NoBracket(b) && c != '['
    requires !('a' <= c <= 'z' || 'A' <= c <= 'Z' || '0' <= c <= '9')
    requires c != '\'' && c != '\U{2019}' && c != '`'
    ensures Tokens(a + [c] + b) == Tokens(a) + Tokens(b)
  {
    OneLower(c);
    OneCleaned(c);
    CleanedAround(a, c, b);
    WordsJoin(Cleaned(Lower(a)), Cleaned(Lower(b)));
    FoldAllJoins(Words(Cleaned(Lower(a))), Words(Cleaned(Lower(b))));
    TokensOf(a + [c] + b);
    TokensOf(a);
    TokensOf(b);
  }

  lemma {:induction false} UnmarkedBehind(a: string, rest: string)
    requires NoBracket(a)
    ensures Unmarked(a + rest) == a + Unmarked(rest)
    decreases |a|
  {
    if a == "" {
      assert a + rest == rest;
    } else {
      UnmarkedBehind(a[1..], rest);
      Behind(a, rest, 1);
      assert (a + rest)[0] == a[0] != Unknown[0];
      Associates([a[0]], a[1..], Unmarked(rest));
      assert a == [a[0]] + a[1..];
    }
  }

  lemma UnmarkedAround(a: string, b: string)
    requires NoBracket(a) && NoBracket(b)
    ensures Unmarked(a + "[unk]" + b) == a + " " + b
  {
    Behind(Unknown, b, |Unknown|);
    assert Unmarked("[unk]" + b) == " " + Unmarked(b);
    NothingUnmarked(b);
    UnmarkedBehind(a, "[unk]" + b);
    Associates(a, "[unk]", b);
    Associates(a, " ", b);
  }

  lemma GapInWords(x: string, y: string)
    ensures FoldAll(Words(Cleaned(x + " " + y))) == FoldAll(Words(Cleaned(x))) + FoldAll(Words(Cleaned(y)))
  {
    CleanedJoins(x + " ", y);
    CleanedJoins(x, " ");
    OneCleaned(' ');
    WordsJoin(Cleaned(x), Cleaned(y));
    FoldAllJoins(Words(Cleaned(x)), Words(Cleaned(y)));
  }

  /** The marker for unknown audio is a gap, in either case. */
  lemma MarkersPart(a: string, m: string, b: string)
    requires NoBracket(a) && NoBracket(b) && Lower(m) == "[unk]"
    ensures Tokens(a + m + b) == Tokens(a) + Tokens(b)
  {
    LowerKeepsBrackets(a);
    LowerKeepsBrackets(b);
    LowerJoins(a + m, b);
    LowerJoins(a, m);
    UnmarkedAround(Lower(a), Lower(b));
    GapInWords(Lower(a), Lower(b));
    TokensOf(a);
    TokensOf(b);
  }

  predicate Alphanumeric(w: string) {
    forall i :: 0 <= i < |w| ==> 'a' <= w[i] <= 'z' || 'A' <= w[i] <= 'Z' || '0' <= w[i] <= '9'
  }

  lemma {:induction false} LowerOfWord(w: string)
    requires Alphanumeric(w)
    ensures |Lower(w)| == |w| && NoBracket(w) && forall i :: 0 <= i < |w| ==> WordChar(Lower(w)[i])
    ensures Lower(Lower(w)) == Lower(w)
  {
    if w != "" {
      LowerOfWord(w[1..]);
      var low := Lower(w);
      assert low[1..] == Lower(w[1..]);
      assert w == [w[0]] + w[1..];
    }
  }

  /** Letters and digits in a row are one token: in lower case, or the numeral if they spell a number. */
  lemma AWordIsAToken(w: string)
    requires w != "" && Alphanumeric(w)
    ensures Tokens(w) == [if Lower(w) in NumberWords then NumberWords[Lower(w)] else Lower(w)]
  {
    LowerOfWord(w);
    WordStays(Lower(w));
    TokensOf(w);
    TokensOf(Lower(w));
  }

  const Units: seq<string> :=
    ["zero", "one", "two", "three", "four", "five", "six", "seven", "eight", "nine"]

  const Teens: seq<string> :=
    ["ten", "eleven", "twelve", "thirteen", "fourteen", "fifteen", "sixteen", "seventeen", "eighteen", "nineteen"]

  const Tens: seq<string> := ["twenty", "thirty", "forty", "fifty", "sixty", "seventy", "eighty", "ninety"]

  function Digit(i: nat): string
    requires i < 10
  {
    ["0123456789"[i]]
  }

  lemma UnitsFold(i: nat)
    requires i < 10
    ensures Fold(Units[i]) == Digit(i)
  {
  }

  lemma TeensFold(i: nat)
    requires i < 10
    ensures Fold(Teens[i]) == "1" + Digit(i)
  {
  }

  lemma TensFold(i: nat)
    requires i < 8
    ensures Fold(Tens[i]) == Digit(i + 2) + "0"
  {
  }

  lemma OthersFold()
    ensures Fold("oh") == "0" && Fold("hundred") == "100" && Fold("thousand") == "1000"
  {
  }

  lemma NumberWordsAre(w: string)
    ensures w in NumberWords <==>
            w in Units || w in Teens || w in Tens || w == "oh" || w == "hundred" || w == "thousand"
  {
  }

  /** Number words fold to the numerals of their values, and no other words do. */
  lemma NumbersByPlace()
    ensures forall w :: w in NumberWords <==>
                          w in Units || w in Teens || w in Tens || w == "oh" || w == "hundred" || w == "thousand"
    ensures forall i: nat :: i < 10 ==> Fold(Units[i]) == Digit(i) && Fold(Teens[i]) == "1" + Digit(i)
    ensures forall i: nat :: i < 8 ==> Fold(Tens[i]) == Digit(i + 2) + "0"
    ensures Fold("oh") == "0" && Fold("hundred") == "100" && Fold("thousand") == "1000"
  {
    forall w
      ensures w in NumberWords <==>
              w in Units || w in Teens || w in Tens || w == "oh" || w == "hundred" || w == "thousand"
    {
      NumberWordsAre(w);
    }
    forall i: nat | i < 10 ensures Fold(Units[i]) == Digit(i) && Fold(Teens[i]) == "1" + Digit(i) {
      UnitsFold(i);
      TeensFold(i);
    }
    forall i: nat | i < 8 ensures Fold(Tens[i]) == Digit(i + 2) + "0" {
      TensFold(i);
    }
    OthersFold();
  }
}
