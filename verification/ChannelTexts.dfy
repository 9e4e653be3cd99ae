/** What the CLI's text says: the fields of a listing line, and the Call-ID in a channel's details. */
module ChannelTexts {
  import opened Common
  import opened Channels
  import opened TwinChannels

  // ---- White space ----

  /** Space, tab, line feed, vertical tab, form feed, carriage return. */
  const White: set<int> := {32, 9, 10, 11, 12, 13}

  predicate Blanks(s: string) {
    forall i :: 0 <= i < |s| ==> s[i] as int in White
  }

  /** Nothing to strip at either end. */
  predicate Trimmed(s: string) {
    s != "" ==> s[0] as int !in White && s[|s| - 1] as int !in White
  }

  lemma SpaceIff(c: char)
    ensures Space(c) <==> c as int in White
  {
  }

  lemma {:induction false} LeftBlanksGo(pad: string, s: string)
    requires Blanks(pad) && (s != "" ==> s[0] as int !in White)
    ensures LeftStrip(pad + s) == s
  {
    if pad + s != "" {
      SpaceIff((pad + s)[0]);
    }
    if pad == "" {
      assert pad + s == s;
    } else {
      assert (pad + s)[1..] == pad[1..] + s;
      LeftBlanksGo(pad[1..], s);
    }
  }

  lemma {:induction false} RightBlanksGo(s: string, pad: string)
    requires Blanks(pad) && (s != "" ==> s[|s| - 1] as int !in White)
    ensures RightStrip(s + pad) == s
    decreases |pad|
  {
    if s + pad != "" {
      SpaceIff((s + pad)[|s + pad| - 1]);
    }
    if pad == "" {
      assert s + pad == s;
    } else {
      assert (s + pad)[..|s + pad| - 1] == s + pad[..|pad| - 1];
      RightBlanksGo(s, pad[..|pad| - 1]);
    }
  }

  /** Stripping takes away the white space around a text and nothing else. */
  lemma StripIs(left: string, s: string, right: string)
    requires Blanks(left) && Blanks(right) && Trimmed(s)
    ensures Strip(left + s + right) == s
  {
    if s == "" {
      assert left + s + right == (left + right) + "";
      LeftBlanksGo(left + right, "");
    } else {
      assert left + s + right == left + (s + right);
      LeftBlanksGo(left, s + right);
      RightBlanksGo(s, right);
    }
  }

  // ---- A line of a listing ----

  function Joined(fields: seq<string>): string
    requires fields != []
  {
    if |fields| == 1 then fields[0] else fields[0] + ['!'] + Joined(fields[1..])
  }

  lemma {:induction false} SplitJoined(fields: seq<string>)
    requires fields != [] && forall k :: 0 <= k < |fields| ==> '!' !in fields[k]
    ensures Split(Joined(fields), '!') == fields
  {
    if |fields| == 1 {
      SplitWhole(fields[0], '!');
    } else {
      SplitAt(fields[0], Joined(fields[1..]), '!');
      SplitJoined(fields[1..]);
    }
  }

  lemma {:induction false} BeforeLastIs(a: string, b: string, sep: char)
    requires sep !in b
    ensures BeforeLast(a + [sep] + b, sep) == a
    decreases |b|
  {
    var s := a + [sep] + b;
    assert s[|a|] == sep;
    if b == "" {
      assert s[..|s| - 1] == a;
    } else {
      assert s[|s| - 1] == b[|b| - 1];
      assert s[..|s| - 1] == a + [sep] + b[..|b| - 1];
      BeforeLastIs(a, b[..|b| - 1], sep);
    }
  }

  lemma FieldsOfLine(left: string, fields: seq<string>, right: string)
    requires fields != [] && forall k :: 0 <= k < |fields| ==> '!' !in fields[k]
    requires Blanks(left) && Blanks(right) && Trimmed(Joined(fields))
    ensures Split(Strip(left + Joined(fields) + right), '!') == fields
  {
    StripIs(left, Joined(fields), right);
    SplitJoined(fields);
  }

  lemma RowFrom(c: Config, line: string, fields: seq<string>, body: string)
    requires |fields| >= 14 && Split(Strip(line), '!') == fields && fields[0] == c.prefix + body
    ensures RowOf(c, line) == Some(Row(c.prefix + body, fields[2], c.number(fields[11]), BeforeLast(body, '-')))
  {
    assert fields[0][|c.prefix|..] == body;
  }

  /**
   A line with fourteen fields or more whose first is a channel's name is a row: the number dialled is the third
   field, the age the twelfth, and the endpoint is the name without its prefix and without what follows its last dash.
   */
  lemma ALineIsItsFields(c: Config, left: string, fields: seq<string>, right: string, endpoint: string, serial: string)
    requires |fields| >= 14 && forall k :: 0 <= k < |fields| ==> '!' !in fields[k]
    requires Blanks(left) && Blanks(right) && Trimmed(Joined(fields))
    requires fields[0] == c.prefix + (endpoint + ['-'] + serial) && '-' !in serial
    ensures RowOf(c, left + Joined(fields) + right)
            == Some(Row(c.prefix + (endpoint + ['-'] + serial), fields[2], c.number(fields[11]), endpoint))
  {
    FieldsOfLine(left, fields, right);
    RowFrom(c, left + Joined(fields) + right, fields, endpoint + ['-'] + serial);
    BeforeLastIs(endpoint, serial, '-');
  }

  /** Without a dash, all that follows the prefix is the endpoint. */
  lemma ALineWithoutADash(c: Config, left: string, fields: seq<string>, right: string, endpoint: string)
    requires |fields| >= 14 && forall k :: 0 <= k < |fields| ==> '!' !in fields[k]
    requires Blanks(left) && Blanks(right) && Trimmed(Joined(fields))
    requires fields[0] == c.prefix + endpoint && '-' !in endpoint
    ensures RowOf(c, left + Joined(fields) + right)
            == Some(Row(c.prefix + endpoint, fields[2], c.number(fields[11]), endpoint))
  {
    FieldsOfLine(left, fields, right);
    RowFrom(c, left + Joined(fields) + right, fields, endpoint);
  }

  /** A line with fewer fields, or whose name has another prefix, is passed over. */
  lemma OtherLinesAreSkipped(c: Config, left: string, fields: seq<string>, right: string)
    requires fields != [] && forall k :: 0 <= k < |fields| ==> '!' !in fields[k]
    requires Blanks(left) && Blanks(right) && Trimmed(Joined(fields))
    ensures RowOf(c, left + Joined(fields) + right).None? <==> |fields| < 14 || !(c.prefix <= fields[0])
  {
    FieldsOfLine(left, fields, right);
  }

  /** A listing's rows are those of its lines, in order. */
  lemma {:induction false} RowsAre(c: Config, lines: seq<string>)
    ensures forall r :: r in Rows(c, lines) <==> exists k :: 0 <= k < |lines| && RowOf(c, lines[k]) == Some(r)
    decreases |lines|
  {
    if lines != [] {
      var front, last := lines[..|lines| - 1], lines[|lines| - 1];
      RowsAre(c, front);
      forall r ensures r in Rows(c, lines) <==> exists k :: 0 <= k < |lines| && RowOf(c, lines[k]) == Some(r) {
        if RowOf(c, last) == Some(r) {
          assert RowOf(c, lines[|lines| - 1]) == Some(r);
        }
        if k :| 0 <= k < |front| && RowOf(c, front[k]) == Some(r) {
          assert RowOf(c, lines[k]) == Some(r);
        }
        if k :| 0 <= k < |lines| && RowOf(c, lines[k]) == Some(r) {
          assert k < |front| ==> front[k] == lines[k];
        }
      }
    }
  }

  // ---- A channel's details ----

  predicate Heads(line: string) {
    "variables:" <= Lower(Strip(line))
  }

  /** The line sets the variable to this: white space around either side of the sign does not count. */
  ghost predicate Sets(line: string, value: string) {
    exists key, rest :: Strip(line) == key + ['='] + rest && '=' !in key && Strip(key) == "SBC_CALLID"
                        && value == Strip(rest)
  }

  predicate SetsIt(line: string) {
    var s := Strip(line);
    '=' in s && Strip(Before(s, '=')) == "SBC_CALLID"
  }

  function ValueOf(line: string): string
    requires SetsIt(line)
  {
    var s := Strip(line);
    assert Before(s, '=') != s;
    Strip(s[|Before(s, '=')| + 1..])
  }

  lemma {:induction false} BeforeParts(s: string, sep: char)
    requires sep in s
    ensures var a := Before(s, sep); sep !in a && |a| < |s| && a == s[..|a|] && s[|a|] == sep
  {
    if s[0] != sep {
      BeforeParts(s[1..], sep);
      var b := Before(s[1..], sep);
      assert Before(s, sep) == [s[0]] + b;
      assert s[1..][..|b|] == s[1..|b| + 1];
    }
  }

  lemma SetsIffIt(line: string, value: string)
    ensures Sets(line, value) <==> SetsIt(line) && value == ValueOf(line)
  {
    var s := Strip(line);
    if SetsIt(line) {
      BeforeParts(s, '=');
      assert s == Before(s, '=') + ['='] + s[|Before(s, '=')| + 1..];
    }
    if Sets(line, value) {
      var key, rest :| s == key + ['='] + rest && '=' !in key && Strip(key) == "SBC_CALLID" && value == Strip(rest);
      BeforeAt(key, rest, '=');
      assert s[|key|] == '=';
      assert s[|key| + 1..] == rest;
    }
  }

  /** A line that counts once the heading has been read: it sets the variable, and is neither heading nor comment. */
  ghost predicate Counts(line: string, value: string) {
    Sets(line, value) && !Heads(line) && !("-- " <= Strip(line))
  }

  /** The first line that counts, in lines all under the heading. */
  ghost predicate FirstCounting(lines: seq<string>, j: nat, value: string) {
    j < |lines| && Counts(lines[j], value) && forall i, v :: 0 <= i < j ==> !Counts(lines[i], v)
  }

  lemma OneLineUnder(lines: seq<string>)
    requires lines != []
    ensures (exists v :: Counts(lines[0], v)) ==> SetsIt(lines[0]) && Counts(lines[0], ValueOf(lines[0]))
    ensures (exists v :: Counts(lines[0], v)) ==>
              CallIdIn(lines, true) == if ValueOf(lines[0]) == "" then None else Some(ValueOf(lines[0]))
    ensures !(exists v :: Counts(lines[0], v)) ==> CallIdIn(lines, true) == CallIdIn(lines[1..], true)
  {
    if v :| Counts(lines[0], v) {
      SetsIffIt(lines[0], v);
    }
    if SetsIt(lines[0]) {
      SetsIffIt(lines[0], ValueOf(lines[0]));
      assert Heads(lines[0]) || "-- " <= Strip(lines[0]) || Counts(lines[0], ValueOf(lines[0]));
    }
  }

  lemma OneValue(line: string, v: string, w: string)
    requires Counts(line, v) && Counts(line, w)
    ensures v == w
  {
    SetsIffIt(line, v);
    SetsIffIt(line, w);
  }

  ghost predicate GivenFirst(lines: seq<string>, value: string) {
    exists j :: FirstCounting(lines, j, value)
  }

  lemma {:induction false} UnderTheHeading(lines: seq<string>, id: string)
    ensures CallIdIn(lines, true) == Some(id) <==> id != "" && GivenFirst(lines, id)
  {
    if lines != [] {
      UnderTheHeading(lines[1..], id);
      OneLineUnder(lines);
      if v :| Counts(lines[0], v) {
        assert FirstCounting(lines, 0, ValueOf(lines[0]));
        if j :| FirstCounting(lines, j, id) {
          assert j == 0;
          OneValue(lines[0], id, ValueOf(lines[0]));
        }
      } else {
        if j :| FirstCounting(lines[1..], j, id) {
          FirstLater(lines, j, id);
        }
        if j :| FirstCounting(lines, j, id) {
          FirstEarlier(lines, j, id);
        }
      }
    }
  }

  lemma FirstLater(lines: seq<string>, j: nat, v: string)
    requires lines != [] && FirstCounting(lines[1..], j, v) && !exists w :: Counts(lines[0], w)
    ensures FirstCounting(lines, j + 1, v)
  {
    forall i, w | 0 <= i < j + 1 ensures !Counts(lines[i], w) {
      if i > 0 {
        assert lines[1..][i - 1] == lines[i];
      }
    }
  }

  lemma FirstEarlier(lines: seq<string>, j: nat, v: string)
    requires FirstCounting(lines, j, v) && !exists w :: Counts(lines[0], w)
    ensures j > 0 && FirstCounting(lines[1..], j - 1, v)
  {
    forall i, w | 0 <= i < j - 1 ensures !Counts(lines[1..][i], w) {
      assert lines[1..][i] == lines[i + 1];
    }
  }

  lemma {:induction false} NoHeading(lines: seq<string>)
    requires forall i :: 0 <= i < |lines| ==> !Heads(lines[i])
    ensures CallIdIn(lines, false).None?
  {
    if lines != [] {
      NoHeading(lines[1..]);
    }
  }

  lemma {:induction false} FromTheHeading(lines: seq<string>, k: nat)
    requires FirstHeading(lines, k)
    ensures CallIdIn(lines, false) == CallIdIn(lines[k + 1..], true)
  {
    if k > 0 {
      FromTheHeading(lines[1..], k - 1);
      assert lines[1..][k..] == lines[k + 1..];
    }
  }

  predicate FirstHeading(lines: seq<string>, k: nat) {
    k < |lines| && Heads(lines[k]) && forall i :: 0 <= i < k ==> !Heads(lines[i])
  }

  /**
   The Call-ID read is the value the first line to set it gives, below the first heading: nothing if there is no
   heading, nothing if no line below it sets it, and nothing if that first line sets it to nothing.
   */
  lemma TheFirstAssignmentCounts(lines: seq<string>, id: string)
    ensures CallIdIn(lines, false) == Some(id) <==>
              id != "" && exists k :: FirstHeading(lines, k) && GivenFirst(lines[k + 1..], id)
  {
    if forall i :: 0 <= i < |lines| ==> !Heads(lines[i]) {
      NoHeading(lines);
    } else {
      var k := FindHeading(lines);
      FromTheHeading(lines, k);
      UnderTheHeading(lines[k + 1..], id);
      if h: nat :| FirstHeading(lines, h) && GivenFirst(lines[h + 1..], id) {
        SoleHeading(lines, h, k);
      }
    }
  }

  lemma SoleHeading(lines: seq<string>, h: nat, k: nat)
    requires FirstHeading(lines, h) && FirstHeading(lines, k)
    ensures h == k
  {
  }

  lemma {:induction false} FindHeading(lines: seq<string>) returns (k: nat)
    requires exists i :: 0 <= i < |lines| && Heads(lines[i])
    ensures FirstHeading(lines, k)
  {
    if Heads(lines[0]) {
      k := 0;
    } else {
      var i :| 0 <= i < |lines| && Heads(lines[i]);
      assert lines[1..][i - 1] == lines[i];
      var h := FindHeading(lines[1..]);
      k := h + 1;
      forall i | 0 <= i < k ensures !Heads(lines[i]) {
        if i > 0 {
          assert lines[1..][i - 1] == lines[i];
        }
      }
    }
  }

  /** Any case of the heading's letters will do. */
  lemma {:induction false} LowerIs(s: string)
    ensures |Lower(s)| == |s|
    ensures forall i :: 0 <= i < |s| ==> Lower(s)[i] == if 'A' <= s[i] <= 'Z' then s[i] + 32 as char else s[i]
  {
    if s != "" {
      LowerIs(s[1..]);
      assert forall i :: 1 <= i < |s| ==> Lower(s)[i] == Lower(s[1..])[i - 1] && s[i] == s[1..][i - 1];
    }
  }
}
