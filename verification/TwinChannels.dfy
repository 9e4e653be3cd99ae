/** A run, from what the CLI prints on, in which a listed channel can no longer be found by its own Call-ID. */
module TwinChannels {
  import opened Common
  import opened Channels
  import opened TableRuns

  /** Text that no line, field or assignment separator cuts, and no stripping shortens. */
  predicate Plain(s: string) {
    s != "" && forall i :: 0 <= i < |s| ==> !Space(s[i]) && s[i] != '!' && s[i] != '='
  }

  function Bangs(n: nat): string {
    if n == 0 then "" else "!" + Bangs(n - 1)
  }

  /** One line of a concise listing: a channel's name, all other fields empty. */
  function Line(name: string): string {
    name + Bangs(13)
  }

  /** One channel's details: the variables heading, and the dialplan's copy of the Call-ID. */
  function Details(id: string): string {
    "variables:" + "\n" + ("SBC_CALLID" + "=" + id)
  }

  lemma {:induction false} SplitWhole(s: string, sep: char)
    requires sep !in s
    ensures Split(s, sep) == [s]
  {
    if s != "" {
      SplitWhole(s[1..], sep);
      assert [s[0]] + s[1..] == s;
    }
  }

  lemma {:induction false} SplitAt(a: string, rest: string, sep: char)
    requires sep !in a
    ensures Split(a + [sep] + rest, sep) == [a] + Split(rest, sep)
  {
    var s := a + [sep] + rest;
    if a == "" {
      assert s[1..] == rest;
    } else {
      SplitAt(a[1..], rest, sep);
      assert s[1..] == a[1..] + [sep] + rest;
      assert [a[0]] + a[1..] == a;
    }
  }

  lemma {:induction false} SplitBangs(n: nat)
    ensures |Split(Bangs(n), '!')| == n + 1
  {
    if n > 0 {
      SplitBangs(n - 1);
      assert Bangs(n)[1..] == Bangs(n - 1);
    }
  }

  lemma {:induction false} BangsOnly(n: nat)
    ensures |Bangs(n)| == n && forall i :: 0 <= i < n ==> Bangs(n)[i] == '!'
  {
    if n > 0 {
      BangsOnly(n - 1);
    }
  }

  lemma StripStays(s: string)
    requires s != "" ==> !Space(s[0]) && !Space(s[|s| - 1])
    ensures Strip(s) == s
  {
  }

  lemma {:induction false} BeforeAt(a: string, rest: string, sep: char)
    requires sep !in a
    ensures Before(a + [sep] + rest, sep) == a
  {
    if a != "" {
      BeforeAt(a[1..], rest, sep);
      assert (a + [sep] + rest)[1..] == a[1..] + [sep] + rest;
      assert [a[0]] + a[1..] == a;
    }
  }

  lemma {:induction false} LowerStays(s: string)
    requires forall i :: 0 <= i < |s| ==> !('A' <= s[i] <= 'Z')
    ensures Lower(s) == s
  {
    if s != "" {
      LowerStays(s[1..]);
      assert [s[0]] + s[1..] == s;
    }
  }

  /** The fields of a listing line: the name and thirteen empty ones. */
  lemma LineFields(name: string)
    requires Plain(name)
    ensures var f := Split(Line(name), '!'); |f| == ConciseFields && f[0] == name
    ensures Strip(Line(name)) == Line(name)
  {
    var line := Line(name);
    BangsOnly(13);
    assert line == name + ['!'] + Bangs(12);
    SplitAt(name, Bangs(12), '!');
    SplitBangs(12);
    assert line[|line| - 1] == Bangs(13)[12];
    StripStays(line);
  }

  lemma LineIsARow(c: Config, name: string)
    requires Plain(name) && c.prefix <= name
    ensures RowOf(c, Line(name)).Some? && RowOf(c, Line(name)).value.name == name
  {
    LineFields(name);
  }

  lemma LineHasNoBreak(name: string)
    requires Plain(name)
    ensures '\n' !in Line(name)
  {
    BangsOnly(13);
  }

  lemma ListingOfOne(c: Config, a: string) returns (r: Row)
    requires Plain(a) && c.prefix <= a
    ensures Rows(c, Split(Line(a), '\n')) == [r] && r.name == a
  {
    LineHasNoBreak(a);
    SplitWhole(Line(a), '\n');
    LineIsARow(c, a);
    r := RowOf(c, Line(a)).value;
    RowsGrow(c, [], Line(a));
    assert [] + [Line(a)] == [Line(a)];
  }

  lemma ListingOfTwo(c: Config, a: string, b: string) returns (r: Row, q: Row)
    requires Plain(a) && Plain(b) && c.prefix <= a && c.prefix <= b
    ensures Rows(c, Split(Line(a) + "\n" + Line(b), '\n')) == [r, q] && r.name == a && q.name == b
  {
    LineHasNoBreak(a);
    LineHasNoBreak(b);
    SplitAt(Line(a), Line(b), '\n');
    SplitWhole(Line(b), '\n');
    LineIsARow(c, a);
    LineIsARow(c, b);
    r, q := RowOf(c, Line(a)).value, RowOf(c, Line(b)).value;
    RowsGrow(c, [], Line(a));
    RowsGrow(c, [Line(a)], Line(b));
    assert [] + [Line(a)] == [Line(a)] && [Line(a)] + [Line(b)] == [Line(a), Line(b)];
  }

  lemma HeadingIsRead(rest: seq<string>)
    ensures CallIdIn(["variables:"] + rest, false) == CallIdIn(rest, true)
  {
    StripStays("variables:");
    LowerStays("variables:");
    assert (["variables:"] + rest)[1..] == rest;
  }

  lemma AssignmentIsRead(id: string)
    requires Plain(id)
    ensures CallIdIn(["SBC_CALLID" + "=" + id], true) == Some(id)
  {
    var s := "SBC_CALLID" + "=" + id;
    assert s[0] == 'S' && s[10] == '=' && s[|s| - 1] == id[|id| - 1];
    StripStays(s);
    assert Lower(s)[0] == 's';
    BeforeAt("SBC_CALLID", id, '=');
    StripStays("SBC_CALLID");
    assert s[11..] == id;
    StripStays(id);
  }

  lemma DetailsAreRead(id: string)
    requires Plain(id)
    ensures CallIdIn(Split(Details(id), '\n'), false) == Some(id)
  {
    var s := "SBC_CALLID" + "=" + id;
    SplitAt("variables:", s, '\n');
    SplitWhole(s, '\n');
    HeadingIsRead([s]);
    AssignmentIsRead(id);
  }

  /** Both channels listed, both asked and answering with the same Call-ID, and then only the first listed. */
  function TwinRun(a: string, b: string, id: string): seq<Op> {
    [List(Line(a) + "\n" + Line(b), 0.0, true), Ask(a, Details(id)), Ask(b, Details(id)), List(Line(a), 0.0, true)]
  }

  lemma EnteredOne(t: Table, r: Row)
    ensures EnteredAll(t, [r]) == Entered(t, r)
  {
    EnteredGrows(t, [], r);
    assert [] + [r] == [r];
  }

  lemma EnteredTwo(t: Table, r: Row, q: Row)
    ensures EnteredAll(t, [r, q]) == Entered(Entered(t, r), q)
  {
    EnteredOne(t, r);
    EnteredGrows(t, [r], q);
    assert [r] + [q] == [r, q];
  }

  lemma NewChannels(t: Table, r: Row, q: Row) returns (u: Table)
    requires r.name != q.name && t.channels == map[] && t.byCallId == map[]
    ensures u == Pruned(Entered(Entered(t, r), q), {r.name, q.name})
    ensures u.channels.Keys == {r.name, q.name} && u.byCallId == map[]
    ensures !u.channels[r.name].probed && !u.channels[q.name].probed
  {
    u := Pruned(Entered(Entered(t, r), q), {r.name, q.name});
  }

  lemma BothListed(c: Config, a: string, b: string) returns (t: Table)
    requires a != b && Plain(a) && Plain(b) && c.prefix <= a && c.prefix <= b
    ensures t == Refreshed(c, Blank, Line(a) + "\n" + Line(b), 0.0, true)
    ensures t.channels.Keys == {a, b} && t.byCallId == map[]
    ensures !t.channels[a].probed && !t.channels[b].probed
  {
    var listing := Line(a) + "\n" + Line(b);
    var r, q := ListingOfTwo(c, a, b);
    var start := Blank.(lastList := 0.0, latest := listing);
    EnteredTwo(start, r, q);
    assert Listed(c, listing) == {a, b};
    t := NewChannels(start, r, q);
  }

  lemma BothAnswered(t: Table, a: string, b: string, id: string) returns (u: Table)
    requires a != b && t.channels.Keys == {a, b} && !t.channels[a].probed && !t.channels[b].probed && Plain(id)
    ensures u == Probed(Probed(t, a, Details(id)), b, Details(id))
    ensures u.channels.Keys == {a, b} && u.channels[a].callId == Some(id) && u.channels[b].callId == Some(id)
    ensures id in u.byCallId && u.byCallId[id] == b
  {
    DetailsAreRead(id);
    u := Probed(Probed(t, a, Details(id)), b, Details(id));
  }

  lemma FirstOnlyListed(c: Config, t: Table, a: string, b: string, id: string)
    requires a != b && Plain(a) && c.prefix <= a && t.channels.Keys == {a, b}
    requires t.channels[a].callId == Some(id) && t.channels[b].callId == Some(id)
    requires id in t.byCallId && t.byCallId[id] == b
    ensures var u := Refreshed(c, t, Line(a), 0.0, true);
            a in u.channels && u.channels[a].callId == Some(id) && id !in u.byCallId
  {
    var r := ListingOfOne(c, a);
    var start := t.(lastList := 0.0, latest := Line(a));
    EnteredOne(start, r);
    assert Listed(c, Line(a)) == {a};
  }

  lemma RunThen(c: Config, ops: seq<Op>, op: Op)
    ensures Run(c, ops + [op]) == After(c, Run(c, ops), op)
  {
    assert (ops + [op])[..|ops|] == ops;
  }

  lemma RunOfFour(c: Config, p: Op, q: Op, r: Op, s: Op)
    ensures Run(c, [p, q, r, s]) == After(c, After(c, After(c, After(c, Blank, p), q), r), s)
  {
    RunThen(c, [], p);
    RunThen(c, [p], q);
    RunThen(c, [p, q], r);
    RunThen(c, [p, q, r], s);
    assert [] + [p] == [p] && [p] + [q] == [p, q] && [p, q] + [r] == [p, q, r] && [p, q, r] + [s] == [p, q, r, s];
  }

  /**
   For any two channel names and any Call-ID: the run lists the first, knows its Call-ID, and cannot find it by it.
   */
  lemma AListedChannelIsLost(c: Config, a: string, b: string, id: string)
    requires a != b && Plain(a) && Plain(b) && Plain(id) && c.prefix <= a && c.prefix <= b
    ensures var t := Run(c, TwinRun(a, b, id));
            a in t.channels && t.channels[a].callId == Some(id) && id !in t.byCallId && !Complete(t)
  {
    var ops := TwinRun(a, b, id);
    RunOfFour(c, ops[0], ops[1], ops[2], ops[3]);
    var t := BothListed(c, a, b);
    var u := BothAnswered(t, a, b, id);
    FirstOnlyListed(c, u, a, b, id);
  }
}
