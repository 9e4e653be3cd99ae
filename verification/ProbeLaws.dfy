/** Which channels a round of probes asks, what it learns of each, and which channels are written off. */
module ProbeLaws {
  import opened Common
  import opened Channels
  import opened TableRuns
  import opened ListingLaws

  /** Not settled yet, and of an endpoint that is the customer's, if it is known which are. */
  predicate Wanted(c: Config, ch: Channel) {
    !ch.probed && (c.endpoints.Some? ==> ch.endpoint in c.endpoints.value)
  }

  function WantedIn(c: Config, t: Table, names: seq<string>): seq<string> {
    if names == [] then []
    else
      (if names[0] in t.channels && Wanted(c, t.channels[names[0]]) then [names[0]] else [])
      + WantedIn(c, t, names[1..])
  }

  predicate SamePlace(a: Channel, b: Channel) {
    a.exten == b.exten && a.duration == b.duration && a.endpoint == b.endpoint
  }

  /** A channel asked: silence changes nothing, a Call-ID settles it, and so does the fourth answer without one. */
  predicate Answered(before: Channel, output: string, after: Channel) {
    var id := CallIdIn(Split(output, '\n'), false);
    && SamePlace(before, after)
    && (output == "" ==> after == before)
    && (output != "" && id.Some? ==> after.callId == id && after.probed && after.misses == before.misses)
    && (output != "" && id.None? ==>
          after.callId == before.callId && after.misses == before.misses + 1
          && (after.probed <==> before.misses + 1 >= 4))
  }

  lemma ProbedAnswers(t: Table, name: string, output: string)
    requires name in t.channels && !t.channels[name].probed
    ensures var u := Probed(t, name, output);
            u.channels.Keys == t.channels.Keys && Answered(t.channels[name], output, u.channels[name])
            && (forall m :: m in t.channels && m != name ==> u.channels[m] == t.channels[m])
  {
  }

  lemma {:induction false} WantedElsewhere(c: Config, t: Table, u: Table, names: seq<string>)
    requires u.channels.Keys == t.channels.Keys
    requires forall n :: n in names && n in t.channels ==> u.channels[n] == t.channels[n]
    ensures WantedIn(c, u, names) == WantedIn(c, t, names)
  {
    if names != [] {
      WantedElsewhere(c, t, u, names[1..]);
    }
  }

  lemma {:induction false} WantedAre(c: Config, t: Table, names: seq<string>)
    requires Distinct(names)
    ensures Distinct(WantedIn(c, t, names))
    ensures forall n :: n in WantedIn(c, t, names) <==> n in names && n in t.channels && Wanted(c, t.channels[n])
  {
    if names != [] {
      WantedAre(c, t, names[1..]);
      assert names == [names[0]] + names[1..];
      assert forall n :: n in names[1..] ==> n != names[0];
    }
  }

  lemma {:induction false} WantedInOrder(c: Config, t: Table, names: seq<string>, m: string, n: string)
    requires Ahead(WantedIn(c, t, names), m, n)
    ensures Ahead(names, m, n)
  {
    var w, rest := WantedIn(c, t, names), WantedIn(c, t, names[1..]);
    var i, j :| 0 <= i < j < |w| && w[i] == m && w[j] == n;
    if |w| == |rest| || i > 0 {
      var d := |w| - |rest|;
      assert rest[i - d] == m && rest[j - d] == n;
      WantedInOrder(c, t, names[1..], m, n);
      var a, b :| 0 <= a < b < |names[1..]| && names[1..][a] == m && names[1..][b] == n;
      assert names[a + 1] == m && names[b + 1] == n;
    } else {
      assert rest[j - 1] == n;
      WantedAmong(c, t, names[1..], n);
      var b :| 0 <= b < |names[1..]| && names[1..][b] == n;
      assert names[0] == m && names[b + 1] == n;
    }
  }

  lemma {:induction false} WantedAmong(c: Config, t: Table, names: seq<string>, n: string)
    requires n in WantedIn(c, t, names)
    ensures n in names
  {
    if !(names[0] in t.channels && Wanted(c, t.channels[names[0]]) && n == names[0]) {
      WantedAmong(c, t, names[1..], n);
    }
  }

  predicate Elsewhere(t: Table, u: Table, m: string) {
    u.channels.Keys == t.channels.Keys && forall n :: n in t.channels && n != m ==> u.channels[n] == t.channels[n]
  }

  /** A name passed over: the table is left but for marking a channel that is not worth asking. */
  predicate Passed(c: Config, t: Table, m: string, u: Table) {
    u == t || (m in t.channels && !Wanted(c, t.channels[m]) && !t.channels[m].probed && u == Ignored(t, m))
  }

  /** The limit, if there is one, leaves room for one more. */
  predicate Room(n: nat, limit: nat) {
    limit == 0 || n < limit
  }

  /** One turn of a round: a name is passed over, or asked, and the rest of the round follows. */
  lemma Turn(c: Config, t: Table, names: seq<string>, n: nat, limit: nat, probe: string -> string)
      returns (u: Table, asked: bool, rest: seq<string>)
    requires Distinct(names) && names != []
    ensures asked <==> names[0] in t.channels && Wanted(c, t.channels[names[0]])
    ensures if asked then u == Probed(t, names[0], probe(names[0])) else Passed(c, t, names[0], u)
    ensures Elsewhere(t, u, names[0])
    ensures rest == WantedIn(c, u, names[1..])
    ensures WantedIn(c, t, names) == if asked then [names[0]] + rest else rest
    ensures ProbedEach(c, t, names, n, limit, probe)
            == if asked && !Room(n + 1, limit) then (u, n + 1)
               else ProbedEach(c, u, names[1..], if asked then n + 1 else n, limit, probe)
  {
    var m := names[0];
    asked := m in t.channels && Wanted(c, t.channels[m]);
    if asked {
      u := Probed(t, m, probe(m));
      ProbedAnswers(t, m, probe(m));
    } else if m in t.channels && !t.channels[m].probed {
      u := Ignored(t, m);
    } else {
      u := t;
    }
    assert names == [m] + names[1..];
    WantedElsewhere(c, t, u, names[1..]);
    rest := WantedIn(c, u, names[1..]);
  }

  function Take(w: seq<string>, n: nat, limit: nat): seq<string>
    requires Room(n, limit)
  {
    if Room(n + |w|, limit) then w else w[..limit - n]
  }

  lemma TakeOne(m: string, rest: seq<string>, n: nat, limit: nat)
    requires Room(n, limit)
    ensures Take([m] + rest, n, limit) == [m] + if Room(n + 1, limit) then Take(rest, n + 1, limit) else []
  {
  }

  lemma OneMoreTaken(m: string, rest: seq<string>, n: nat, limit: nat)
    requires Room(n, limit)
    ensures |Take([m] + rest, n, limit)| == 1 + if Room(n + 1, limit) then |Take(rest, n + 1, limit)| else 0
  {
    TakeOne(m, rest, n, limit);
  }

  lemma {:induction false} AskedAreTaken(c: Config, t: Table, names: seq<string>, n: nat, limit: nat,
                                         probe: string -> string)
    requires Distinct(names) && Room(n, limit)
    ensures ProbedEach(c, t, names, n, limit, probe).1 == n + |Take(WantedIn(c, t, names), n, limit)|
    decreases |names|
  {
    if names != [] {
      var u, first, rest := Turn(c, t, names, n, limit, probe);
      if !first {
        AskedAreTaken(c, u, names[1..], n, limit, probe);
      } else {
        OneMoreTaken(names[0], rest, n, limit);
        if Room(n + 1, limit) {
          AskedAreTaken(c, u, names[1..], n + 1, limit, probe);
        }
      }
    }
  }

  /** A round asks as many as are wanted, up to the limit. */
  lemma AskedInAll(c: Config, t: Table, names: seq<string>, limit: nat, probe: string -> string)
    requires Distinct(names)
    ensures var wanted := |WantedIn(c, t, names)|;
            ProbedEach(c, t, names, 0, limit, probe).1 == if limit > 0 && wanted > limit then limit else wanted
  {
    AskedAreTaken(c, t, names, 0, limit, probe);
  }

  /** A channel of another endpoint is never asked: settled when the round comes to it, and nothing learnt. */
  lemma {:induction false} StrangersAreNotAsked(c: Config, t: Table, names: seq<string>, n: nat, limit: nat,
                                                probe: string -> string, m: string)
    requires Distinct(names) && m in t.channels && c.endpoints.Some? && t.channels[m].endpoint !in c.endpoints.value
    ensures var u := ProbedEach(c, t, names, n, limit, probe).0;
            m in u.channels && (u.channels[m] == t.channels[m] || u.channels[m] == t.channels[m].(probed := true))
    decreases |names|
  {
    if names != [] {
      var u, asked, rest := Turn(c, t, names, n, limit, probe);
      assert u.channels[m] == t.channels[m] || u.channels[m] == t.channels[m].(probed := true);
      if !asked || Room(n + 1, limit) {
        StrangersAreNotAsked(c, u, names[1..], if asked then n + 1 else n, limit, probe, m);
      }
    }
  }

  function Outcome(t: Table, m: string, output: string, inTime: bool): Channel
    requires m in t.channels
  {
    if inTime then Probed(t, m, output).channels[m] else t.channels[m]
  }

  /** A round will ask it if it comes to it, or will not come to it, or has nothing to ask it. */
  predicate Clear(c: Config, t: Table, names: seq<string>, m: string) {
    m in t.channels && (m !in names || t.channels[m].probed || Wanted(c, t.channels[m]))
  }

  lemma FirstPassed(c: Config, t: Table, u: Table, names: seq<string>, m: string, output: string, inTime: bool)
    requires Distinct(names) && names != [] && Clear(c, t, names, m) && Passed(c, t, names[0], u)
    ensures Clear(c, u, names[1..], m) && Outcome(u, m, output, inTime) == Outcome(t, m, output, inTime)
  {
    assert names == [names[0]] + names[1..];
  }

  lemma AnotherAsked(c: Config, t: Table, u: Table, names: seq<string>, m: string, output: string, inTime: bool)
    requires Distinct(names) && names != [] && Clear(c, t, names, m) && Elsewhere(t, u, names[0]) && m != names[0]
    ensures Clear(c, u, names[1..], m) && Outcome(u, m, output, inTime) == Outcome(t, m, output, inTime)
  {
    assert names == [names[0]] + names[1..];
  }

  lemma NotWantedAgain(c: Config, u: Table, names: seq<string>, n: nat, limit: nat)
    requires Distinct(names) && names != [] && Room(n, limit)
    ensures names[0] !in names[1..] && names[0] !in Take(WantedIn(c, u, names[1..]), n, limit)
  {
    assert names == [names[0]] + names[1..];
    WantedAre(c, u, names[1..]);
  }

  /** A channel among those asked becomes what its answer makes it, and any other that is clear stays. */
  lemma {:induction false} ChannelBecomes(c: Config, t: Table, names: seq<string>, n: nat, limit: nat,
                                          probe: string -> string, m: string)
    requires Distinct(names) && Room(n, limit) && Clear(c, t, names, m)
    ensures var r := ProbedEach(c, t, names, n, limit, probe).0;
            m in r.channels
            && r.channels[m] == Outcome(t, m, probe(m), m in Take(WantedIn(c, t, names), n, limit))
    decreases |names|
  {
    if names != [] {
      var u, first, rest := Turn(c, t, names, n, limit, probe);
      if !first {
        FirstPassed(c, t, u, names, m, probe(m), m in Take(rest, n, limit));
        ChannelBecomes(c, u, names[1..], n, limit, probe, m);
      } else {
        TakeOne(names[0], rest, n, limit);
        if Room(n + 1, limit) {
          NotWantedAgain(c, u, names, n + 1, limit);
          if m != names[0] {
            AnotherAsked(c, t, u, names, m, probe(m), m in Take(rest, n + 1, limit));
          }
          ChannelBecomes(c, u, names[1..], n + 1, limit, probe, m);
        }
      }
    }
  }

  /** The channel wanted at place `i` is asked if the limit allows that many, and otherwise left as it is. */
  lemma WantedIsAsked(c: Config, t: Table, names: seq<string>, limit: nat, probe: string -> string, i: nat)
    requires Distinct(names) && i < |WantedIn(c, t, names)|
    ensures var m, r := WantedIn(c, t, names)[i], ProbedEach(c, t, names, 0, limit, probe).0;
            m in t.channels && m in r.channels
            && if limit == 0 || i < limit then Answered(t.channels[m], probe(m), r.channels[m])
               else r.channels[m] == t.channels[m]
  {
    var w := WantedIn(c, t, names);
    WantedAre(c, t, names);
    assert w[i] in w;
    InTake(w, limit, i);
    ChannelBecomes(c, t, names, 0, limit, probe, w[i]);
    ProbedAnswers(t, w[i], probe(w[i]));
  }

  lemma InTake(w: seq<string>, limit: nat, i: nat)
    requires Distinct(w) && i < |w|
    ensures w[i] in Take(w, 0, limit) <==> limit == 0 || i < limit
  {
    if limit == 0 || i < limit {
      assert Take(w, 0, limit)[i] == w[i];
    }
  }

  // ---- What a round enters and counts ----

  function Entering(entries: map<string, string>, asked: seq<string>, probe: string -> string): map<string, string>
    decreases |asked|
  {
    if asked == [] then entries
    else
      var id := CallIdIn(Split(probe(asked[0]), '\n'), false);
      Entering(if id.Some? then entries[id.value := asked[0]] else entries, asked[1..], probe)
  }

  lemma OneEntry(t: Table, m: string, output: string)
    requires m in t.channels && !t.channels[m].probed
    ensures var id := CallIdIn(Split(output, '\n'), false);
            Probed(t, m, output).byCallId == if id.Some? then t.byCallId[id.value := m] else t.byCallId
  {
    assert Split("", '\n') == [""];
  }

  lemma EnteringOne(t: Table, m: string, output: string, asked: seq<string>, probe: string -> string)
    requires m in t.channels && !t.channels[m].probed && output == probe(m)
    ensures Entering(Probed(t, m, output).byCallId, asked, probe) == Entering(t.byCallId, [m] + asked, probe)
  {
    OneEntry(t, m, output);
    assert ([m] + asked)[1..] == asked;
  }

  lemma {:induction false} RoundEnters(c: Config, t: Table, names: seq<string>, n: nat, limit: nat,
                                       probe: string -> string)
    requires Distinct(names) && Room(n, limit)
    ensures ProbedEach(c, t, names, n, limit, probe).0.byCallId
            == Entering(t.byCallId, Take(WantedIn(c, t, names), n, limit), probe)
    decreases |names|
  {
    if names != [] {
      var u, first, rest := Turn(c, t, names, n, limit, probe);
      if !first {
        RoundEnters(c, u, names[1..], n, limit, probe);
      } else {
        TakeOne(names[0], rest, n, limit);
        if Room(n + 1, limit) {
          RoundEnters(c, u, names[1..], n + 1, limit, probe);
          EnteringOne(t, names[0], probe(names[0]), Take(rest, n + 1, limit), probe);
        } else {
          EnteringOne(t, names[0], probe(names[0]), [], probe);
        }
      }
    }
  }

  predicate GivesId(probe: string -> string, m: string, id: string) {
    CallIdIn(Split(probe(m), '\n'), false) == Some(id)
  }

  /** Gave this Call-ID, and no one asked later did. */
  predicate LastToGive(asked: seq<string>, probe: string -> string, i: nat, id: string) {
    i < |asked| && GivesId(probe, asked[i], id) && forall j :: i < j < |asked| ==> !GivesId(probe, asked[j], id)
  }

  predicate NoneGives(asked: seq<string>, probe: string -> string, id: string) {
    forall i :: 0 <= i < |asked| ==> !GivesId(probe, asked[i], id)
  }

  lemma {:induction false} UngivenKeep(entries: map<string, string>, asked: seq<string>, probe: string -> string,
                                       id: string)
    requires NoneGives(asked, probe, id)
    ensures var e := Entering(entries, asked, probe);
            (id in e <==> id in entries) && (id in entries ==> e[id] == entries[id])
    decreases |asked|
  {
    if asked != [] {
      var read := CallIdIn(Split(probe(asked[0]), '\n'), false);
      assert !GivesId(probe, asked[0], id);
      assert NoneGives(asked[1..], probe, id) by {
        assert forall i :: 0 <= i < |asked| - 1 ==> asked[1..][i] == asked[i + 1];
      }
      UngivenKeep(if read.Some? then entries[read.value := asked[0]] else entries, asked[1..], probe, id);
    }
  }

  lemma {:induction false} LastIsEntered(entries: map<string, string>, asked: seq<string>, probe: string -> string,
                                         i: nat, id: string)
    requires LastToGive(asked, probe, i, id)
    ensures var e := Entering(entries, asked, probe); id in e && e[id] == asked[i]
    decreases |asked|
  {
    var read := CallIdIn(Split(probe(asked[0]), '\n'), false);
    var next := if read.Some? then entries[read.value := asked[0]] else entries;
    assert forall j :: 0 <= j < |asked| - 1 ==> asked[1..][j] == asked[j + 1];
    if i == 0 {
      UngivenKeep(next, asked[1..], probe, id);
    } else {
      LastIsEntered(next, asked[1..], probe, i - 1, id);
    }
  }

  /** A round enters a Call-ID for the last channel asked that gave it, and leaves every other entry alone. */
  lemma EntriesAreRead(c: Config, t: Table, names: seq<string>, limit: nat, probe: string -> string, id: string)
    requires Distinct(names)
    ensures var asked := Take(WantedIn(c, t, names), 0, limit);
            var u := ProbedEach(c, t, names, 0, limit, probe).0;
            && (forall i: nat :: LastToGive(asked, probe, i, id) ==> id in u.byCallId && u.byCallId[id] == asked[i])
            && (NoneGives(asked, probe, id) ==>
                  (id in u.byCallId <==> id in t.byCallId) && (id in t.byCallId ==> u.byCallId[id] == t.byCallId[id]))
  {
    var asked := Take(WantedIn(c, t, names), 0, limit);
    RoundEnters(c, t, names, 0, limit, probe);
    forall i: nat | LastToGive(asked, probe, i, id)
      ensures var e := Entering(t.byCallId, asked, probe); id in e && e[id] == asked[i]
    {
      LastIsEntered(t.byCallId, asked, probe, i, id);
    }
    if NoneGives(asked, probe, id) {
      UngivenKeep(t.byCallId, asked, probe, id);
    }
  }

  // ---- Writing off ----

  /** The answer is the fourth without a Call-ID. */
  predicate FourthMiss(before: Channel, output: string) {
    output != "" && CallIdIn(Split(output, '\n'), false).None? && before.misses + 1 >= 4
  }

  function FourthMisses(t: Table, asked: seq<string>, probe: string -> string): nat {
    if asked == [] then 0
    else
      (if asked[0] in t.channels && FourthMiss(t.channels[asked[0]], probe(asked[0])) then 1 else 0)
      + FourthMisses(t, asked[1..], probe)
  }

  lemma {:induction false} FourthMissesElsewhere(t: Table, u: Table, asked: seq<string>, probe: string -> string)
    requires u.channels.Keys == t.channels.Keys
    requires forall m :: m in asked && m in t.channels ==> u.channels[m] == t.channels[m]
    ensures FourthMisses(u, asked, probe) == FourthMisses(t, asked, probe)
  {
    if asked != [] {
      FourthMissesElsewhere(t, u, asked[1..], probe);
    }
  }

  lemma OneFailure(t: Table, m: string, output: string)
    requires m in t.channels && !t.channels[m].probed
    ensures Probed(t, m, output).failures == t.failures + if FourthMiss(t.channels[m], output) then 1 else 0
  {
  }

  lemma FourthMissesOne(t: Table, u: Table, m: string, rest: seq<string>, probe: string -> string)
    requires m in t.channels && !t.channels[m].probed && u == Probed(t, m, probe(m)) && m !in rest
    ensures t.failures + FourthMisses(t, [m] + rest, probe) == u.failures + FourthMisses(u, rest, probe)
  {
    OneFailure(t, m, probe(m));
    ProbedAnswers(t, m, probe(m));
    assert ([m] + rest)[1..] == rest;
    FourthMissesElsewhere(t, u, rest, probe);
  }

  lemma FourthMissesPassed(c: Config, t: Table, u: Table, names: seq<string>, n: nat, limit: nat,
                           probe: string -> string)
    requires Distinct(names) && names != [] && Room(n, limit) && Elsewhere(t, u, names[0])
    ensures var asked := Take(WantedIn(c, u, names[1..]), n, limit);
            FourthMisses(u, asked, probe) == FourthMisses(t, asked, probe)
  {
    NotWantedAgain(c, u, names, n, limit);
    FourthMissesElsewhere(t, u, Take(WantedIn(c, u, names[1..]), n, limit), probe);
  }

  /** A round counts one failure for every channel asked whose fourth miss this is. */
  lemma {:induction false} FailuresAreCounted(c: Config, t: Table, names: seq<string>, n: nat, limit: nat,
                                              probe: string -> string)
    requires Distinct(names) && Room(n, limit)
    ensures ProbedEach(c, t, names, n, limit, probe).0.failures
            == t.failures + FourthMisses(t, Take(WantedIn(c, t, names), n, limit), probe)
    decreases |names|
  {
    if names != [] {
      var u, first, rest := Turn(c, t, names, n, limit, probe);
      if !first {
        FourthMissesPassed(c, t, u, names, n, limit, probe);
        FailuresAreCounted(c, u, names[1..], n, limit, probe);
      } else {
        TakeOne(names[0], rest, n, limit);
        if Room(n + 1, limit) {
          NotWantedAgain(c, u, names, n + 1, limit);
          FourthMissesOne(t, u, names[0], Take(rest, n + 1, limit), probe);
          FailuresAreCounted(c, u, names[1..], n + 1, limit, probe);
        } else {
          FourthMissesOne(t, u, names[0], [], probe);
        }
      }
    }
  }

  // ---- Over a run ----

  /** The endpoint a channel's name says, after the prefix and up to the last dash. */
  predicate NamedFor(c: Config, name: string, endpoint: string) {
    c.prefix <= name && BeforeLast(name[|c.prefix|..], '-') == endpoint
  }

  /** Settled: with a Call-ID, after four misses, or as a channel of another endpoint; and not before. */
  predicate SettledFairly(c: Config, ch: Channel) {
    && ch.misses <= 4 && (ch.misses == 4 ==> ch.probed && ch.callId.None?)
    && (ch.callId.Some? ==> ch.probed && ch.misses < 4)
    && (ch.probed && ch.callId.None? && ch.misses < 4 ==>
          c.endpoints.Some? && ch.endpoint !in c.endpoints.value)
  }

  ghost predicate AllFair(c: Config, t: Table) {
    forall n :: n in t.channels ==> NamedFor(c, n, t.channels[n].endpoint) && SettledFairly(c, t.channels[n])
  }

  lemma {:induction false} RowsAreNamed(c: Config, lines: seq<string>, r: Row)
    requires r in Rows(c, lines)
    ensures NamedFor(c, r.name, r.endpoint)
    decreases |lines|
  {
    if RowOf(c, lines[|lines| - 1]) != Some(r) {
      RowsAreNamed(c, lines[..|lines| - 1], r);
    }
  }

  lemma ListedIsFair(c: Config, t: Table, lines: seq<string>, n: string, ch: Channel)
    requires AllFair(c, t) && PlacedBy(Rows(c, lines), ch, n) && LearntAs(t, ch, n)
    ensures NamedFor(c, n, ch.endpoint) && SettledFairly(c, ch)
  {
    var rows := Rows(c, lines);
    var k: nat :| LastRow(rows, k, n) && ch.exten == rows[k].exten && ch.duration == rows[k].duration
                  && ch.endpoint == rows[k].endpoint;
    RowsAreNamed(c, lines, rows[k]);
    if n in t.channels {
      assert NamedFor(c, n, t.channels[n].endpoint);
    }
  }

  lemma RefreshedIsFair(c: Config, t: Table, listing: string, now: real, force: bool)
    requires Faithful(c, t) && AllFair(c, t)
    ensures AllFair(c, Refreshed(c, t, listing, now, force))
  {
    if Due(c, t, now, force) {
      var u := Refreshed(c, t, listing, now, force);
      AListingSets(c, t, listing, now, force);
      forall n | n in u.channels ensures NamedFor(c, n, u.channels[n].endpoint) && SettledFairly(c, u.channels[n]) {
        ListedIsFair(c, t, Split(listing, '\n'), n, u.channels[n]);
      }
    } else {
      NothingBeforeItIsDue(c, t, listing, now, force);
    }
  }

  lemma ProbedIsFair(c: Config, t: Table, name: string, output: string)
    requires AllFair(c, t)
    ensures AllFair(c, Probed(t, name, output))
  {
    if name in t.channels && !t.channels[name].probed {
      ProbedAnswers(t, name, output);
    }
  }

  lemma {:induction false} RoundIsFair(c: Config, t: Table, names: seq<string>, n: nat, limit: nat,
                                       probe: string -> string)
    requires Distinct(names) && AllFair(c, t)
    ensures AllFair(c, ProbedEach(c, t, names, n, limit, probe).0)
    decreases |names|
  {
    if names != [] {
      var u, first, rest := Turn(c, t, names, n, limit, probe);
      if first {
        ProbedIsFair(c, t, names[0], probe(names[0]));
      }
      if !first || Room(n + 1, limit) {
        RoundIsFair(c, u, names[1..], if first then n + 1 else n, limit, probe);
      }
    }
  }

  /**
   In any run a channel's endpoint is the one in its name, and a channel not to be asked again either carries a
   Call-ID, or answered four times without one, or belongs to no endpoint of the customer's.
   */
  lemma {:induction false} WrittenOffFairly(c: Config, ops: seq<Op>)
    ensures AllFair(c, Run(c, ops))
    decreases |ops|
  {
    if ops != [] {
      var t, op := Run(c, ops[..|ops| - 1]), ops[|ops| - 1];
      WrittenOffFairly(c, ops[..|ops| - 1]);
      EveryRunIsFaithful(c, ops[..|ops| - 1]);
      match op
      case List(listing, now, force) => RefreshedIsFair(c, t, listing, now, force);
      case Ask(name, output) => ProbedIsFair(c, t, name, output);
      case AskAll(cli, limit) =>
        RefreshedIsFair(c, t, cli.listing, cli.now, false);
        RefreshedKeeps(c, t, cli.listing, cli.now, false);
        var u := Refreshed(c, t, cli.listing, cli.now, false);
        RoundIsFair(c, u, u.names, 0, limit, cli.probe);
    }
  }
}
