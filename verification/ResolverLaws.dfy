/** Whom a call resolves to, said of the table's fields and the call's, and what may be sent. */
module ResolverLaws {
  import opened Common
  import opened Channels
  import opened TableRuns
  import opened Resolver

  // ---- Numbers dialled ----

  function Ones(n: nat): string {
    if n == 0 then "" else ['1'] + Ones(n - 1)
  }

  lemma {:induction false} WithoutOnesIs(n: nat, s: string)
    requires s == "" || s[0] != '1'
    ensures WithoutOnes(Ones(n) + s) == s
  {
    if n == 0 {
      assert Ones(0) + s == s;
    } else {
      assert (Ones(n) + s)[1..] == Ones(n - 1) + s;
      WithoutOnesIs(n - 1, s);
    }
  }

  lemma {:induction false} LeadingOnes(s: string) returns (n: nat)
    ensures s == Ones(n) + WithoutOnes(s) && (WithoutOnes(s) == "" || WithoutOnes(s)[0] != '1')
  {
    n := 0;
    if s != "" && s[0] == '1' {
      var k := LeadingOnes(s[1..]);
      n := k + 1;
      assert s == ['1'] + s[1..];
    } else {
      assert Ones(0) + s == s;
    }
  }

  /** The number as it is, bare of leading ones, or with a single one before that. */
  ghost predicate SameNumber(exten: string, dnis: string) {
    exists n, bare :: dnis == Ones(n) + bare && (bare == "" || bare[0] != '1') && exten in {dnis, bare, "1" + bare}
  }

  lemma SameNumberIff(exten: string, dnis: string)
    ensures SameNumber(exten, dnis) <==> exten in {dnis, WithoutOnes(dnis), "1" + WithoutOnes(dnis)}
  {
    var k := LeadingOnes(dnis);
    if exten in {dnis, WithoutOnes(dnis), "1" + WithoutOnes(dnis)} {
      assert dnis == Ones(k) + WithoutOnes(dnis);
    }
    if SameNumber(exten, dnis) {
      var n, bare :| dnis == Ones(n) + bare && (bare == "" || bare[0] != '1') && exten in {dnis, bare, "1" + bare};
      WithoutOnesIs(n, bare);
    }
  }

  lemma {:induction false} DigitsJoin(a: string, b: string)
    ensures Digits(a + b) == Digits(a) + Digits(b)
  {
    if a == "" {
      assert a + b == b;
    } else {
      assert (a + b)[1..] == a[1..] + b;
      DigitsJoin(a[1..], b);
    }
  }

  /** What counts of a number are its digits, wherever other characters stand between them. */
  lemma OnlyDigitsCount(a: string, c: char, b: string)
    ensures Digits(a + [c] + b) == Digits(a) + (if '0' <= c <= '9' then [c] else "") + Digits(b)
  {
    DigitsJoin(a + [c], b);
    DigitsJoin(a, [c]);
    assert Digits([c]) == (if '0' <= c <= '9' then [c] else "") + Digits("");
  }

  // ---- Whom a call resolves to ----

  /** As far as it is known: the customer's endpoint, the number dialled, and an age within the tolerance. */
  ghost predicate LooksLike(c: Config, ch: Channel, call: Call, now: real) {
    && (call.endpoint == None || call.endpoint == Some(ch.endpoint))
    && (Digits(call.dnis) == "" || SameNumber(Digits(ch.exten), Digits(call.dnis)))
    && (call.started.None? || var gap := now - call.started.value - ch.duration as real;
                              (if gap < 0.0 then -gap else gap) <= c.ageTolerance)
  }

  lemma FitsIff(c: Config, ch: Channel, call: Call, now: real)
    ensures Fits(c, ch, call, now) <==> LooksLike(c, ch, call, now)
  {
    SameNumberIff(Digits(ch.exten), Digits(call.dnis));
  }

  /** The channels that look like the call. */
  ghost function Alike(c: Config, t: Table, call: Call, now: real): set<string> {
    set n | n in t.channels && LooksLike(c, t.channels[n], call, now)
  }

  lemma FoundAre(c: Config, t: Table, call: Call, now: real)
    requires Faithful(c, t)
    ensures var found := Candidates(c, t, t.names, call, now);
            Distinct(found) && (set n | n in found) == Alike(c, t, call, now)
  {
    CandidatesOfTable(c, t, call, now);
    forall n | n in t.channels ensures Fits(c, t.channels[n], call, now) <==> LooksLike(c, t.channels[n], call, now) {
      FitsIff(c, t.channels[n], call, now);
    }
  }

  lemma {:induction false} SizeOfDistinct(xs: seq<string>)
    requires Distinct(xs)
    ensures |set x | x in xs| == |xs|
    decreases |xs|
  {
    if xs != [] {
      var front, last := xs[..|xs| - 1], xs[|xs| - 1];
      SizeOfDistinct(front);
      assert xs == front + [last];
      assert last !in front;
      assert (set x | x in xs) == (set x | x in front) + {last};
    }
  }

  /**
   Without an entry a channel is guessed exactly if guessing is allowed and it is the one channel that looks like
   the call; the answer is ambiguous, and names them all, exactly if two or more do; otherwise it is a miss.
   */
  lemma WithoutAnEntry(c: Config, t: Table, call: Call, now: real)
    requires Faithful(c, t) && call.callId !in t.byCallId
    ensures var r, alike := Verdict(c, t, call, now), Alike(c, t, call, now);
            && (forall n :: r == Guessed(n) <==> c.allowHeuristic && alike == {n})
            && (r.Ambiguous? <==> c.allowHeuristic && |alike| >= 2)
            && (r.Ambiguous? ==> Distinct(r.candidates) && (set n | n in r.candidates) == alike)
            && (r.Miss? <==> !c.allowHeuristic || alike == {})
  {
    var found, alike := Candidates(c, t, t.names, call, now), Alike(c, t, call, now);
    FoundAre(c, t, call, now);
    SizeOfDistinct(found);
    if |found| == 1 {
      assert alike == {found[0]};
    }
    forall n | alike == {n} ensures |found| == 1 && found[0] == n {
      assert |alike| == 1;
      assert found[0] in alike;
    }
  }

  /**
   In a run that loses no twin, a call whose Call-ID the CLI has given for some channel still listed is resolved
   exactly, to a channel carrying it, whatever else looks like it.
   */
  lemma KnownCallsAreFound(c: Config, ops: seq<Op>, call: Call, now: real, n: string)
    requires NoTwinLost(c, ops) && Carries(Run(c, ops), n, call.callId)
    ensures var r := Verdict(c, Run(c, ops), call, now); r.Exact? && Carries(Run(c, ops), r.name, call.callId)
  {
    RunStaysComplete(c, ops);
    EveryRunIsFaithful(c, ops);
  }

  // ---- What may be sent ----

  /**
   A command is sent exactly if enforcement is on and a channel was found or guessed whose command is shorter than
   four hundred and ninety characters; it asks for the hangup of that channel.
   */
  lemma SentIff(enforce: bool, r: Resolution, command: string)
    ensures command in Sent(enforce, r) <==>
              enforce && (r.Exact? || r.Guessed?) && command == "channel request hangup " + r.name && |r.name| < 467
    ensures |Sent(enforce, r)| <= 1
  {
    assert |"channel request hangup "| == 23;
  }
}
