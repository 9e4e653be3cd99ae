/** Whom a call resolves to, and what a hangup may name. */
module Resolver {
  import opened Common
  import opened Channels
  import opened TableRuns

  /** A call as the tap knows it; `endpoint` is the customer's, if its address is one of theirs. */
  datatype Call = Call(callId: string, endpoint: Option<string>, dnis: string, started: Option<real>)

  datatype Resolution = Exact(name: string) | Guessed(name: string) | Ambiguous(candidates: seq<string>) | Miss

  function WithoutOnes(s: string): string {
    if s != "" && s[0] == '1' then WithoutOnes(s[1..]) else s
  }

  /** Same endpoint, same number dialled, about the same age, as far as each is known. */
  predicate Fits(c: Config, ch: Channel, call: Call, now: real) {
    var dnis := Digits(call.dnis);
    && (call.endpoint.Some? ==> ch.endpoint == call.endpoint.value)
    && (dnis != "" ==> Digits(ch.exten) in {dnis, WithoutOnes(dnis), "1" + WithoutOnes(dnis)})
    && (call.started.Some? ==>
          -c.ageTolerance <= ch.duration as real - (now - call.started.value) <= c.ageTolerance)
  }

  function Candidates(c: Config, t: Table, names: seq<string>, call: Call, now: real): seq<string> {
    if names == [] then []
    else
      var last := names[|names| - 1];
      Candidates(c, t, names[..|names| - 1], call, now)
      + if last in t.channels && Fits(c, t.channels[last], call, now) then [last] else []
  }

  function Verdict(c: Config, t: Table, call: Call, now: real): Resolution {
    if call.callId in t.byCallId then Exact(t.byCallId[call.callId])
    else if !c.allowHeuristic then Miss
    else
      var found := Candidates(c, t, t.names, call, now);
      if |found| == 1 then Guessed(found[0]) else if |found| > 1 then Ambiguous(found) else Miss
  }

  /** The table a call is resolved against: refreshed, and probed if that did not know the Call-ID. */
  function Consulted(c: Config, t: Table, first: Cli, second: Cli, call: Call): Table {
    var u := Refreshed(c, t, first.listing, first.now, false);
    if call.callId in u.byCallId then u else ProbedAll(c, u, second, 32).0
  }

  method Resolve(table: ChannelTable, first: Cli, second: Cli, call: Call, now: real) returns (r: Resolution)
    modifies table
    ensures table.Contents() == Consulted(table.config, old(table.Contents()), first, second, call)
    ensures r == Verdict(table.config, table.Contents(), call, now)
  {
    table.Refresh(first.listing, first.now, false);
    if call.callId !in table.byCallId {
      var n := table.ProbeAll(second, 32);
    }
    if call.callId in table.byCallId {
      return Exact(table.byCallId[call.callId]);
    }
    if !table.config.allowHeuristic {
      return Miss;
    }
    var found := [];
    for k := 0 to |table.names|
      invariant found == Candidates(table.config, table.Contents(), table.names[..k], call, now)
    {
      var name := table.names[k];
      assert table.names[..k + 1][..k] == table.names[..k];
      if name in table.channels && Fits(table.config, table.channels[name], call, now) {
        found := found + [name];
      }
    }
    assert table.names[..|table.names|] == table.names;
    if |found| == 1 {
      return Guessed(found[0]);
    }
    return if |found| > 1 then Ambiguous(found) else Miss;
  }

  lemma {:induction false} CandidatesAre(c: Config, t: Table, names: seq<string>, call: Call, now: real)
    requires Distinct(names)
    ensures forall n :: n in Candidates(c, t, names, call, now)
              <==> n in names && n in t.channels && Fits(c, t.channels[n], call, now)
    ensures Distinct(Candidates(c, t, names, call, now))
    decreases |names|
  {
    if names != [] {
      var front := names[..|names| - 1];
      CandidatesAre(c, t, front, call, now);
      assert names == front + [names[|names| - 1]];
      assert forall n :: n in front ==> n != names[|names| - 1];
    }
  }

  /** An exact answer is a channel of the latest listing carrying the call's own Call-ID. */
  lemma ExactIsTheCall(c: Config, t: Table, call: Call, now: real)
    requires Faithful(c, t) && Verdict(c, t, call, now).Exact?
    ensures var n := Verdict(c, t, call, now).name;
            n in Listed(c, t.latest) && n in t.channels && t.channels[n].callId == Some(call.callId)
  {
  }

  lemma CandidatesOfTable(c: Config, t: Table, call: Call, now: real)
    requires Faithful(c, t)
    ensures var found := Candidates(c, t, t.names, call, now);
            Distinct(found) && forall n :: n in found <==> n in t.channels && Fits(c, t.channels[n], call, now)
  {
    CandidatesAre(c, t, t.names, call, now);
  }

  /** A guess is the one listed channel that fits. */
  lemma AGuessIsUnique(c: Config, t: Table, call: Call, now: real)
    requires Faithful(c, t) && Verdict(c, t, call, now).Guessed?
    ensures forall n :: n in t.channels && Fits(c, t.channels[n], call, now) <==> n == Verdict(c, t, call, now).name
  {
    CandidatesOfTable(c, t, call, now);
    SoleMember(Candidates(c, t, t.names, call, now));
  }

  lemma SoleMember(found: seq<string>)
    requires |found| == 1
    ensures forall n :: n in found <==> n == found[0]
  {
  }

  /** With two channels that fit, the answer is that it is ambiguous, and nothing is hung up. */
  lemma TwoFitsAreAmbiguous(c: Config, t: Table, call: Call, now: real, m: string, n: string)
    requires Faithful(c, t) && c.allowHeuristic && call.callId !in t.byCallId
    requires m != n && m in t.channels && n in t.channels && Fits(c, t.channels[m], call, now)
             && Fits(c, t.channels[n], call, now)
    ensures Verdict(c, t, call, now).Ambiguous?
  {
    CandidatesOfTable(c, t, call, now);
    var found := Candidates(c, t, t.names, call, now);
    assert m in found && n in found;
  }

  // ---- Hangup ----

  const CommandLimit := 490

  function HangupCommand(name: string): string {
    "channel request hangup " + name
  }

  /** The commands an attempt may send: at most one, for a resolved channel, short enough, with enforcement on. */
  function Sent(enforce: bool, r: Resolution): seq<string> {
    match r
    case Ambiguous(_) => []
    case Miss => []
    case _ => if enforce && |HangupCommand(r.name)| < CommandLimit then [HangupCommand(r.name)] else []
  }

  class Hangup {
    const enforce: bool
    var attempted: nat
    var executed: nat
    var refused: nat
    var sent: seq<string>

    constructor (enforce: bool)
      ensures this.enforce == enforce && sent == [] && attempted == executed == refused == 0
    {
      this.enforce := enforce;
      attempted, executed, refused, sent := 0, 0, 0, [];
    }

    method Execute(r: Resolution) returns (acted: bool)
      modifies this
      ensures sent == old(sent) + Sent(enforce, r) && acted == (Sent(enforce, r) != [])
      ensures attempted == old(attempted) + 1 && executed == old(executed) + |Sent(enforce, r)|
      ensures refused == old(refused) + if Sent(true, r) == [] then 1 else 0
    {
      attempted := attempted + 1;
      if r.Ambiguous? || r.Miss? {
        refused := refused + 1;
        return false;
      }
      var command := HangupCommand(r.name);
      if |command| >= CommandLimit {
        refused := refused + 1;
        return false;
      }
      if !enforce {
        return false;
      }
      sent := sent + [command];
      executed := executed + 1;
      return true;
    }
  }

  /** Resolve a call and hang up what was found. */
  method Act(table: ChannelTable, hangup: Hangup, first: Cli, second: Cli, call: Call, now: real) returns (acted: bool)
    requires Faithful(table.config, table.Contents())
    modifies table, hangup
    ensures Faithful(table.config, table.Contents())
    ensures hangup.sent == old(hangup.sent) + Sent(hangup.enforce, Verdict(table.config, table.Contents(), call, now))
    ensures acted && !table.config.allowHeuristic ==>
              exists n :: n in Listed(table.config, table.latest) && n in table.channels
                          && table.channels[n].callId == Some(call.callId)
                          && hangup.sent == old(hangup.sent) + [HangupCommand(n)]
  {
    ghost var before := table.Contents();
    RefreshedKeeps(table.config, before, first.listing, first.now, false);
    ghost var u := Refreshed(table.config, before, first.listing, first.now, false);
    AfterKeeps(table.config, u, AskAll(second, 32));
    var r := Resolve(table, first, second, call, now);
    acted := hangup.Execute(r);
    if r.Exact? {
      ExactIsTheCall(table.config, table.Contents(), call, now);
    }
  }

  /** The run of the table that a resolution makes: one listing, and a round of probes if that is not enough. */
  function Consultation(c: Config, ops: seq<Op>, first: Cli, second: Cli, call: Call): seq<Op> {
    var listed := ops + [List(first.listing, first.now, false)];
    if call.callId in Run(c, listed).byCallId then listed else listed + [AskAll(second, 32)]
  }

  lemma ConsultedByRun(c: Config, ops: seq<Op>, first: Cli, second: Cli, call: Call)
    ensures Consulted(c, Run(c, ops), first, second, call) == Run(c, Consultation(c, ops, first, second, call))
  {
    var listed := ops + [List(first.listing, first.now, false)];
    assert listed[..|listed| - 1] == ops;
    var all := listed + [AskAll(second, 32)];
    assert all[..|all| - 1] == listed;
  }

  /**
   Without the heuristic, a hangup names a channel of the latest listing for which the CLI printed the call's own
   Call-ID since the channel was last entered; or there is none.
   */
  lemma HangupsHitTheCall(c: Config, ops: seq<Op>, first: Cli, second: Cli, call: Call, now: real, enforce: bool)
    requires !c.allowHeuristic
    ensures var done := Consultation(c, ops, first, second, call);
            var t := Run(c, done);
            forall command :: command in Sent(enforce, Verdict(c, t, call, now)) ==>
              exists n :: command == HangupCommand(n) && n in Listed(c, t.latest) && n in t.channels
                          && t.channels[n].callId == Some(call.callId) && ReadFromCli(c, done, n, call.callId)
  {
    var done := Consultation(c, ops, first, second, call);
    EveryRunIsFaithful(c, done);
    EveryIdWasRead(c, done);
    if Verdict(c, Run(c, done), call, now).Exact? {
      ExactIsTheCall(c, Run(c, done), call, now);
    }
  }
}
