/** What the channel table keeps over any run of listings and probes, and what a lookup in it can miss. */
module TableRuns {
  import opened Common
  import opened Channels

  // ---- Every operation keeps the table sound ----

  ghost predicate Consistent(t: Table) {
    && (forall id :: id in t.byCallId ==> t.byCallId[id] in t.channels && t.channels[t.byCallId[id]].callId == Some(id))
    && (forall n :: n in t.channels && !t.channels[n].probed ==> t.channels[n].callId == None)
  }

  ghost predicate Ordered(t: Table) {
    Distinct(t.names) && forall n :: n in t.names <==> n in t.channels
  }

  /** Entries name channels carrying that Call-ID, and the channels are those of the last listing. */
  ghost predicate Faithful(c: Config, t: Table) {
    Consistent(t) && Ordered(t) && t.channels.Keys == Listed(c, t.latest)
  }

  lemma EnteredKeeps(t: Table, r: Row)
    requires Consistent(t) && Ordered(t)
    ensures Consistent(Entered(t, r)) && Ordered(Entered(t, r))
    ensures Entered(t, r).channels.Keys == t.channels.Keys + {r.name}
  {
  }

  lemma {:induction false} EnteredAllKeeps(t: Table, rows: seq<Row>)
    requires Consistent(t) && Ordered(t)
    ensures Consistent(EnteredAll(t, rows)) && Ordered(EnteredAll(t, rows))
    ensures EnteredAll(t, rows).channels.Keys == t.channels.Keys + NamesOf(rows)
    ensures EnteredAll(t, rows).latest == t.latest
    decreases |rows|
  {
    if rows != [] {
      var front, last := rows[..|rows| - 1], rows[|rows| - 1];
      EnteredAllKeeps(t, front);
      EnteredKeeps(EnteredAll(t, front), last);
      assert rows == front + [last];
      EnteredGrows(t, front, last);
    }
  }

  lemma {:induction false} AmongKeeps(names: seq<string>, seen: set<string>)
    requires Distinct(names)
    ensures Distinct(Among(names, seen))
    ensures forall n :: n in Among(names, seen) <==> n in names && n in seen
    decreases |names|
  {
    if names != [] {
      var front := names[..|names| - 1];
      AmongKeeps(front, seen);
      assert names == front + [names[|names| - 1]];
      assert forall n :: n in front ==> n != names[|names| - 1];
    }
  }

  lemma PrunedKeeps(t: Table, seen: set<string>)
    requires Consistent(t) && Ordered(t)
    ensures Consistent(Pruned(t, seen)) && Ordered(Pruned(t, seen))
    ensures Pruned(t, seen).channels.Keys == t.channels.Keys * seen
  {
    AmongKeeps(t.names, seen);
  }

  lemma RefreshedKeeps(c: Config, t: Table, listing: string, now: real, force: bool)
    requires Faithful(c, t)
    ensures Faithful(c, Refreshed(c, t, listing, now, force))
  {
    if force || now - t.lastList >= c.listTtl {
      var rows := Rows(c, Split(listing, '\n'));
      var start := t.(lastList := now, latest := listing);
      EnteredAllKeeps(start, rows);
      PrunedKeeps(EnteredAll(start, rows), NamesOf(rows));
    }
  }

  /** A channel whose Call-ID is unknown may be marked in any way that leaves it unknown. */
  lemma MarkedKeeps(c: Config, t: Table, name: string, ch: Channel, u: Table)
    requires Faithful(c, t) && name in t.channels && t.channels[name].callId.None? && ch.callId.None?
    requires u.channels == t.channels[name := ch] && u.names == t.names && u.byCallId == t.byCallId
             && u.latest == t.latest
    ensures Faithful(c, u)
  {
    assert u.channels.Keys == t.channels.Keys;
  }

  lemma IdentifiedKeeps(c: Config, t: Table, name: string, ch: Channel, id: string, u: Table)
    requires Faithful(c, t) && name in t.channels && t.channels[name].callId.None? && ch.callId == Some(id) && ch.probed
    requires u.channels == t.channels[name := ch] && u.names == t.names && u.byCallId == t.byCallId[id := name]
             && u.latest == t.latest
    ensures Faithful(c, u)
  {
    assert u.channels.Keys == t.channels.Keys;
  }

  lemma ProbedKeeps(c: Config, t: Table, name: string, output: string)
    requires Faithful(c, t)
    ensures Faithful(c, Probed(t, name, output))
  {
    if name in t.channels && !t.channels[name].probed && output != "" {
      var u := Probed(t, name, output);
      match CallIdIn(Split(output, '\n'), false)
      case Some(id) => IdentifiedKeeps(c, t, name, u.channels[name], id, u);
      case None => MarkedKeeps(c, t, name, u.channels[name], u);
    }
  }

  lemma IgnoredKeeps(c: Config, t: Table, name: string)
    requires Faithful(c, t) && name in t.channels && t.channels[name].callId.None?
    ensures Faithful(c, Ignored(t, name))
  {
    MarkedKeeps(c, t, name, t.channels[name].(probed := true), Ignored(t, name));
  }

  lemma {:induction false} ProbedEachKeeps(c: Config, t: Table, names: seq<string>, n: nat, limit: nat,
                                           probe: string -> string)
    requires Faithful(c, t)
    ensures Faithful(c, ProbedEach(c, t, names, n, limit, probe).0)
    decreases |names|
  {
    if names != [] {
      if names[0] !in t.channels || t.channels[names[0]].probed {
        ProbedEachKeeps(c, t, names[1..], n, limit, probe);
      } else if !WorthProbing(c, t.channels[names[0]]) {
        IgnoredKeeps(c, t, names[0]);
        ProbedEachKeeps(c, Ignored(t, names[0]), names[1..], n, limit, probe);
      } else {
        ProbedKeeps(c, t, names[0], probe(names[0]));
        if !(limit > 0 && n + 1 >= limit) {
          ProbedEachKeeps(c, Probed(t, names[0], probe(names[0])), names[1..], n + 1, limit, probe);
        }
      }
    }
  }

  /** Probing everything costs no more than `limit` questions, when there is a limit. */
  lemma {:induction false} ProbesAreBounded(c: Config, t: Table, names: seq<string>, n: nat, limit: nat,
                                            probe: string -> string)
    requires n < limit
    ensures n <= ProbedEach(c, t, names, n, limit, probe).1 <= limit
    decreases |names|
  {
    if names != [] {
      if names[0] !in t.channels || t.channels[names[0]].probed {
        ProbesAreBounded(c, t, names[1..], n, limit, probe);
      } else if !WorthProbing(c, t.channels[names[0]]) {
        ProbesAreBounded(c, Ignored(t, names[0]), names[1..], n, limit, probe);
      } else if n + 1 < limit {
        ProbesAreBounded(c, Probed(t, names[0], probe(names[0])), names[1..], n + 1, limit, probe);
      }
    }
  }

  // ---- Whole runs ----

  datatype Op =
    | List(listing: string, now: real, force: bool)
    | Ask(name: string, output: string)
    | AskAll(cli: Cli, limit: nat)

  function After(c: Config, t: Table, op: Op): Table {
    match op
    case List(listing, now, force) => Refreshed(c, t, listing, now, force)
    case Ask(name, output) => Probed(t, name, output)
    case AskAll(cli, limit) => ProbedAll(c, t, cli, limit).0
  }

  function Run(c: Config, ops: seq<Op>): Table {
    if ops == [] then Blank else After(c, Run(c, ops[..|ops| - 1]), ops[|ops| - 1])
  }

  lemma AfterKeeps(c: Config, t: Table, op: Op)
    requires Faithful(c, t)
    ensures Faithful(c, After(c, t, op))
  {
    match op
    case List(listing, now, force) => RefreshedKeeps(c, t, listing, now, force);
    case Ask(name, output) => ProbedKeeps(c, t, name, output);
    case AskAll(cli, limit) =>
      RefreshedKeeps(c, t, cli.listing, cli.now, false);
      var u := Refreshed(c, t, cli.listing, cli.now, false);
      ProbedEachKeeps(c, u, u.names, 0, limit, cli.probe);
  }

  lemma BlankIsFaithful(c: Config)
    ensures Faithful(c, Blank)
  {
    assert Split("", '\n') == [""];
    assert Split("", '!') == [""];
    RowsGrow(c, [], "");
    assert [] + [""] == [""];
    assert Rows(c, [""]) == [];
  }

  /** Whatever the CLI prints, every entry names a channel of the latest listing that carries the entry's Call-ID. */
  lemma {:induction false} EveryRunIsFaithful(c: Config, ops: seq<Op>)
    ensures Faithful(c, Run(c, ops))
    decreases |ops|
  {
    if ops == [] {
      BlankIsFaithful(c);
    } else {
      EveryRunIsFaithful(c, ops[..|ops| - 1]);
      AfterKeeps(c, Run(c, ops[..|ops| - 1]), ops[|ops| - 1]);
    }
  }

  // ---- What a lookup can miss ----

  /** Every channel known to carry a Call-ID is found by it. */
  ghost predicate Complete(t: Table) {
    forall n :: n in t.channels && t.channels[n].callId.Some? ==> t.channels[n].callId.value in t.byCallId
  }

  /** A listed channel whose Call-ID is entered under another channel that is no longer listed. */
  ghost predicate LosesTwin(t: Table, seen: set<string>, n: string) {
    && n in t.channels && n in seen && t.channels[n].callId.Some?
    && t.channels[n].callId.value in t.byCallId && t.byCallId[t.channels[n].callId.value] !in seen
  }

  /** Dropping channels loses a Call-ID exactly when two channels share it and the one entered goes first. */
  lemma CompleteUnlessTwins(t: Table, seen: set<string>)
    requires Consistent(t) && Complete(t)
    ensures Complete(Pruned(t, seen)) <==> !exists n :: LosesTwin(t, seen, n)
    ensures forall n :: LosesTwin(t, seen, n) ==>
              t.byCallId[t.channels[n].callId.value] != n
              && t.channels[t.byCallId[t.channels[n].callId.value]].callId == t.channels[n].callId
  {
    var u := Pruned(t, seen);
    if n :| LosesTwin(t, seen, n) {
      assert n in u.channels && u.channels[n].callId.value !in u.byCallId;
    } else {
      forall n | n in u.channels && u.channels[n].callId.Some? ensures u.channels[n].callId.value in u.byCallId {
        assert !LosesTwin(t, seen, n);
      }
    }
  }

  /** What was lost stays lost: a channel once probed is not asked again, however often the rest are. */
  lemma {:induction false} LostStaysLost(c: Config, t: Table, names: seq<string>, n: nat, limit: nat,
                                         probe: string -> string, id: string)
    requires id !in t.byCallId
    requires forall m :: m in t.channels && !t.channels[m].probed ==> CallIdIn(Split(probe(m), '\n'), false) != Some(id)
    ensures id !in ProbedEach(c, t, names, n, limit, probe).0.byCallId
    decreases |names|
  {
    if names != [] {
      if names[0] !in t.channels || t.channels[names[0]].probed {
        LostStaysLost(c, t, names[1..], n, limit, probe, id);
      } else if !WorthProbing(c, t.channels[names[0]]) {
        LostStaysLost(c, Ignored(t, names[0]), names[1..], n, limit, probe, id);
      } else if !(limit > 0 && n + 1 >= limit) {
        LostStaysLost(c, Probed(t, names[0], probe(names[0])), names[1..], n + 1, limit, probe, id);
      }
    }
  }

  // ---- Where a Call-ID in the table came from ----

  /** What the CLI printed for this channel in one operation of a run has this Call-ID. */
  predicate ReadIn(op: Op, name: string, id: string) {
    match op
    case List(_, _, _) => false
    case Ask(asked, output) => asked == name && CallIdIn(Split(output, '\n'), false) == Some(id)
    case AskAll(cli, _) => CallIdIn(Split(cli.probe(name), '\n'), false) == Some(id)
  }

  predicate Carries(t: Table, name: string, id: string) {
    name in t.channels && t.channels[name].callId == Some(id)
  }

  /**
   The CLI printed the Call-ID for the channel in some operation of the run, and from then to the end of the run
   the channel was in the table with it: it was not dropped and listed again under the same name.
   */
  predicate ReadFromCli(c: Config, ops: seq<Op>, name: string, id: string) {
    Carries(Run(c, ops), name, id) && ops != []
    && (ReadIn(ops[|ops| - 1], name, id) || ReadFromCli(c, ops[..|ops| - 1], name, id))
  }

  lemma {:induction false} EnteredAddsNoId(t: Table, rows: seq<Row>, name: string, id: string)
    requires Carries(EnteredAll(t, rows), name, id)
    ensures Carries(t, name, id)
    decreases |rows|
  {
    if rows != [] {
      EnteredAddsNoId(t, rows[..|rows| - 1], name, id);
    }
  }

  lemma RefreshedAddsNoId(c: Config, t: Table, listing: string, now: real, force: bool, name: string, id: string)
    requires Carries(Refreshed(c, t, listing, now, force), name, id)
    ensures Carries(t, name, id)
  {
    if force || now - t.lastList >= c.listTtl {
      EnteredAddsNoId(t.(lastList := now, latest := listing), Rows(c, Split(listing, '\n')), name, id);
    }
  }

  lemma {:induction false} ProbedEachReads(c: Config, t: Table, names: seq<string>, n: nat, limit: nat,
                                          probe: string -> string, name: string, id: string)
    requires Carries(ProbedEach(c, t, names, n, limit, probe).0, name, id)
    ensures Carries(t, name, id) || CallIdIn(Split(probe(name), '\n'), false) == Some(id)
    decreases |names|
  {
    if names != [] {
      if names[0] !in t.channels || t.channels[names[0]].probed {
        ProbedEachReads(c, t, names[1..], n, limit, probe, name, id);
      } else if !WorthProbing(c, t.channels[names[0]]) {
        ProbedEachReads(c, Ignored(t, names[0]), names[1..], n, limit, probe, name, id);
      } else if !(limit > 0 && n + 1 >= limit) {
        ProbedEachReads(c, Probed(t, names[0], probe(names[0])), names[1..], n + 1, limit, probe, name, id);
      }
    }
  }

  lemma StepReads(c: Config, t: Table, op: Op, name: string, id: string)
    requires Carries(After(c, t, op), name, id)
    ensures Carries(t, name, id) || ReadIn(op, name, id)
  {
    match op
    case List(listing, now, force) => RefreshedAddsNoId(c, t, listing, now, force, name, id);
    case Ask(asked, output) =>
    case AskAll(cli, limit) =>
      var u := Refreshed(c, t, cli.listing, cli.now, false);
      ProbedEachReads(c, u, u.names, 0, limit, cli.probe, name, id);
      if Carries(u, name, id) {
        RefreshedAddsNoId(c, t, cli.listing, cli.now, false, name, id);
      }
  }

  lemma {:induction false} IdWasRead(c: Config, ops: seq<Op>, name: string, id: string)
    requires Carries(Run(c, ops), name, id)
    ensures ReadFromCli(c, ops, name, id)
    decreases |ops|
  {
    var front, last := ops[..|ops| - 1], ops[|ops| - 1];
    StepReads(c, Run(c, front), last, name, id);
    if !ReadIn(last, name, id) {
      IdWasRead(c, front, name, id);
    }
  }

  /** Whatever a run holds as a channel's Call-ID, the CLI printed for that channel since it was last entered. */
  lemma EveryIdWasRead(c: Config, ops: seq<Op>)
    ensures forall name, id :: Carries(Run(c, ops), name, id) ==> ReadFromCli(c, ops, name, id)
  {
    forall name, id | Carries(Run(c, ops), name, id) ensures ReadFromCli(c, ops, name, id) {
      IdWasRead(c, ops, name, id);
    }
  }

  // ---- When a run can find every channel it knows ----

  lemma {:induction false} EnteredKeepsComplete(t: Table, rows: seq<Row>)
    requires Complete(t)
    ensures Complete(EnteredAll(t, rows))
    decreases |rows|
  {
    if rows != [] {
      EnteredKeepsComplete(t, rows[..|rows| - 1]);
    }
  }

  lemma {:induction false} ProbingKeepsComplete(c: Config, t: Table, names: seq<string>, n: nat, limit: nat,
                                                probe: string -> string)
    requires Complete(t)
    ensures Complete(ProbedEach(c, t, names, n, limit, probe).0)
    decreases |names|
  {
    if names != [] {
      if names[0] !in t.channels || t.channels[names[0]].probed {
        ProbingKeepsComplete(c, t, names[1..], n, limit, probe);
      } else if !WorthProbing(c, t.channels[names[0]]) {
        ProbingKeepsComplete(c, Ignored(t, names[0]), names[1..], n, limit, probe);
      } else if !(limit > 0 && n + 1 >= limit) {
        ProbingKeepsComplete(c, Probed(t, names[0], probe(names[0])), names[1..], n + 1, limit, probe);
      }
    }
  }

  /** The listing drops a channel whose Call-ID another channel, still listed, shares. */
  ghost predicate ListingLosesTwin(c: Config, t: Table, listing: string) {
    exists n :: LosesTwin(EnteredAll(t, Rows(c, Split(listing, '\n'))), Listed(c, listing), n)
  }

  /** The operation fetches a listing, and that listing loses a twin. */
  ghost predicate StepLosesTwin(c: Config, t: Table, op: Op) {
    match op
    case List(listing, now, force) => (force || now - t.lastList >= c.listTtl) && ListingLosesTwin(c, t, listing)
    case Ask(_, _) => false
    case AskAll(cli, _) => cli.now - t.lastList >= c.listTtl && ListingLosesTwin(c, t, cli.listing)
  }

  lemma {:induction false} ClockAside(t: Table, rows: seq<Row>, now: real, listing: string)
    ensures var u := EnteredAll(t.(lastList := now, latest := listing), rows);
            u.channels == EnteredAll(t, rows).channels && u.byCallId == EnteredAll(t, rows).byCallId
    decreases |rows|
  {
    if rows != [] {
      ClockAside(t, rows[..|rows| - 1], now, listing);
    }
  }

  lemma RefreshCompleteIff(c: Config, t: Table, listing: string, now: real, force: bool)
    requires Faithful(c, t) && Complete(t) && (force || now - t.lastList >= c.listTtl)
    ensures Complete(Refreshed(c, t, listing, now, force)) <==> !ListingLosesTwin(c, t, listing)
  {
    var rows := Rows(c, Split(listing, '\n'));
    var start := t.(lastList := now, latest := listing);
    var u := EnteredAll(start, rows);
    EnteredKeepsComplete(start, rows);
    EnteredAllKeeps(start, rows);
    ClockAside(t, rows, now, listing);
    CompleteUnlessTwins(u, Listed(c, listing));
    forall n ensures LosesTwin(u, Listed(c, listing), n) <==> LosesTwin(EnteredAll(t, rows), Listed(c, listing), n) {
    }
  }

  lemma StepKeepsComplete(c: Config, t: Table, op: Op)
    requires Faithful(c, t) && Complete(t) && !StepLosesTwin(c, t, op)
    ensures Complete(After(c, t, op))
  {
    match op
    case List(listing, now, force) =>
      if force || now - t.lastList >= c.listTtl {
        RefreshCompleteIff(c, t, listing, now, force);
      }
    case Ask(name, output) =>
    case AskAll(cli, limit) =>
      var u := Refreshed(c, t, cli.listing, cli.now, false);
      if cli.now - t.lastList >= c.listTtl {
        RefreshCompleteIff(c, t, cli.listing, cli.now, false);
      }
      ProbingKeepsComplete(c, u, u.names, 0, limit, cli.probe);
  }

  /** No listing of the run loses a twin. */
  ghost predicate NoTwinLost(c: Config, ops: seq<Op>)
    decreases |ops|
  {
    ops == []
    || (var front := ops[..|ops| - 1];
        NoTwinLost(c, front) && !StepLosesTwin(c, Run(c, front), ops[|ops| - 1]))
  }

  /** As long as no listing of the run loses a twin, every channel known to carry a Call-ID is found by it. */
  lemma {:induction false} RunStaysComplete(c: Config, ops: seq<Op>)
    requires NoTwinLost(c, ops)
    ensures Complete(Run(c, ops))
    decreases |ops|
  {
    if ops != [] {
      var front := ops[..|ops| - 1];
      RunStaysComplete(c, front);
      EveryRunIsFaithful(c, front);
      StepKeepsComplete(c, Run(c, front), ops[|ops| - 1]);
    }
  }

  /** The table is complete after the operation, and a pass over all channels also found it so after its listing. */
  ghost predicate CompleteDuring(c: Config, t: Table, op: Op) {
    && Complete(After(c, t, op))
    && (op.AskAll? ==> Complete(Refreshed(c, t, op.cli.listing, op.cli.now, false)))
  }

  /** At every point of the run so far the table was complete. */
  ghost predicate CompleteThroughout(c: Config, ops: seq<Op>)
    decreases |ops|
  {
    ops == []
    || (var front := ops[..|ops| - 1];
        CompleteThroughout(c, front) && CompleteDuring(c, Run(c, front), ops[|ops| - 1]))
  }

  lemma StepCompleteIff(c: Config, t: Table, op: Op)
    requires Faithful(c, t) && Complete(t)
    ensures CompleteDuring(c, t, op) <==> !StepLosesTwin(c, t, op)
  {
    if !StepLosesTwin(c, t, op) {
      StepKeepsComplete(c, t, op);
    }
    match op
    case List(listing, now, force) =>
      if force || now - t.lastList >= c.listTtl {
        RefreshCompleteIff(c, t, listing, now, force);
      }
    case Ask(_, _) =>
    case AskAll(cli, _) =>
      if cli.now - t.lastList >= c.listTtl {
        RefreshCompleteIff(c, t, cli.listing, cli.now, false);
      }
  }

  /** A run finds every channel it knows, all along, if and only if no listing loses a twin. */
  lemma {:induction false} CompleteThroughoutIff(c: Config, ops: seq<Op>)
    ensures CompleteThroughout(c, ops) <==> NoTwinLost(c, ops)
    decreases |ops|
  {
    if ops != [] {
      var front := ops[..|ops| - 1];
      CompleteThroughoutIff(c, front);
      if NoTwinLost(c, front) {
        RunStaysComplete(c, front);
        EveryRunIsFaithful(c, front);
        StepCompleteIff(c, Run(c, front), ops[|ops| - 1]);
      }
    }
  }
}
