/** Live channels and their Call-IDs, kept over changing CLI listings; resolution of a call, and its hangup. */
module Channels {
  import opened Common

  datatype Channel = Channel(exten: string, duration: int, endpoint: string, callId: Option<string>, probed: bool,
                             misses: nat)

  /** `endpoints` limits what is worth probing; `number` reads a duration, nought if it cannot. */
  datatype Config = Config(listTtl: real, prefix: string, endpoints: Option<set<string>>, number: string -> int,
                           allowHeuristic: bool, ageTolerance: real)

  /** The table's fields, channel names in the order they were first listed, and the last listing fetched. */
  datatype Table = Table(names: seq<string>, channels: map<string, Channel>, byCallId: map<string, string>,
                         lastList: real, failures: nat, latest: string)

  const Blank := Table([], map[], map[], 0.0, 0, "")

  const MaxProbeMisses := 4

  const ConciseFields := 14

  // ---- Reading what the CLI prints ----

  predicate Space(c: char) {
    c == ' ' || '\t' <= c <= '\r'
  }

  function LeftStrip(s: string): string {
    if s != "" && Space(s[0]) then LeftStrip(s[1..]) else s
  }

  function RightStrip(s: string): string {
    if s != "" && Space(s[|s| - 1]) then RightStrip(s[..|s| - 1]) else s
  }

  function Strip(s: string): string {
    RightStrip(LeftStrip(s))
  }

  function Split(s: string, sep: char): (r: seq<string>)
    ensures |r| >= 1
  {
    if s == "" then [""]
    else if s[0] == sep then [""] + Split(s[1..], sep)
    else
      var rest := Split(s[1..], sep);
      [[s[0]] + rest[0]] + rest[1..]
  }

  /** What stands before the last `sep`, or all of it. */
  function BeforeLast(s: string, sep: char): string {
    if sep !in s then s
    else if s[|s| - 1] == sep then s[..|s| - 1]
    else BeforeLast(s[..|s| - 1], sep)
  }

  function Before(s: string, sep: char): (r: string)
    ensures sep in s ==> |r| < |s|
  {
    if s == "" || s[0] == sep then "" else [s[0]] + Before(s[1..], sep)
  }

  datatype Row = Row(name: string, exten: string, duration: int, endpoint: string)

  function RowOf(c: Config, raw: string): Option<Row> {
    var line := Strip(raw);
    var f := Split(line, '!');
    if |f| < ConciseFields || !(c.prefix <= f[0]) then None
    else Some(Row(f[0], f[2], c.number(f[11]), BeforeLast(f[0][|c.prefix|..], '-')))
  }

  function Rows(c: Config, lines: seq<string>): seq<Row> {
    if lines == [] then []
    else
      var last := RowOf(c, lines[|lines| - 1]);
      Rows(c, lines[..|lines| - 1]) + if last.Some? then [last.value] else []
  }

  function NamesOf(rows: seq<Row>): set<string> {
    set r | r in rows :: r.name
  }

  /** The channels a listing names. */
  function Listed(c: Config, listing: string): set<string> {
    NamesOf(Rows(c, Split(listing, '\n')))
  }

  /** The Call-ID the dialplan left among a channel's variables. */
  function CallIdIn(lines: seq<string>, inVariables: bool): Option<string>
    decreases |lines|
  {
    if lines == [] then None
    else
      var s := Strip(lines[0]);
      if "variables:" <= Lower(s) then CallIdIn(lines[1..], true)
      else if inVariables && !("-- " <= s) && '=' in s && Strip(Before(s, '=')) == "SBC_CALLID" then
        var value := Strip(s[|Before(s, '=')| + 1..]);
        if value == "" then None else Some(value)
      else CallIdIn(lines[1..], inVariables)
  }

  // ---- The table ----

  /** A listed channel: new, or with its place in the dialplan brought up to date. */
  function Entered(t: Table, r: Row): Table {
    if r.name in t.channels then
      t.(channels := t.channels[r.name := t.channels[r.name].(exten := r.exten, duration := r.duration,
                                                              endpoint := r.endpoint)])
    else
      t.(names := t.names + [r.name],
         channels := t.channels[r.name := Channel(r.exten, r.duration, r.endpoint, None, false, 0)])
  }

  function EnteredAll(t: Table, rows: seq<Row>): Table {
    if rows == [] then t else Entered(EnteredAll(t, rows[..|rows| - 1]), rows[|rows| - 1])
  }

  function Among(names: seq<string>, seen: set<string>): seq<string> {
    if names == [] then []
    else Among(names[..|names| - 1], seen) + if names[|names| - 1] in seen then [names[|names| - 1]] else []
  }

  /** This entry was made for a channel that is gone. */
  predicate Orphaned(t: Table, seen: set<string>, id: string)
    requires id in t.byCallId
  {
    var name := t.byCallId[id];
    name !in seen && name in t.channels && t.channels[name].callId == Some(id)
  }

  function Pruned(t: Table, seen: set<string>): Table {
    t.(names := Among(t.names, seen),
       channels := map n | n in t.channels && n in seen :: t.channels[n],
       byCallId := map id | id in t.byCallId && !Orphaned(t, seen, id) :: t.byCallId[id])
  }

  function Refreshed(c: Config, t: Table, listing: string, now: real, force: bool): Table {
    if !force && now - t.lastList < c.listTtl then t
    else Pruned(EnteredAll(t.(lastList := now, latest := listing), Rows(c, Split(listing, '\n'))), Listed(c, listing))
  }

  function Probed(t: Table, name: string, output: string): Table {
    if name !in t.channels || t.channels[name].probed || output == "" then t
    else
      var ch := t.channels[name];
      match CallIdIn(Split(output, '\n'), false)
      case Some(id) =>
        t.(channels := t.channels[name := ch.(callId := Some(id), probed := true)], byCallId := t.byCallId[id := name])
      case None =>
        var spent := ch.misses + 1 >= MaxProbeMisses;
        t.(channels := t.channels[name := ch.(misses := ch.misses + 1, probed := spent)],
           failures := t.failures + if spent then 1 else 0)
  }

  predicate WorthProbing(c: Config, ch: Channel) {
    c.endpoints.None? || ch.endpoint in c.endpoints.value
  }

  function Ignored(t: Table, name: string): Table
    requires name in t.channels
  {
    t.(channels := t.channels[name := t.channels[name].(probed := true)])
  }

  /** Probe the unprobed among `names`, `limit` of them at most unless it is nought. */
  function ProbedEach(c: Config, t: Table, names: seq<string>, n: nat, limit: nat, probe: string -> string)
      : (Table, nat)
    decreases |names|
  {
    if names == [] then (t, n)
    else if names[0] !in t.channels || t.channels[names[0]].probed then ProbedEach(c, t, names[1..], n, limit, probe)
    else if !WorthProbing(c, t.channels[names[0]]) then ProbedEach(c, Ignored(t, names[0]), names[1..], n, limit, probe)
    else
      var after := Probed(t, names[0], probe(names[0]));
      if limit > 0 && n + 1 >= limit then (after, n + 1) else ProbedEach(c, after, names[1..], n + 1, limit, probe)
  }

  /** What the CLI answers around one call: a listing, each channel's details, and when. */
  datatype Cli = Cli(listing: string, probe: string -> string, now: real)

  function ProbedAll(c: Config, t: Table, cli: Cli, limit: nat): (Table, nat) {
    var listed := Refreshed(c, t, cli.listing, cli.now, false);
    ProbedEach(c, listed, listed.names, 0, limit, cli.probe)
  }

  class ChannelTable {
    const config: Config
    var names: seq<string>
    var channels: map<string, Channel>
    var byCallId: map<string, string>
    var lastList: real
    var failures: nat

    /** The listing last fetched. */
    ghost var latest: string

    constructor (config: Config)
      ensures Contents() == Blank && this.config == config
    {
      this.config := config;
      names, channels, byCallId, lastList, failures, latest := [], map[], map[], 0.0, 0, "";
    }

    ghost function Contents(): Table
      reads this
    {
      Table(names, channels, byCallId, lastList, failures, latest)
    }

    method Refresh(listing: string, now: real, force: bool)
      modifies this
      ensures Contents() == Refreshed(config, old(Contents()), listing, now, force)
    {
      if !force && now - lastList < config.listTtl {
        return;
      }
      lastList := now;
      latest := listing;
      var seen := EnterAll(Split(listing, '\n'));
      Prune(seen);
    }

    method EnterAll(lines: seq<string>) returns (seen: set<string>)
      modifies this`names, this`channels
      ensures Contents() == EnteredAll(old(Contents()), Rows(config, lines)) && seen == NamesOf(Rows(config, lines))
    {
      seen := {};
      for k := 0 to |lines|
        invariant Contents() == EnteredAll(old(Contents()), Rows(config, lines[..k]))
        invariant seen == NamesOf(Rows(config, lines[..k]))
      {
        ghost var rows := Rows(config, lines[..k]);
        RowsGrow(config, lines[..k], lines[k]);
        assert lines[..k + 1] == lines[..k] + [lines[k]];
        var row := RowOf(config, lines[k]);
        if row.Some? {
          EnteredGrows(old(Contents()), rows, row.value);
          seen := seen + {row.value.name};
          Enter(row.value);
        } else {
          assert rows + [] == rows;
        }
      }
      assert lines[..|lines|] == lines;
    }

    method Enter(r: Row)
      modifies this`names, this`channels
      ensures Contents() == Entered(old(Contents()), r)
    {
      if r.name !in channels {
        names := names + [r.name];
        channels := channels[r.name := Channel(r.exten, r.duration, r.endpoint, None, false, 0)];
      } else {
        channels := channels[r.name := channels[r.name].(exten := r.exten, duration := r.duration,
                                                         endpoint := r.endpoint)];
      }
    }

    method Prune(seen: set<string>)
      modifies this`names, this`channels, this`byCallId
      ensures Contents() == Pruned(old(Contents()), seen)
    {
      var gone := channels.Keys - seen;
      byCallId := map id | id in byCallId && !(byCallId[id] in gone && channels[byCallId[id]].callId == Some(id)) ::
        byCallId[id];
      channels := map n | n in channels && n in seen :: channels[n];
      names := Among(names, seen);
    }

    /** Read one channel's Call-ID, once it has one; a bounded number of misses, and it is written off. */
    method Probe(name: string, output: string)
      modifies this`channels, this`byCallId, this`failures
      ensures Contents() == Probed(old(Contents()), name, output)
    {
      if name !in channels || channels[name].probed || output == "" {
        return;
      }
      var ch := channels[name];
      var id := ReadCallId(output);
      if id.Some? {
        channels := channels[name := ch.(callId := id, probed := true)];
        byCallId := byCallId[id.value := name];
      } else {
        ch := ch.(misses := ch.misses + 1);
        if ch.misses >= MaxProbeMisses {
          ch := ch.(probed := true);
          failures := failures + 1;
        }
        channels := channels[name := ch];
      }
    }

    method ProbeAll(cli: Cli, limit: nat) returns (n: nat)
      modifies this
      ensures (Contents(), n) == ProbedAll(config, old(Contents()), cli, limit)
    {
      Refresh(cli.listing, cli.now, false);
      n := 0;
      var order := names;
      ghost var start := Contents();
      for k := 0 to |order|
        invariant ProbedEach(config, start, order, 0, limit, cli.probe) ==
                    ProbedEach(config, Contents(), order[k..], n, limit, cli.probe)
      {
        var name := order[k];
        assert order[k..][0] == name && order[k..][1..] == order[k + 1..];
        if name in channels && !channels[name].probed {
          if !WorthProbing(config, channels[name]) {
            channels := channels[name := channels[name].(probed := true)];
          } else {
            Probe(name, cli.probe(name));
            n := n + 1;
            if limit > 0 && n >= limit {
              return;
            }
          }
        }
      }
    }
  }

  lemma RowsGrow(c: Config, lines: seq<string>, line: string)
    ensures Rows(c, lines + [line]) == Rows(c, lines) + if RowOf(c, line).Some? then [RowOf(c, line).value] else []
  {
    assert (lines + [line])[..|lines|] == lines;
  }

  lemma EnteredGrows(t: Table, rows: seq<Row>, r: Row)
    ensures EnteredAll(t, rows + [r]) == Entered(EnteredAll(t, rows), r)
    ensures NamesOf(rows + [r]) == NamesOf(rows) + {r.name}
  {
    assert (rows + [r])[..|rows|] == rows;
  }

  method ReadCallId(output: string) returns (r: Option<string>)
    ensures r == CallIdIn(Split(output, '\n'), false)
  {
    var lines, inVariables := Split(output, '\n'), false;
    for k := 0 to |lines|
      invariant CallIdIn(lines, false) == CallIdIn(lines[k..], inVariables)
    {
      var s := Strip(lines[k]);
      assert lines[k..][0] == lines[k] && lines[k..][1..] == lines[k + 1..];
      if "variables:" <= Lower(s) {
        inVariables := true;
      } else if inVariables && !("-- " <= s) && '=' in s && Strip(Before(s, '=')) == "SBC_CALLID" {
        var value := Strip(s[|Before(s, '=')| + 1..]);
        return if value == "" then None else Some(value);
      }
    }
    return None;
  }
}
