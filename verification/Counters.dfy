/** Rolling counts per customer address, trimmed through a first-row shortcut, with rate-limited alerts. */
module Counters {

  type Ip = string

  datatype Kind = Calls | Kill | NearMiss | BEvent

  datatype Event = Event(ts: real, kind: Kind)

  /** `round` is rounding to three decimals. */
  datatype Config = Config(window: real, killRate: real, bRate: real, minCalls: nat, interval: real,
                           round: real -> real)

  /** The fields: each address's events, oldest first, and when it was last alerted on. */
  datatype Book = Book(events: map<Ip, seq<Event>>, lastAlert: map<Ip, real>)

  datatype Counts = Counts(calls: nat, kill: nat, near: nat, bEvents: nat)

  /** An address's line of a snapshot: its counts, and two of them per thousand calls. */
  datatype Line = Line(counts: Counts, killPer1k: real, bPer1k: real)

  /** The events not before the cutoff. */
  function Within(rows: seq<Event>, cutoff: real): (r: seq<Event>)
    ensures |r| <= |rows|
  {
    if rows == [] then []
    else Within(rows[..|rows| - 1], cutoff) + if rows[|rows| - 1].ts >= cutoff then [rows[|rows| - 1]] else []
  }

  /** Nothing is filtered while the first row is still inside. */
  function Trimmed(rows: seq<Event>, cutoff: real): seq<Event> {
    if rows == [] || rows[0].ts >= cutoff then rows else Within(rows, cutoff)
  }

  function Tally(rows: seq<Event>, kind: Kind): nat {
    if rows == [] then 0 else Tally(rows[..|rows| - 1], kind) + if rows[|rows| - 1].kind == kind then 1 else 0
  }

  function CountsOf(rows: seq<Event>): Counts {
    Counts(Tally(rows, Calls), Tally(rows, Kill), Tally(rows, NearMiss), Tally(rows, BEvent))
  }

  function RowsOf(b: Book, ip: Ip): seq<Event> {
    if ip in b.events then b.events[ip] else []
  }

  function Added(c: Config, b: Book, ip: Ip, kind: Kind, now: real): Book {
    if ip == "" then b
    else b.(events := b.events[ip := Trimmed(RowsOf(b, ip) + [Event(now, kind)], now - c.window)])
  }

  function Looked(c: Config, b: Book, now: real): Book {
    b.(events := map ip | ip in b.events :: Trimmed(b.events[ip], now - c.window))
  }

  function Per1k(c: Config, n: nat, calls: nat): real {
    if calls == 0 then 0.0 else c.round(1000.0 * n as real / calls as real)
  }

  function LineOf(c: Config, n: Counts): Line {
    Line(n, Per1k(c, n.kill, n.calls), Per1k(c, n.bEvents, n.calls))
  }

  predicate OverRate(c: Config, n: Line) {
    n.counts.calls >= c.minCalls && (n.killPer1k >= c.killRate || n.bPer1k >= c.bRate)
  }

  function LastAlert(last: map<Ip, real>, ip: Ip): real {
    if ip in last then last[ip] else 0.0
  }

  predicate Due(c: Config, n: Line, last: real, now: real) {
    OverRate(c, n) && now - last >= c.interval
  }

  function Snapped(c: Config, b: Book): map<Ip, Line> {
    map ip | ip in b.events :: LineOf(c, CountsOf(b.events[ip]))
  }

  function Fired(c: Config, snapshot: map<Ip, Line>, last: map<Ip, real>, now: real): set<Ip> {
    set ip | ip in snapshot && Due(c, snapshot[ip], LastAlert(last, ip), now)
  }

  function Noted(last: map<Ip, real>, fired: set<Ip>, now: real): (r: map<Ip, real>)
    ensures forall ip :: LastAlert(r, ip) == if ip in fired then now else LastAlert(last, ip)
    ensures forall ip :: ip in fired ==> ip in r
    ensures forall ip :: ip in last ==> ip in r
  {
    last + map ip | ip in fired :: now
  }

  /** The addresses alerted on now: over a rate in the window, and not alerted on lately. */
  function FiredNow(c: Config, b: Book, now: real): set<Ip> {
    Fired(c, Snapped(c, Looked(c, b, now)), b.lastAlert, now)
  }

  function Alerted(c: Config, b: Book, now: real): Book {
    Book(Looked(c, b, now).events, Noted(b.lastAlert, FiredNow(c, b, now), now))
  }

  /** What a restart at `now` brings back of a saved book. */
  function Reloaded(c: Config, b: Book, now: real): Book {
    b.(events := map ip | ip in b.events && Within(b.events[ip], now - c.window) != [] ::
       Within(b.events[ip], now - c.window))
  }

  class CustomerCounters {
    const config: Config
    var events: map<Ip, seq<Event>>
    var lastAlert: map<Ip, real>

    /** Start from what was saved. */
    constructor (config: Config, saved: Book, now: real)
      ensures Contents() == Reloaded(config, saved, now) && this.config == config
    {
      this.config := config;
      events := map ip | ip in saved.events && Within(saved.events[ip], now - config.window) != []
                  :: Within(saved.events[ip], now - config.window);
      lastAlert := saved.lastAlert;
    }

    function Contents(): Book
      reads this
    {
      Book(events, lastAlert)
    }

    method Trim(ip: Ip, now: real)
      modifies this`events
      ensures events ==
              if ip in old(events) then old(events)[ip := Trimmed(old(events)[ip], now - config.window)]
              else old(events)
    {
      if ip in events {
        var keep := TrimRows(events[ip], now - config.window);
        events := events[ip := keep];
      }
    }

    method Add(ip: Ip, kind: Kind, now: real)
      modifies this
      ensures Contents() == Added(config, old(Contents()), ip, kind, now)
    {
      if ip == "" {
        return;
      }
      var rows := (if ip in events then events[ip] else []) + [Event(now, kind)];
      events := events[ip := rows];
      Trim(ip, now);
      TwiceSet(old(events), ip, rows, Trimmed(rows, now - config.window));
    }

    method TrimAll(now: real)
      modifies this`events
      ensures events == Looked(config, old(Contents()), now).events
    {
      var todo := events.Keys;
      while todo != {}
        invariant todo <= old(events).Keys == events.Keys
        invariant forall ip :: ip in todo ==> events[ip] == old(events)[ip]
        invariant forall ip :: ip in events && ip !in todo ==>
                    events[ip] == Trimmed(old(events)[ip], now - config.window)
        decreases todo
      {
        var ip :| ip in todo;
        Trim(ip, now);
        todo := todo - {ip};
      }
    }

    method CountAll() returns (r: map<Ip, Line>)
      ensures r == Snapped(config, Contents())
    {
      r := map[];
      var todo := events.Keys;
      while todo != {}
        invariant todo <= events.Keys && r.Keys == events.Keys - todo
        invariant forall ip :: ip in r ==> r[ip] == LineOf(config, CountsOf(events[ip]))
        decreases todo
      {
        var ip :| ip in todo;
        var n := CountRows(events[ip]);
        r := r[ip := LineOf(config, n)];
        todo := todo - {ip};
      }
    }

    method Snapshot(now: real) returns (r: map<Ip, Line>)
      modifies this`events
      ensures Contents() == Looked(config, old(Contents()), now)
      ensures r == Snapped(config, Contents())
    {
      TrimAll(now);
      r := CountAll();
    }

    /** Alert on every address over a rate that has not been alerted on lately. */
    method CheckAlerts(now: real) returns (fired: set<Ip>)
      modifies this
      ensures fired == FiredNow(config, old(Contents()), now)
      ensures Contents() == Alerted(config, old(Contents()), now)
    {
      var snapshot := Snapshot(now);
      fired, lastAlert := Alarms(config, snapshot, lastAlert, now);
    }
  }

  lemma TwiceSet(events: map<Ip, seq<Event>>, ip: Ip, rows: seq<Event>, kept: seq<Event>)
    ensures events[ip := rows][ip := kept] == events[ip := kept]
  {
  }

  method TrimRows(rows: seq<Event>, cutoff: real) returns (keep: seq<Event>)
    ensures keep == Trimmed(rows, cutoff)
  {
    if rows == [] || rows[0].ts >= cutoff {
      return rows;
    }
    keep := [];
    for k := 0 to |rows|
      invariant keep == Within(rows[..k], cutoff)
    {
      assert rows[..k + 1][..k] == rows[..k];
      if rows[k].ts >= cutoff {
        keep := keep + [rows[k]];
      }
    }
    assert rows[..|rows|] == rows;
  }

  lemma NotedOneMore(last: map<Ip, real>, fired: set<Ip>, now: real, ip: Ip)
    ensures Noted(last, fired + {ip}, now) == Noted(last, fired, now)[ip := now]
  {
  }

  method IsDue(c: Config, n: Line, last: real, now: real) returns (due: bool)
    ensures due == Due(c, n, last, now)
  {
    if n.counts.calls < c.minCalls {
      return false;
    }
    if n.killPer1k < c.killRate && n.bPer1k < c.bRate {
      return false;
    }
    return now - last >= c.interval;
  }

  method Alarms(c: Config, snapshot: map<Ip, Line>, last: map<Ip, real>, now: real)
      returns (fired: set<Ip>, r: map<Ip, real>)
    ensures fired == Fired(c, snapshot, last, now) && r == Noted(last, fired, now)
  {
    fired, r := {}, last;
    var todo := snapshot.Keys;
    while todo != {}
      invariant todo <= snapshot.Keys && fired == Fired(c, snapshot, last, now) - todo
      invariant r == Noted(last, fired, now)
      decreases todo
    {
      var ip :| ip in todo;
      var due := IsDue(c, snapshot[ip], LastAlert(r, ip), now);
      if due {
        NotedOneMore(last, fired, now, ip);
        r := r[ip := now];
        fired := fired + {ip};
      }
      todo := todo - {ip};
    }
  }

  method CountRows(rows: seq<Event>) returns (n: Counts)
    ensures n == CountsOf(rows)
  {
    n := Counts(0, 0, 0, 0);
    for k := 0 to |rows|
      invariant n == CountsOf(rows[..k])
    {
      assert rows[..k + 1][..k] == rows[..k];
      match rows[k].kind {
        case Calls => n := n.(calls := n.calls + 1);
        case Kill => n := n.(kill := n.kill + 1);
        case NearMiss => n := n.(near := n.near + 1);
        case BEvent => n := n.(bEvents := n.bEvents + 1);
      }
    }
    assert rows[..|rows|] == rows;
  }
}
