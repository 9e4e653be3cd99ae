/** What an address's line and its alerts say, in terms of its events in the window. */
module CounterRates {
  import opened Counters
  import opened CounterLaws

  /** The rows of one kind. */
  ghost function Places(rows: seq<Event>, kind: Kind): set<nat> {
    set i: nat | i < |rows| && rows[i].kind == kind
  }

  lemma {:induction false} TallyCounts(rows: seq<Event>, kind: Kind)
    ensures Tally(rows, kind) == |Places(rows, kind)|
    decreases |rows|
  {
    if rows != [] {
      var n := |rows| - 1;
      TallyCounts(rows[..n], kind);
      assert Places(rows, kind) == Places(rows[..n], kind) + if rows[n].kind == kind then {n} else {};
    }
  }

  /** Within a cutoff are the events at or after it, each as often as before, and no others. */
  lemma {:induction false} WithinAre(rows: seq<Event>, cutoff: real, e: Event)
    ensures multiset(Within(rows, cutoff))[e] == if e.ts >= cutoff then multiset(rows)[e] else 0
    decreases |rows|
  {
    if rows != [] {
      WithinAre(rows[..|rows| - 1], cutoff, e);
      assert rows == rows[..|rows| - 1] + [rows[|rows| - 1]];
    }
  }

  /** A rate is per thousand calls, rounded, and nothing where there were no calls. */
  function PerThousand(c: Config, n: nat, calls: nat): real {
    if calls > 0 then c.round((1000 * n) as real / calls as real) else 0.0
  }

  /** The line of an address counts each kind of event by itself, and rates kills and B events by calls. */
  lemma LineMeans(c: Config, b: Book, ip: Ip)
    requires ip in b.events
    ensures ip in Snapped(c, b)
    ensures var line, rows := Snapped(c, b)[ip], b.events[ip];
            && line.counts.calls == |Places(rows, Calls)| && line.counts.kill == |Places(rows, Kill)|
            && line.counts.near == |Places(rows, NearMiss)| && line.counts.bEvents == |Places(rows, BEvent)|
            && line.killPer1k == PerThousand(c, |Places(rows, Kill)|, |Places(rows, Calls)|)
            && line.bPer1k == PerThousand(c, |Places(rows, BEvent)|, |Places(rows, Calls)|)
  {
    var rows := b.events[ip];
    TallyCounts(rows, Calls);
    TallyCounts(rows, Kill);
    TallyCounts(rows, NearMiss);
    TallyCounts(rows, BEvent);
    assert forall n: nat :: 1000.0 * n as real == (1000 * n) as real;
  }

  /**
   An address is alerted on exactly when it has events in the book, enough calls among those in the window, either
   rate at its line or over, and no alert on record for less than the interval.
   */
  lemma AlertedIff(c: Config, b: Book, now: real, ip: Ip)
    ensures ip in FiredNow(c, b, now) <==>
            && ip in b.events
            && var rows := Trimmed(b.events[ip], now - c.window);
               var calls := |Places(rows, Calls)|;
               && calls >= c.minCalls
               && (PerThousand(c, |Places(rows, Kill)|, calls) >= c.killRate
                   || PerThousand(c, |Places(rows, BEvent)|, calls) >= c.bRate)
               && now - (if ip in b.lastAlert then b.lastAlert[ip] else 0.0) >= c.interval
  {
    if ip in b.events {
      LineMeans(c, Looked(c, b, now), ip);
    }
  }

  /** Checking notes the time for the addresses it alerts on and for no others, and trims what it looks at. */
  lemma AlertsAreNoted(c: Config, b: Book, now: real, ip: Ip)
    ensures var after := Alerted(c, b, now).lastAlert;
            if ip in FiredNow(c, b, now) then ip in after && after[ip] == now
            else (ip in after <==> ip in b.lastAlert) && (ip in after ==> after[ip] == b.lastAlert[ip])
  {
  }

  /** An event without an address is not counted; any other goes to the end of its own address's rows. */
  lemma AddedWhere(c: Config, b: Book, ip: Ip, kind: Kind, now: real, other: Ip)
    ensures Added(c, b, "", kind, now) == b
    ensures ip != "" && other != ip ==> RowsOf(Added(c, b, ip, kind, now), other) == RowsOf(b, other)
    ensures ip != "" && c.window >= 0.0 ==>
              var after := RowsOf(Added(c, b, ip, kind, now), ip);
              after != [] && after[|after| - 1] == Event(now, kind)
  {
    var rows := RowsOf(b, ip) + [Event(now, kind)];
    WithinGrows(RowsOf(b, ip), Event(now, kind), now - c.window);
  }
}
