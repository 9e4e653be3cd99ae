/** What a listing leaves of each channel, and what a round of probes asks and learns, field by field. */
module ListingLaws {
  import opened Common
  import opened Channels
  import opened TableRuns

  // ---- Listings ----

  /** The last row of that name. */
  ghost predicate LastRow(rows: seq<Row>, k: nat, name: string) {
    k < |rows| && rows[k].name == name && forall j :: k < j < |rows| ==> rows[j].name != name
  }

  ghost predicate PlacedBy(rows: seq<Row>, ch: Channel, name: string) {
    exists k: nat :: LastRow(rows, k, name) && ch.exten == rows[k].exten && ch.duration == rows[k].duration
                     && ch.endpoint == rows[k].endpoint
  }

  /** What was learnt of a channel: nothing, if it was not known. */
  predicate LearntAs(t: Table, ch: Channel, name: string) {
    if name in t.channels
    then ch.callId == t.channels[name].callId && ch.probed == t.channels[name].probed
         && ch.misses == t.channels[name].misses
    else ch.callId.None? && !ch.probed && ch.misses == 0
  }

  lemma {:induction false} NamesIff(rows: seq<Row>, name: string)
    ensures name in NamesOf(rows) <==> exists k :: 0 <= k < |rows| && rows[k].name == name
  {
    if k :| 0 <= k < |rows| && rows[k].name == name {
      assert rows[k] in rows;
    }
  }

  lemma PlacedStays(rows: seq<Row>, r: Row, ch: Channel, name: string)
    requires PlacedBy(rows, ch, name) && r.name != name
    ensures PlacedBy(rows + [r], ch, name)
  {
    var k: nat :| LastRow(rows, k, name) && ch.exten == rows[k].exten && ch.duration == rows[k].duration
                  && ch.endpoint == rows[k].endpoint;
    assert LastRow(rows + [r], k, name);
  }

  lemma PlacedAnew(v: Table, rows: seq<Row>, r: Row)
    ensures r.name in Entered(v, r).channels && PlacedBy(rows + [r], Entered(v, r).channels[r.name], r.name)
    ensures LearntAs(v, Entered(v, r).channels[r.name], r.name)
  {
    assert LastRow(rows + [r], |rows|, r.name);
  }

  lemma OtherUntouched(v: Table, r: Row, name: string)
    requires name in v.channels && name != r.name
    ensures name in Entered(v, r).channels && Entered(v, r).channels[name] == v.channels[name]
  {
  }

  lemma {:induction false} EnteredAre(t: Table, rows: seq<Row>, name: string)
    requires name in NamesOf(rows)
    ensures var u := EnteredAll(t, rows);
            name in u.channels && PlacedBy(rows, u.channels[name], name) && LearntAs(t, u.channels[name], name)
    decreases |rows|
  {
    var front, last := rows[..|rows| - 1], rows[|rows| - 1];
    assert rows == front + [last];
    EnteredGrows(t, front, last);
    var v := EnteredAll(t, front);
    if name in NamesOf(front) {
      EnteredAre(t, front, name);
    } else {
      EnteredOthers(t, front, name);
    }
    if last.name == name {
      PlacedAnew(v, front, last);
    } else {
      OtherUntouched(v, last, name);
      PlacedStays(front, last, v.channels[name], name);
    }
  }

  lemma {:induction false} EnteredOthers(t: Table, rows: seq<Row>, name: string)
    requires name !in NamesOf(rows)
    ensures var u := EnteredAll(t, rows);
            (name in u.channels <==> name in t.channels)
            && (name in t.channels ==> u.channels[name] == t.channels[name])
    decreases |rows|
  {
    if rows != [] {
      var front, last := rows[..|rows| - 1], rows[|rows| - 1];
      assert rows == front + [last];
      EnteredGrows(t, front, last);
      EnteredOthers(t, front, name);
    }
  }

  lemma {:induction false} EnteredLeaves(t: Table, rows: seq<Row>)
    ensures var u := EnteredAll(t, rows);
            u.byCallId == t.byCallId && u.failures == t.failures && u.lastList == t.lastList && u.latest == t.latest
    decreases |rows|
  {
    if rows != [] {
      EnteredLeaves(t, rows[..|rows| - 1]);
    }
  }

  predicate Due(c: Config, t: Table, now: real, force: bool) {
    force || now - t.lastList >= c.listTtl
  }

  /**
   A listing that is due: the channels are those it names, each placed as the last row of its name says and with
   what was learnt of it before; the Call-IDs still entered are those entered for a channel it names.
   */
  lemma AListingSets(c: Config, t: Table, listing: string, now: real, force: bool)
    requires Faithful(c, t) && Due(c, t, now, force)
    ensures var u, rows := Refreshed(c, t, listing, now, force), Rows(c, Split(listing, '\n'));
            && (forall n :: n in u.channels <==> n in NamesOf(rows))
            && (forall n :: n in u.channels ==> PlacedBy(rows, u.channels[n], n) && LearntAs(t, u.channels[n], n))
            && (forall id :: id in u.byCallId <==> id in t.byCallId && t.byCallId[id] in NamesOf(rows))
            && (forall id :: id in u.byCallId ==> u.byCallId[id] == t.byCallId[id])
            && u.failures == t.failures && u.lastList == now && u.latest == listing
  {
    var rows := Rows(c, Split(listing, '\n'));
    var start := t.(lastList := now, latest := listing);
    var v := EnteredAll(start, rows);
    EnteredAllKeeps(start, rows);
    EnteredLeaves(start, rows);
    assert v.channels.Keys == start.channels.Keys + NamesOf(rows);
    forall n | n in NamesOf(rows)
      ensures n in v.channels && PlacedBy(rows, v.channels[n], n) && LearntAs(t, v.channels[n], n)
    {
      EnteredAre(start, rows, n);
    }
    assert Refreshed(c, t, listing, now, force) == Pruned(v, NamesOf(rows));
    forall id | id in v.byCallId ensures Orphaned(v, NamesOf(rows), id) <==> t.byCallId[id] !in NamesOf(rows) {
      assert v.byCallId[id] in v.channels && v.channels[v.byCallId[id]].callId == Some(id);
    }
  }

  /** Until then, it is not fetched. */
  lemma NothingBeforeItIsDue(c: Config, t: Table, listing: string, now: real, force: bool)
    requires !Due(c, t, now, force)
    ensures Refreshed(c, t, listing, now, force) == t
  {
  }

  // ---- The order channels are taken in ----

  ghost predicate Ahead(names: seq<string>, m: string, n: string) {
    exists i, j :: 0 <= i < j < |names| && names[i] == m && names[j] == n
  }

  /** `m` is named by a row above every row that names `n`. */
  ghost predicate RowAhead(rows: seq<Row>, m: string, n: string) {
    exists i :: 0 <= i < |rows| && rows[i].name == m && forall j :: 0 <= j <= i ==> rows[j].name != n
  }

  lemma {:induction false} AmongInOrder(names: seq<string>, seen: set<string>, m: string, n: string)
    requires Ahead(Among(names, seen), m, n)
    ensures Ahead(names, m, n)
    decreases |names|
  {
    var all, front, last := Among(names, seen), names[..|names| - 1], names[|names| - 1];
    var kept := Among(front, seen);
    var i, j :| 0 <= i < j < |all| && all[i] == m && all[j] == n;
    if j < |kept| {
      assert kept[i] == m && kept[j] == n;
      AmongInOrder(front, seen, m, n);
      var a, b :| 0 <= a < b < |front| && front[a] == m && front[b] == n;
      assert names[a] == m && names[b] == n;
    } else {
      assert n == last && kept[i] == m;
      AmongIn(front, seen, m);
      var a :| 0 <= a < |front| && front[a] == m;
      assert names[a] == m && names[|names| - 1] == n;
    }
  }

  lemma {:induction false} AmongIn(names: seq<string>, seen: set<string>, m: string)
    requires m in Among(names, seen)
    ensures m in names
    decreases |names|
  {
    if m != names[|names| - 1] {
      AmongIn(names[..|names| - 1], seen, m);
    }
  }

  lemma {:induction false} EnteredInOrder(t: Table, rows: seq<Row>, m: string, n: string)
    requires Consistent(t) && Ordered(t) && Ahead(EnteredAll(t, rows).names, m, n)
    ensures Ahead(t.names, m, n) || (m in t.names && n !in t.names)
            || (m !in t.names && n !in t.names && RowAhead(rows, m, n))
    decreases |rows|
  {
    if rows != [] {
      var front, last := rows[..|rows| - 1], rows[|rows| - 1];
      assert rows == front + [last];
      EnteredGrows(t, front, last);
      EnteredAllKeeps(t, front);
      var v, u := EnteredAll(t, front), EnteredAll(t, rows);
      var i, j :| 0 <= i < j < |u.names| && u.names[i] == m && u.names[j] == n;
      if j < |v.names| {
        assert v.names[i] == m && v.names[j] == n;
        EnteredInOrder(t, front, m, n);
        if RowAhead(front, m, n) {
          RowAheadGrows(front, last, m, n);
        }
      } else {
        assert n == last.name && n !in v.channels;
        assert v.names[i] == m && m in v.channels;
        NamesIff(front, m);
        NamesIff(front, n);
        if m !in t.names {
          var k :| 0 <= k < |front| && front[k].name == m;
          assert RowAhead(front, m, n);
          RowAheadGrows(front, last, m, n);
        }
      }
    }
  }

  lemma RowAheadGrows(rows: seq<Row>, r: Row, m: string, n: string)
    requires RowAhead(rows, m, n)
    ensures RowAhead(rows + [r], m, n)
  {
    var i :| 0 <= i < |rows| && rows[i].name == m && forall j :: 0 <= j <= i ==> rows[j].name != n;
    assert (rows + [r])[i].name == m;
    assert forall j :: 0 <= j <= i ==> (rows + [r])[j] == rows[j];
  }

  /** Channels known before come first, in their old order; new ones follow in the order of the listing. */
  lemma KnownChannelsFirst(c: Config, t: Table, listing: string, now: real, force: bool, m: string, n: string)
    requires Faithful(c, t) && Due(c, t, now, force) && Ahead(Refreshed(c, t, listing, now, force).names, m, n)
    ensures Ahead(t.names, m, n) || (m in t.names && n !in t.names)
            || (m !in t.names && n !in t.names && RowAhead(Rows(c, Split(listing, '\n')), m, n))
  {
    var rows := Rows(c, Split(listing, '\n'));
    var start := t.(lastList := now, latest := listing);
    AmongInOrder(EnteredAll(start, rows).names, NamesOf(rows), m, n);
    EnteredInOrder(start, rows, m, n);
  }
}
