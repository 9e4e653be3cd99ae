/** The counters over whole histories: what is counted, and how far apart alerts are. */
module CounterLaws {
  import opened Counters

  lemma {:induction false} NothingOld(rows: seq<Event>, cutoff: real)
    requires forall i :: 0 <= i < |rows| ==> rows[i].ts >= cutoff
    ensures Within(rows, cutoff) == rows
    decreases |rows|
  {
    if rows != [] {
      NothingOld(rows[..|rows| - 1], cutoff);
      assert rows == rows[..|rows| - 1] + [rows[|rows| - 1]];
    }
  }

  lemma {:induction false} SomethingOld(rows: seq<Event>, cutoff: real, i: nat)
    requires i < |rows| && rows[i].ts < cutoff
    ensures |Within(rows, cutoff)| < |rows|
    decreases |rows|
  {
    if i < |rows| - 1 {
      SomethingOld(rows[..|rows| - 1], cutoff, i);
    }
  }

  predicate OldestFirst(rows: seq<Event>) {
    forall i :: 0 <= i < |rows| ==> rows[0].ts <= rows[i].ts
  }

  lemma ShortcutIsExact(rows: seq<Event>, cutoff: real)
    requires OldestFirst(rows)
    ensures Trimmed(rows, cutoff) == Within(rows, cutoff)
  {
    if rows != [] && rows[0].ts >= cutoff {
      NothingOld(rows, cutoff);
    }
  }

  lemma ShortcutKeepsTooMuch(rows: seq<Event>)
    requires !OldestFirst(rows)
    ensures Trimmed(rows, rows[0].ts) != Within(rows, rows[0].ts)
  {
    var i :| 0 <= i < |rows| && rows[i].ts < rows[0].ts;
    SomethingOld(rows, rows[0].ts, i);
  }

  /** The shortcut keeps exactly the window, whatever the cutoff, if and only if the first row is the oldest. */
  lemma ShortcutIsExactIff(rows: seq<Event>)
    ensures (forall cutoff :: Trimmed(rows, cutoff) == Within(rows, cutoff)) <==> OldestFirst(rows)
  {
    if OldestFirst(rows) {
      forall cutoff ensures Trimmed(rows, cutoff) == Within(rows, cutoff) {
        ShortcutIsExact(rows, cutoff);
      }
    } else {
      ShortcutKeepsTooMuch(rows);
    }
  }

  lemma WithinGrows(rows: seq<Event>, e: Event, cutoff: real)
    ensures Within(rows + [e], cutoff) == if e.ts >= cutoff then Within(rows, cutoff) + [e] else Within(rows, cutoff)
  {
    assert (rows + [e])[..|rows|] == rows;
  }

  /** Appending an event does the same to the rows filtered once and filtered twice. */
  lemma WithinTwiceGrows(front: seq<Event>, last: Event, early: real, late: real)
    requires early <= late && Within(Within(front, early), late) == Within(front, late)
    ensures Within(Within(front + [last], early), late) == Within(front + [last], late)
  {
    WithinGrows(front, last, early);
    WithinGrows(front, last, late);
    if last.ts >= early {
      WithinGrows(Within(front, early), last, late);
    }
  }

  lemma {:induction false} WithinTwice(rows: seq<Event>, early: real, late: real)
    requires early <= late
    ensures Within(Within(rows, early), late) == Within(rows, late)
    decreases |rows|
  {
    if rows != [] {
      var front, last := rows[..|rows| - 1], rows[|rows| - 1];
      WithinTwice(front, early, late);
      WithinTwiceGrows(front, last, early, late);
      assert rows == front + [last];
    }
  }

  /** Events in order of time, none after the clock. */
  ghost predicate Past(rows: seq<Event>, clock: real) {
    rows == [] || (rows[|rows| - 1].ts <= clock && Past(rows[..|rows| - 1], rows[|rows| - 1].ts))
  }

  lemma {:induction false} PastBounds(rows: seq<Event>, clock: real, i: nat)
    requires Past(rows, clock) && i < |rows|
    ensures rows[0].ts <= rows[i].ts <= clock
    decreases |rows|
  {
    if |rows| > 1 {
      var front, last := rows[..|rows| - 1], rows[|rows| - 1];
      PastBounds(front, last.ts, if i < |rows| - 1 then i else 0);
    }
  }

  lemma PastIsOldestFirst(rows: seq<Event>, clock: real)
    requires Past(rows, clock)
    ensures OldestFirst(rows)
  {
    forall i | 0 <= i < |rows| ensures rows[0].ts <= rows[i].ts {
      PastBounds(rows, clock, i);
    }
  }

  lemma PastAdded(rows: seq<Event>, now: real, e: Event)
    requires Past(rows, now) && e.ts == now
    ensures Past(rows + [e], now)
  {
    assert (rows + [e])[..|rows|] == rows;
  }

  lemma {:induction false} WithinIsPast(rows: seq<Event>, clock: real, cutoff: real)
    requires Past(rows, clock)
    ensures Past(Within(rows, cutoff), clock)
    decreases |rows|
  {
    if rows != [] {
      var front, last := rows[..|rows| - 1], rows[|rows| - 1];
      WithinIsPast(front, last.ts, cutoff);
      if last.ts >= cutoff {
        PastAdded(Within(front, cutoff), last.ts, last);
        PastLater(Within(front, cutoff) + [last], last.ts, clock);
      } else {
        PastLater(Within(front, cutoff), last.ts, clock);
        assert Within(rows, cutoff) == Within(front, cutoff);
      }
    }
  }

  lemma PastLater(rows: seq<Event>, clock: real, now: real)
    requires Past(rows, clock) && clock <= now
    ensures Past(rows, now)
  {
  }

  // ---- Whole histories, restarts included ----

  datatype Op = Add(ip: Ip, kind: Kind) | Look | Check | Save | Restart

  datatype Timed = Timed(op: Op, now: real)

  datatype Note = Note(ip: Ip, event: Event)

  datatype Alarm = Alarm(ips: set<Ip>, ts: real)

  /**
   The book, what was added to it, every round of alerts ever raised, and the last book saved with what had
   been added to that. A restart goes back to what was saved.
   */
  datatype World = World(book: Book, added: seq<Note>, alarms: seq<Alarm>, saved: Book, savedAdded: seq<Note>)

  const Start := World(Book(map[], map[]), [], [], Book(map[], map[]), [])

  function AddedBy(t: Timed): seq<Note> {
    if t.op.Add? && t.op.ip != "" then [Note(t.op.ip, Event(t.now, t.op.kind))] else []
  }

  function Next(c: Config, w: World, t: Timed): World {
    match t.op
    case Add(ip, kind) => w.(book := Added(c, w.book, ip, kind, t.now), added := w.added + AddedBy(t))
    case Look => w.(book := Looked(c, w.book, t.now))
    case Check =>
      w.(book := Alerted(c, w.book, t.now), alarms := w.alarms + [Alarm(FiredNow(c, w.book, t.now), t.now)])
    case Save => w.(saved := w.book, savedAdded := w.added)
    case Restart => w.(book := Reloaded(c, w.saved, t.now), added := w.savedAdded)
  }

  function Run(c: Config, ops: seq<Timed>): World {
    if ops == [] then Start else Next(c, Run(c, ops[..|ops| - 1]), ops[|ops| - 1])
  }

  function TimeOf(ops: seq<Timed>): real {
    if ops == [] then 0.0 else ops[|ops| - 1].now
  }

  /** Times never go back. */
  predicate InOrder(ops: seq<Timed>) {
    ops == [] || (TimeOf(ops[..|ops| - 1]) <= TimeOf(ops) && InOrder(ops[..|ops| - 1]))
  }

  /** Everything ever added for an address. */
  function History(added: seq<Note>, ip: Ip): seq<Event> {
    if added == [] then []
    else History(added[..|added| - 1], ip) + if added[|added| - 1].ip == ip then [added[|added| - 1].event] else []
  }

  /** Inside the window, the rows are the history. */
  ghost predicate Agree(rows: seq<Event>, history: seq<Event>, cutoff: real) {
    Within(rows, cutoff) == Within(history, cutoff)
  }

  /** The rows of an address are in order, none is from the future, and none inside the window is missing. */
  ghost predicate RowsOk(c: Config, rows: seq<Event>, history: seq<Event>, clock: real) {
    Past(rows, clock) && Agree(rows, history, clock - c.window)
  }

  ghost predicate BookOk(c: Config, b: Book, added: seq<Note>, clock: real, ip: Ip) {
    RowsOk(c, RowsOf(b, ip), History(added, ip), clock)
  }

  lemma AgreeLater(rows: seq<Event>, history: seq<Event>, early: real, late: real)
    requires Agree(rows, history, early) && early <= late
    ensures Agree(rows, history, late)
  {
    WithinTwice(rows, early, late);
    WithinTwice(history, early, late);
  }

  lemma RowsLater(c: Config, rows: seq<Event>, history: seq<Event>, clock: real, now: real)
    requires RowsOk(c, rows, history, clock) && clock <= now
    ensures RowsOk(c, rows, history, now)
  {
    PastLater(rows, clock, now);
    AgreeLater(rows, history, clock - c.window, now - c.window);
  }

  lemma PastTrimmed(rows: seq<Event>, clock: real, cutoff: real)
    requires Past(rows, clock)
    ensures Trimmed(rows, cutoff) == Within(rows, cutoff) && Past(Within(rows, cutoff), clock)
  {
    PastIsOldestFirst(rows, clock);
    ShortcutIsExact(rows, cutoff);
    WithinIsPast(rows, clock, cutoff);
  }

  lemma AgreeTrimmed(rows: seq<Event>, history: seq<Event>, cutoff: real, kept: seq<Event>)
    requires Agree(rows, history, cutoff) && kept == Within(rows, cutoff)
    ensures Agree(kept, history, cutoff)
  {
    WithinTwice(rows, cutoff, cutoff);
  }

  lemma KeptIsPast(rows: seq<Event>, clock: real, cutoff: real, kept: seq<Event>)
    requires Past(rows, clock) && (kept == Trimmed(rows, cutoff) || kept == Within(rows, cutoff))
    ensures kept == Within(rows, cutoff) && Past(kept, clock)
  {
    PastTrimmed(rows, clock, cutoff);
  }

  lemma RowsTrimmed(c: Config, rows: seq<Event>, history: seq<Event>, now: real, kept: seq<Event>)
    requires RowsOk(c, rows, history, now)
    requires kept == Trimmed(rows, now - c.window) || kept == Within(rows, now - c.window)
    ensures RowsOk(c, kept, history, now)
  {
    KeptIsPast(rows, now, now - c.window, kept);
    AgreeTrimmed(rows, history, now - c.window, kept);
  }

  lemma AgreeAdded(rows: seq<Event>, history: seq<Event>, cutoff: real, e: Event)
    requires Agree(rows, history, cutoff)
    ensures Agree(rows + [e], history + [e], cutoff)
  {
    WithinGrows(rows, e, cutoff);
    WithinGrows(history, e, cutoff);
  }

  lemma RowsAdded(c: Config, rows: seq<Event>, history: seq<Event>, now: real, e: Event)
    requires RowsOk(c, rows, history, now) && e.ts == now
    ensures RowsOk(c, rows + [e], history + [e], now)
  {
    PastAdded(rows, now, e);
    AgreeAdded(rows, history, now - c.window, e);
  }

  lemma HistoryGrows(added: seq<Note>, n: Note, ip: Ip)
    ensures History(added + [n], ip) == History(added, ip) + if n.ip == ip then [n.event] else []
  {
    assert (added + [n])[..|added|] == added;
  }

  lemma LookKeepsRows(c: Config, b: Book, now: real, history: seq<Event>, ip: Ip)
    requires RowsOk(c, RowsOf(b, ip), history, now)
    ensures RowsOk(c, RowsOf(Looked(c, b, now), ip), history, now)
  {
    if ip in b.events {
      RowsTrimmed(c, b.events[ip], history, now, RowsOf(Looked(c, b, now), ip));
    }
  }

  lemma RestartKeepsRows(c: Config, b: Book, now: real, history: seq<Event>, ip: Ip)
    requires RowsOk(c, RowsOf(b, ip), history, now)
    ensures RowsOk(c, RowsOf(Reloaded(c, b, now), ip), history, now)
  {
    if ip in b.events {
      RowsTrimmed(c, b.events[ip], history, now, RowsOf(Reloaded(c, b, now), ip));
    }
  }

  lemma AddKeepsRows(c: Config, b: Book, now: real, history: seq<Event>, ip: Ip, kind: Kind)
    requires RowsOk(c, RowsOf(b, ip), history, now) && ip != ""
    ensures RowsOk(c, RowsOf(Added(c, b, ip, kind, now), ip), history + [Event(now, kind)], now)
  {
    var e := Event(now, kind);
    RowsAdded(c, RowsOf(b, ip), history, now, e);
    RowsTrimmed(c, RowsOf(b, ip) + [e], history + [e], now, RowsOf(Added(c, b, ip, kind, now), ip));
  }

  lemma AddLeavesOthers(c: Config, b: Book, added: seq<Note>, t: Timed, ip: Ip)
    requires t.op.Add? && t.op.ip != ip
    ensures RowsOf(Added(c, b, t.op.ip, t.op.kind, t.now), ip) == RowsOf(b, ip)
    ensures History(added + AddedBy(t), ip) == History(added, ip)
  {
    if t.op.ip == "" {
      assert added + [] == added;
    } else {
      HistoryGrows(added, AddedBy(t)[0], ip);
      assert History(added, ip) + [] == History(added, ip);
    }
  }

  lemma RowsOfAdd(c: Config, b: Book, added: seq<Note>, t: Timed, ip: Ip)
    requires t.op.Add? && RowsOk(c, RowsOf(b, ip), History(added, ip), t.now)
    ensures RowsOk(c, RowsOf(Added(c, b, t.op.ip, t.op.kind, t.now), ip), History(added + AddedBy(t), ip), t.now)
  {
    if ip != t.op.ip {
      AddLeavesOthers(c, b, added, t, ip);
    } else if ip == "" {
      assert added + [] == added;
    } else {
      HistoryGrows(added, AddedBy(t)[0], ip);
      AddKeepsRows(c, b, t.now, History(added, ip), ip, t.op.kind);
    }
  }

  lemma BookLater(c: Config, b: Book, added: seq<Note>, clock: real, now: real, ip: Ip)
    requires BookOk(c, b, added, clock, ip) && clock <= now
    ensures BookOk(c, b, added, now, ip)
  {
    RowsLater(c, RowsOf(b, ip), History(added, ip), clock, now);
  }

  /** Both books, the live one and the saved one, hold what was added to them and is inside the window. */
  ghost predicate BooksOk(c: Config, w: World, clock: real, ip: Ip) {
    BookOk(c, w.book, w.added, clock, ip) && BookOk(c, w.saved, w.savedAdded, clock, ip)
  }

  lemma BooksLater(c: Config, w: World, clock: real, now: real, ip: Ip)
    requires BooksOk(c, w, clock, ip) && clock <= now
    ensures BooksOk(c, w, now, ip)
  {
    BookLater(c, w.book, w.added, clock, now, ip);
    BookLater(c, w.saved, w.savedAdded, clock, now, ip);
  }

  lemma NextKeepsBook(c: Config, w: World, t: Timed, ip: Ip)
    requires BooksOk(c, w, t.now, ip)
    ensures BooksOk(c, Next(c, w, t), t.now, ip)
  {
    match t.op
    case Add(_, _) => RowsOfAdd(c, w.book, w.added, t, ip);
    case Look => LookKeepsRows(c, w.book, t.now, History(w.added, ip), ip);
    case Check => LookKeepsRows(c, w.book, t.now, History(w.added, ip), ip);
    case Save =>
    case Restart => RestartKeepsRows(c, w.saved, t.now, History(w.savedAdded, ip), ip);
  }

  lemma {:induction false} RunKeepsBook(c: Config, ops: seq<Timed>, ip: Ip)
    requires InOrder(ops)
    ensures BooksOk(c, Run(c, ops), TimeOf(ops), ip)
    decreases |ops|
  {
    if ops != [] {
      var front, last := ops[..|ops| - 1], ops[|ops| - 1];
      RunKeepsBook(c, front, ip);
      BooksLater(c, Run(c, front), TimeOf(front), last.now, ip);
      NextKeepsBook(c, Run(c, front), last, ip);
    }
  }

  lemma WindowIsExact(rows: seq<Event>, history: seq<Event>, clock: real, cutoff: real)
    requires Past(rows, clock) && Agree(rows, history, cutoff)
    ensures Trimmed(rows, cutoff) == Within(history, cutoff)
  {
    PastTrimmed(rows, clock, cutoff);
  }

  lemma BookIsWindow(c: Config, b: Book, added: seq<Note>, clock: real, now: real, ip: Ip)
    requires BookOk(c, b, added, clock, ip) && clock <= now
    ensures Trimmed(RowsOf(b, ip), now - c.window) == Within(History(added, ip), now - c.window)
  {
    BookLater(c, b, added, clock, now, ip);
    WindowIsExact(RowsOf(b, ip), History(added, ip), now, now - c.window);
  }

  /** What a snapshot counts is the rolling window of what was added and not lost to a restart. */
  lemma RowsAreTheWindow(c: Config, ops: seq<Timed>, now: real, ip: Ip)
    requires InOrder(ops) && now >= TimeOf(ops)
    ensures Trimmed(RowsOf(Run(c, ops).book, ip), now - c.window) ==
              Within(History(Run(c, ops).added, ip), now - c.window)
  {
    RunKeepsBook(c, ops, ip);
    BookIsWindow(c, Run(c, ops).book, Run(c, ops).added, TimeOf(ops), now, ip);
  }

  /** The line an address is shown with is that of its window; an address not shown has an empty one. */
  lemma CountsAreExact(c: Config, ops: seq<Timed>, now: real, ip: Ip)
    requires InOrder(ops) && now >= TimeOf(ops)
    ensures var w := Run(c, ops);
            var shown, window := Snapped(c, Looked(c, w.book, now)), Within(History(w.added, ip), now - c.window);
            if ip in shown then shown[ip] == LineOf(c, CountsOf(window)) else window == []
  {
    RowsAreTheWindow(c, ops, now, ip);
    LookedIs(c, Run(c, ops).book, now, ip);
    SnappedIs(c, Looked(c, Run(c, ops).book, now), ip);
  }

  lemma LookedIs(c: Config, b: Book, now: real, ip: Ip)
    ensures RowsOf(Looked(c, b, now), ip) == Trimmed(RowsOf(b, ip), now - c.window)
  {
  }

  lemma SnappedIs(c: Config, b: Book, ip: Ip)
    ensures if ip in Snapped(c, b) then Snapped(c, b)[ip] == LineOf(c, CountsOf(RowsOf(b, ip))) else RowsOf(b, ip) == []
  {
  }

  // ---- What a restart loses ----

  /** Everything ever added, lost or not. */
  function EverAdded(ops: seq<Timed>): seq<Note> {
    if ops == [] then [] else EverAdded(ops[..|ops| - 1]) + AddedBy(ops[|ops| - 1])
  }

  /** What was added since the last save or restart. */
  function Pending(ops: seq<Timed>): seq<Note> {
    if ops == [] || ops[|ops| - 1].op.Save? || ops[|ops| - 1].op.Restart? then []
    else Pending(ops[..|ops| - 1]) + AddedBy(ops[|ops| - 1])
  }

  /** What restarts lost: everything pending when one came. */
  function LostNotes(ops: seq<Timed>): seq<Note> {
    if ops == [] then []
    else LostNotes(ops[..|ops| - 1]) + if ops[|ops| - 1].op.Restart? then Pending(ops[..|ops| - 1]) else []
  }

  /** The events of an address in the notes that are not before the cutoff. */
  function InWindow(notes: seq<Note>, ip: Ip, cutoff: real): seq<Event> {
    Within(History(notes, ip), cutoff)
  }

  lemma {:induction false} HistoryJoins(a: seq<Note>, b: seq<Note>, ip: Ip)
    ensures History(a + b, ip) == History(a, ip) + History(b, ip)
    decreases |b|
  {
    if b == [] {
      assert a + b == a;
    } else {
      HistoryJoins(a, b[..|b| - 1], ip);
      assert (a + b)[..|a + b| - 1] == a + b[..|b| - 1];
    }
  }

  lemma {:induction false} WithinJoins(x: seq<Event>, y: seq<Event>, cutoff: real)
    ensures Within(x + y, cutoff) == Within(x, cutoff) + Within(y, cutoff)
    decreases |y|
  {
    if y == [] {
      assert x + y == x;
    } else {
      WithinJoins(x, y[..|y| - 1], cutoff);
      assert (x + y)[..|x + y| - 1] == x + y[..|y| - 1];
    }
  }

  lemma InWindowJoins(a: seq<Note>, b: seq<Note>, ip: Ip, cutoff: real)
    ensures InWindow(a + b, ip, cutoff) == InWindow(a, ip, cutoff) + InWindow(b, ip, cutoff)
  {
    HistoryJoins(a, b, ip);
    WithinJoins(History(a, ip), History(b, ip), cutoff);
  }

  /** No event of the address is in the window any more. */
  ghost predicate Passed(notes: seq<Note>, ip: Ip, cutoff: real) {
    forall n :: n in notes && n.ip == ip ==> n.event.ts < cutoff
  }

  lemma InWindowOfOne(n: Note, ip: Ip, cutoff: real)
    ensures InWindow([n], ip, cutoff) == if n.ip == ip && n.event.ts >= cutoff then [n.event] else []
  {
    assert [n][..0] == [];
    assert History([n], ip) == if n.ip == ip then [n.event] else [];
    assert [n.event][..0] == [];
  }

  lemma {:induction false} NothingInWindowIff(notes: seq<Note>, ip: Ip, cutoff: real)
    ensures InWindow(notes, ip, cutoff) == [] <==> Passed(notes, ip, cutoff)
    decreases |notes|
  {
    if notes != [] {
      var front, last := notes[..|notes| - 1], notes[|notes| - 1];
      NothingInWindowIff(front, ip, cutoff);
      assert notes == front + [last];
      InWindowJoins(front, [last], ip, cutoff);
      InWindowOfOne(last, ip, cutoff);
    }
  }

  lemma PendingGrows(c: Config, w: World, t: Timed, pending: seq<Note>)
    requires w.added == w.savedAdded + pending
    ensures var grown := if t.op.Save? || t.op.Restart? then [] else pending + AddedBy(t);
            Next(c, w, t).added == Next(c, w, t).savedAdded + grown
  {
    assert w.savedAdded + (pending + AddedBy(t)) == w.savedAdded + pending + AddedBy(t);
  }

  lemma {:induction false} AddedIsSavedAndPending(c: Config, ops: seq<Timed>)
    ensures Run(c, ops).added == Run(c, ops).savedAdded + Pending(ops)
    decreases |ops|
  {
    if ops != [] {
      AddedIsSavedAndPending(c, ops[..|ops| - 1]);
      PendingGrows(c, Run(c, ops[..|ops| - 1]), ops[|ops| - 1], Pending(ops[..|ops| - 1]));
    }
  }

  /** Of an address's events in the window, none is missing if none was lost, and otherwise as many as were lost. */
  ghost predicate KeptOrLost(added: seq<Note>, lost: seq<Note>, all: seq<Note>, ip: Ip, cutoff: real) {
    && |InWindow(all, ip, cutoff)| == |InWindow(added, ip, cutoff)| + |InWindow(lost, ip, cutoff)|
    && (InWindow(lost, ip, cutoff) == [] ==> InWindow(added, ip, cutoff) == InWindow(all, ip, cutoff))
  }

  lemma MoreAreKept(added: seq<Note>, lost: seq<Note>, all: seq<Note>, more: seq<Note>, ip: Ip, cutoff: real)
    requires KeptOrLost(added, lost, all, ip, cutoff)
    ensures KeptOrLost(added + more, lost, all + more, ip, cutoff)
  {
    InWindowJoins(added, more, ip, cutoff);
    InWindowJoins(all, more, ip, cutoff);
  }

  lemma PendingIsLost(saved: seq<Note>, pending: seq<Note>, lost: seq<Note>, all: seq<Note>, ip: Ip, cutoff: real)
    requires KeptOrLost(saved + pending, lost, all, ip, cutoff)
    ensures KeptOrLost(saved, lost + pending, all, ip, cutoff)
  {
    InWindowJoins(saved, pending, ip, cutoff);
    InWindowJoins(lost, pending, ip, cutoff);
  }

  lemma RestartLoses(c: Config, w: World, pending: seq<Note>, lost: seq<Note>, all: seq<Note>, last: Timed, ip: Ip,
                     cutoff: real)
    requires last.op.Restart? && w.added == w.savedAdded + pending && KeptOrLost(w.added, lost, all, ip, cutoff)
    ensures KeptOrLost(Next(c, w, last).added, lost + pending, all + AddedBy(last), ip, cutoff)
  {
    PendingIsLost(w.savedAdded, pending, lost, all, ip, cutoff);
    assert all + AddedBy(last) == all;
  }

  lemma OthersKeep(c: Config, w: World, lost: seq<Note>, all: seq<Note>, last: Timed, ip: Ip, cutoff: real)
    requires !last.op.Restart? && KeptOrLost(w.added, lost, all, ip, cutoff)
    ensures KeptOrLost(Next(c, w, last).added, lost, all + AddedBy(last), ip, cutoff)
  {
    NextAdds(c, w, last);
    MoreAreKept(w.added, lost, all, AddedBy(last), ip, cutoff);
  }

  lemma NextAdds(c: Config, w: World, t: Timed)
    requires !t.op.Restart?
    ensures Next(c, w, t).added == w.added + AddedBy(t)
  {
    if !t.op.Add? {
      assert w.added + [] == w.added;
    }
  }

  lemma {:induction false} RunKeepsOrLoses(c: Config, ops: seq<Timed>, ip: Ip, cutoff: real)
    ensures KeptOrLost(Run(c, ops).added, LostNotes(ops), EverAdded(ops), ip, cutoff)
    decreases |ops|
  {
    if ops != [] {
      var front, last := ops[..|ops| - 1], ops[|ops| - 1];
      RunKeepsOrLoses(c, front, ip, cutoff);
      if last.op.Restart? {
        AddedIsSavedAndPending(c, front);
        RestartLoses(c, Run(c, front), Pending(front), LostNotes(front), EverAdded(front), last, ip, cutoff);
      } else {
        OthersKeep(c, Run(c, front), LostNotes(front), EverAdded(front), last, ip, cutoff);
        assert LostNotes(ops) == LostNotes(front);
      }
    }
  }

  function Total(n: Counts): nat {
    n.calls + n.kill + n.near + n.bEvents
  }

  lemma {:induction false} EveryEventIsCounted(rows: seq<Event>)
    ensures Total(CountsOf(rows)) == |rows|
    decreases |rows|
  {
    if rows != [] {
      EveryEventIsCounted(rows[..|rows| - 1]);
    }
  }

  /** What is shown for an address; one that is not shown has no counts. */
  function ShownCounts(c: Config, w: World, now: real, ip: Ip): Counts {
    var shown := Snapped(c, Looked(c, w.book, now));
    if ip in shown then shown[ip].counts else Counts(0, 0, 0, 0)
  }

  lemma NoRowsNoCounts()
    ensures CountsOf([]) == Counts(0, 0, 0, 0)
  {
  }

  /** The rows an address is shown with. */
  function ShownRows(c: Config, w: World, now: real, ip: Ip): seq<Event> {
    RowsOf(Looked(c, w.book, now), ip)
  }

  lemma ShownIs(c: Config, w: World, now: real, ip: Ip)
    ensures ShownCounts(c, w, now, ip) == CountsOf(ShownRows(c, w, now, ip))
    ensures ShownRows(c, w, now, ip) == Trimmed(RowsOf(w.book, ip), now - c.window)
  {
    LookedIs(c, w.book, now, ip);
    SnappedIs(c, Looked(c, w.book, now), ip);
    NoRowsNoCounts();
  }

  lemma ShownFromBook(c: Config, w: World, clock: real, now: real, ip: Ip, cutoff: real)
    requires BookOk(c, w.book, w.added, clock, ip) && clock <= now && cutoff == now - c.window
    ensures ShownRows(c, w, now, ip) == InWindow(w.added, ip, cutoff)
  {
    BookIsWindow(c, w.book, w.added, clock, now, ip);
    LookedIs(c, w.book, now, ip);
  }

  lemma ShownRowsAre(c: Config, ops: seq<Timed>, now: real, ip: Ip, cutoff: real)
    requires InOrder(ops) && now >= TimeOf(ops) && cutoff == now - c.window
    ensures ShownRows(c, Run(c, ops), now, ip) == InWindow(Run(c, ops).added, ip, cutoff)
  {
    RunKeepsBook(c, ops, ip);
    ShownFromBook(c, Run(c, ops), TimeOf(ops), now, ip, cutoff);
  }

  lemma RowsIffPassed(c: Config, ops: seq<Timed>, ip: Ip, cutoff: real, rows: seq<Event>)
    requires rows == InWindow(Run(c, ops).added, ip, cutoff)
    ensures rows == InWindow(EverAdded(ops), ip, cutoff) <==> Passed(LostNotes(ops), ip, cutoff)
    ensures |rows| == |InWindow(EverAdded(ops), ip, cutoff)| ==> rows == InWindow(EverAdded(ops), ip, cutoff)
  {
    RunKeepsOrLoses(c, ops, ip, cutoff);
    NothingInWindowIff(LostNotes(ops), ip, cutoff);
  }

  /**
   An address is shown with the rows of everything ever added for it in the window, whatever restarts came
   between, if and only if each of its events that a restart lost has left the window; and with the same
   number of events only if with the same ones.
   */
  lemma RowsSurviveIff(c: Config, ops: seq<Timed>, now: real, ip: Ip, cutoff: real)
    requires InOrder(ops) && now >= TimeOf(ops) && cutoff == now - c.window
    ensures var rows, ever := ShownRows(c, Run(c, ops), now, ip), InWindow(EverAdded(ops), ip, cutoff);
            (rows == ever <==> Passed(LostNotes(ops), ip, cutoff)) && (|rows| == |ever| ==> rows == ever)
  {
    ShownRowsAre(c, ops, now, ip, cutoff);
    RowsIffPassed(c, ops, ip, cutoff, ShownRows(c, Run(c, ops), now, ip));
  }

  lemma SameCountsSameRows(rows: seq<Event>, ever: seq<Event>)
    requires |rows| == |ever| ==> rows == ever
    ensures CountsOf(rows) == CountsOf(ever) <==> rows == ever
  {
    EveryEventIsCounted(rows);
    EveryEventIsCounted(ever);
  }

  /** So an address is shown with the counts of everything ever added for it in the window on the same condition. */
  lemma CountsSurviveIff(c: Config, ops: seq<Timed>, now: real, ip: Ip, cutoff: real)
    requires InOrder(ops) && now >= TimeOf(ops) && cutoff == now - c.window
    ensures ShownCounts(c, Run(c, ops), now, ip) == CountsOf(InWindow(EverAdded(ops), ip, cutoff))
            <==> Passed(LostNotes(ops), ip, cutoff)
  {
    var rows, ever := ShownRows(c, Run(c, ops), now, ip), InWindow(EverAdded(ops), ip, cutoff);
    RowsSurviveIff(c, ops, now, ip, cutoff);
    SameCountsSameRows(rows, ever);
    ShownIs(c, Run(c, ops), now, ip);
  }

  // ---- What a save brings back ----

  lemma KeptLooksTheSame(rows: seq<Event>, kept: seq<Event>, clock: real, cutoff: real)
    requires Past(rows, clock) && kept == Within(rows, cutoff)
    ensures Trimmed(kept, cutoff) == Trimmed(rows, cutoff)
  {
    PastTrimmed(rows, clock, cutoff);
    PastTrimmed(kept, clock, cutoff);
    WithinTwice(rows, cutoff, cutoff);
  }

  lemma ReloadedRows(c: Config, b: Book, now: real, ip: Ip)
    ensures RowsOf(Reloaded(c, b, now), ip) == Within(RowsOf(b, ip), now - c.window)
  {
  }

  /** What a reload kept, a look then leaves alone. */
  lemma ReloadedLooksTheSame(c: Config, b: Book, now: real, ip: Ip)
    requires Past(RowsOf(b, ip), now)
    ensures Trimmed(RowsOf(Reloaded(c, b, now), ip), now - c.window) == Trimmed(RowsOf(b, ip), now - c.window)
  {
    ReloadedRows(c, b, now, ip);
    KeptLooksTheSame(RowsOf(b, ip), RowsOf(Reloaded(c, b, now), ip), now, now - c.window);
  }

  lemma BookIsPast(c: Config, ops: seq<Timed>, now: real, ip: Ip)
    requires InOrder(ops) && now >= TimeOf(ops)
    ensures Past(RowsOf(Run(c, ops).book, ip), now)
  {
    RunKeepsBook(c, ops, ip);
    PastLater(RowsOf(Run(c, ops).book, ip), TimeOf(ops), now);
  }

  function SavedAndRestarted(c: Config, w: World, now: real): World {
    Next(c, Next(c, w, Timed(Save, now)), Timed(Restart, now))
  }

  /** After any history in order, a save and a restart right after it change the line shown for no address. */
  lemma SaveThenRestart(c: Config, ops: seq<Timed>, now: real, ip: Ip)
    requires InOrder(ops) && now >= TimeOf(ops)
    ensures ShownCounts(c, SavedAndRestarted(c, Run(c, ops), now), now, ip) == ShownCounts(c, Run(c, ops), now, ip)
    ensures SavedAndRestarted(c, Run(c, ops), now).book.lastAlert == Run(c, ops).book.lastAlert
  {
    BookIsPast(c, ops, now, ip);
    ReloadedLooksTheSame(c, Run(c, ops).book, now, ip);
    ShownIs(c, Run(c, ops), now, ip);
    ShownIs(c, SavedAndRestarted(c, Run(c, ops), now), now, ip);
  }

  /** After the clock is set back, the shortcut can keep an event the window has passed. */
  lemma ClockSetBack(c: Config)
    requires c.window > 0.0
    ensures var late := 2.0 * c.window;
            var b := Added(c, Added(c, Book(map[], map[]), "a", Calls, late), "a", Calls, 0.0);
            Event(0.0, Calls) in Trimmed(RowsOf(b, "a"), late - c.window)
  {
    var e, f := Event(2.0 * c.window, Calls), Event(0.0, Calls);
    var one := Added(c, Book(map[], map[]), "a", Calls, 2.0 * c.window);
    assert RowsOf(one, "a") == [e];
    assert RowsOf(Added(c, one, "a", Calls, 0.0), "a") == [e, f];
  }
}
