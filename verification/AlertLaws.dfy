/** How far apart the alerts on one address are, and exactly what a restart does to that. */
module AlertLaws {
  import opened Counters
  import opened CounterLaws

  /** Alerts on one address are the interval apart. */
  ghost predicate Spaced(alarms: seq<Alarm>, interval: real) {
    forall i, j, ip :: 0 <= i < j < |alarms| && ip in alarms[i].ips && ip in alarms[j].ips ==>
                         alarms[j].ts - alarms[i].ts >= interval
  }

  /** ...and the one on record for an address is no earlier than any. */
  ghost predicate AlarmsOk(alarms: seq<Alarm>, last: map<Ip, real>, interval: real) {
    && (forall i, ip :: 0 <= i < |alarms| && ip in alarms[i].ips ==> alarms[i].ts <= LastAlert(last, ip))
    && Spaced(alarms, interval)
  }

  lemma AlarmKeepsApart(alarms: seq<Alarm>, last: map<Ip, real>, interval: real, fired: set<Ip>, now: real)
    requires AlarmsOk(alarms, last, interval) && interval >= 0.0
    requires forall ip :: ip in fired ==> now - LastAlert(last, ip) >= interval
    ensures AlarmsOk(alarms + [Alarm(fired, now)], Noted(last, fired, now), interval)
  {
  }

  lemma OthersLeaveAlerts(c: Config, w: World, t: Timed)
    requires !t.op.Check? && !t.op.Restart?
    ensures Next(c, w, t).alarms == w.alarms && Next(c, w, t).book.lastAlert == w.book.lastAlert
  {
  }

  // ---- The pattern of checks, saves and restarts ----

  predicate Marks(op: Op) {
    op.Check? || op.Save? || op.Restart?
  }

  predicate AllMarks(shape: seq<Op>) {
    forall k :: 0 <= k < |shape| ==> Marks(shape[k])
  }

  /** The checks, saves and restarts of a history, in order. */
  function Shape(ops: seq<Timed>): seq<Op> {
    if ops == [] then []
    else Shape(ops[..|ops| - 1]) + if Marks(ops[|ops| - 1].op) then [ops[|ops| - 1].op] else []
  }

  /** Whether the last mark is a check, not yet saved. */
  predicate Unsaved(shape: seq<Op>) {
    shape != [] && shape[|shape| - 1].Check?
  }

  /** Some restart comes right after a check, with no save between. */
  predicate Forgot(shape: seq<Op>) {
    exists i :: 0 < i < |shape| && shape[i - 1].Check? && shape[i].Restart?
  }

  lemma ForgotGrows(shape: seq<Op>, op: Op)
    ensures Forgot(shape + [op]) <==> Forgot(shape) || (Unsaved(shape) && op.Restart?)
  {
    var grown := shape + [op];
    if Forgot(shape) {
      var i :| 0 < i < |shape| && shape[i - 1].Check? && shape[i].Restart?;
      assert grown[i - 1].Check? && grown[i].Restart?;
    } else if Unsaved(shape) && op.Restart? {
      assert grown[|shape| - 1].Check? && grown[|shape|].Restart?;
    }
  }

  ghost predicate WorldOk(w: World, interval: real, unsaved: bool) {
    && AlarmsOk(w.alarms, w.book.lastAlert, interval)
    && (!unsaved ==> AlarmsOk(w.alarms, w.saved.lastAlert, interval))
  }

  lemma NextKeepsApart(c: Config, w: World, t: Timed, unsaved: bool)
    requires WorldOk(w, c.interval, unsaved) && c.interval >= 0.0 && !(unsaved && t.op.Restart?)
    ensures WorldOk(Next(c, w, t), c.interval, if Marks(t.op) then t.op.Check? else unsaved)
  {
    if t.op.Check? {
      AlarmKeepsApart(w.alarms, w.book.lastAlert, c.interval, FiredNow(c, w.book, t.now), t.now);
    } else if !t.op.Restart? {
      OthersLeaveAlerts(c, w, t);
    }
  }

  /** As long as no restart comes between a check and its save, alerts on one address are the interval apart,
      even if the clock is set back. */
  lemma {:induction false} AlertsAreApart(c: Config, ops: seq<Timed>)
    requires c.interval >= 0.0 && !Forgot(Shape(ops))
    ensures WorldOk(Run(c, ops), c.interval, Unsaved(Shape(ops)))
    decreases |ops|
  {
    if ops != [] {
      var front, last := ops[..|ops| - 1], ops[|ops| - 1];
      ForgotGrows(Shape(front), last.op);
      assert Shape(front) + [] == Shape(front);
      AlertsAreApart(c, front);
      NextKeepsApart(c, Run(c, front), last, Unsaved(Shape(front)));
    }
  }

  // ---- A forgotten alert is raised again ----

  const Unrounded: real -> real := x => x

  /** Whoever has an event in the window is over the rate. */
  const ALWAYS_OVER := Config(10.0, 0.0, 0.0, 0, 1.0, Unrounded)

  /** A mark, and if it is `loud` an event for an address just before it. */
  function Scene(op: Op, loud: bool): seq<Timed> {
    (if loud then [Timed(Add("a", Calls), 1.0)] else []) + [Timed(op, 1.0)]
  }

  predicate Loud(shape: seq<Op>, k: nat, i: nat)
    requires k < |shape|
  {
    shape[k].Check? && k + 1 >= i
  }

  /** Marks at one time; from the check before mark `i` on, an address gets an event just before every check. */
  function Story(shape: seq<Op>, i: nat): seq<Timed> {
    if shape == [] then []
    else Story(shape[..|shape| - 1], i) + Scene(shape[|shape| - 1], Loud(shape, |shape| - 1, i))
  }

  lemma ShapeGrows(ops: seq<Timed>, t: Timed)
    ensures Shape(ops + [t]) == Shape(ops) + if Marks(t.op) then [t.op] else []
  {
    assert (ops + [t])[..|ops|] == ops;
  }

  lemma SceneIsItsMark(before: seq<Timed>, op: Op, loud: bool)
    requires Marks(op)
    ensures Shape(before + Scene(op, loud)) == Shape(before) + [op]
  {
    var add := Timed(Add("a", Calls), 1.0);
    if loud {
      ShapeGrows(before, add);
      ShapeGrows(before + [add], Timed(op, 1.0));
      assert before + Scene(op, loud) == before + [add] + [Timed(op, 1.0)];
    } else {
      ShapeGrows(before, Timed(op, 1.0));
      assert Scene(op, loud) == [Timed(op, 1.0)];
    }
  }

  lemma {:induction false} StoryHasItsShape(shape: seq<Op>, i: nat)
    requires AllMarks(shape)
    ensures Shape(Story(shape, i)) == shape
    decreases |shape|
  {
    if shape != [] {
      var k := |shape| - 1;
      StoryHasItsShape(shape[..k], i);
      SceneIsItsMark(Story(shape[..k], i), shape[k], Loud(shape, k, i));
      assert shape[..k] + [shape[k]] == shape;
    }
  }

  /** The world after a scene. */
  function Told(c: Config, w: World, op: Op, loud: bool): World {
    Next(c, if loud then Next(c, w, Timed(Add("a", Calls), 1.0)) else w, Timed(op, 1.0))
  }

  lemma RunScene(c: Config, before: seq<Timed>, op: Op, loud: bool)
    ensures Run(c, before + Scene(op, loud)) == Told(c, Run(c, before), op, loud)
  {
    var add := Timed(Add("a", Calls), 1.0);
    var last := Timed(op, 1.0);
    if loud {
      assert (before + [add])[..|before|] == before;
      assert before + Scene(op, loud) == before + [add] + [last];
      assert (before + [add] + [last])[..|before| + 1] == before + [add];
    } else {
      assert (before + [last])[..|before|] == before;
      assert Scene(op, loud) == [last];
    }
  }

  ghost predicate Quiet(w: World) {
    w.book == Book(map[], map[]) && w.saved == Book(map[], map[])
  }

  ghost predicate Rang(alarms: seq<Alarm>, i: int) {
    0 <= i < |alarms| && "a" in alarms[i].ips && alarms[i].ts == 1.0
  }

  ghost predicate Once(alarms: seq<Alarm>) {
    exists i :: Rang(alarms, i)
  }

  ghost predicate Twice(alarms: seq<Alarm>) {
    exists i, j :: i < j && Rang(alarms, i) && Rang(alarms, j)
  }

  lemma TwiceIsNotSpaced(alarms: seq<Alarm>, interval: real)
    requires Twice(alarms) && interval > 0.0
    ensures !Spaced(alarms, interval)
  {
    var i, j :| i < j && Rang(alarms, i) && Rang(alarms, j);
    assert alarms[j].ts - alarms[i].ts < interval;
  }

  lemma MoreAlarms(alarms: seq<Alarm>, a: Alarm)
    ensures Once(alarms) ==> Once(alarms + [a])
    ensures Twice(alarms) ==> Twice(alarms + [a])
    ensures Rang([a], 0) ==> Once(alarms + [a])
    ensures Rang([a], 0) && Once(alarms) ==> Twice(alarms + [a])
  {
    var more := alarms + [a];
    assert forall i :: Rang(alarms, i) ==> Rang(more, i);
    if Rang([a], 0) {
      assert Rang(more, |alarms|);
    }
  }

  lemma QuietStays(c: Config, w: World, op: Op)
    requires Quiet(w) && Marks(op)
    ensures Quiet(Next(c, w, Timed(op, 1.0)))
  {
  }

  lemma SomeoneIsOver(w: World)
    requires Quiet(w)
    ensures "a" in FiredNow(ALWAYS_OVER, Next(ALWAYS_OVER, w, Timed(Add("a", Calls), 1.0)).book, 1.0)
  {
  }

  lemma LoudCheckRings(w: World)
    requires Quiet(w)
    ensures var v := Told(ALWAYS_OVER, w, Check, true);
            v.saved == w.saved && exists a :: v.alarms == w.alarms + [a] && Rang([a], 0)
  {
    SomeoneIsOver(w);
    var u := Next(ALWAYS_OVER, w, Timed(Add("a", Calls), 1.0));
    var a := Alarm(FiredNow(ALWAYS_OVER, u.book, 1.0), 1.0);
    assert Told(ALWAYS_OVER, w, Check, true).alarms == w.alarms + [a] && Rang([a], 0);
  }

  lemma LoudCheckRingsAgain(w: World)
    requires Quiet(w)
    ensures var v := Told(ALWAYS_OVER, w, Check, true);
            v.saved == w.saved && Once(v.alarms) && (Once(w.alarms) ==> Twice(v.alarms))
  {
    LoudCheckRings(w);
    var a :| Told(ALWAYS_OVER, w, Check, true).alarms == w.alarms + [a] && Rang([a], 0);
    MoreAlarms(w.alarms, a);
  }

  lemma AlarmsStay(c: Config, w: World, t: Timed)
    ensures Once(w.alarms) ==> Once(Next(c, w, t).alarms)
    ensures Twice(w.alarms) ==> Twice(Next(c, w, t).alarms)
  {
    if t.op.Check? {
      MoreAlarms(w.alarms, Alarm(FiredNow(c, w.book, t.now), t.now));
    }
  }

  lemma ToldStays(c: Config, w: World, op: Op, loud: bool)
    ensures Once(w.alarms) ==> Once(Told(c, w, op, loud).alarms)
    ensures Twice(w.alarms) ==> Twice(Told(c, w, op, loud).alarms)
  {
    var add := Timed(Add("a", Calls), 1.0);
    AlarmsStay(c, w, add);
    AlarmsStay(c, if loud then Next(c, w, add) else w, Timed(op, 1.0));
  }

  /** Alerted, with nothing on record and no check since. */
  ghost predicate Forgetful(w: World) {
    Quiet(w) && Once(w.alarms)
  }

  lemma RestartForgets(c: Config, w: World)
    requires w.saved == Book(map[], map[]) && Once(w.alarms)
    ensures Forgetful(Told(c, w, Restart, false))
  {
  }

  /** Where a story has got to: quiet up to the check, one alert by it, and another by the next check. */
  ghost predicate StoryOk(w: World, shape: seq<Op>, i: nat) {
    && (|shape| < i ==> Quiet(w))
    && (|shape| == i ==> Once(w.alarms) && w.saved == Book(map[], map[]))
    && (|shape| > i ==> Twice(w.alarms) || (Forgetful(w) && !shape[|shape| - 1].Check?))
  }

  lemma StoryGoesOn(w: World, shape: seq<Op>, i: nat)
    requires shape != [] && Marks(shape[|shape| - 1]) && StoryOk(w, shape[..|shape| - 1], i)
    requires |shape| == i ==> shape[|shape| - 1].Check?
    requires |shape| == i + 1 ==> shape[|shape| - 1].Restart?
    ensures StoryOk(Told(ALWAYS_OVER, w, shape[|shape| - 1], Loud(shape, |shape| - 1, i)), shape, i)
  {
    var k := |shape| - 1;
    var op, loud := shape[k], Loud(shape, k, i);
    ToldStays(ALWAYS_OVER, w, op, loud);
    if k + 1 < i {
      QuietStays(ALWAYS_OVER, w, op);
    } else if k + 1 == i {
      LoudCheckRingsAgain(w);
    } else if k == i {
      RestartForgets(ALWAYS_OVER, w);
    } else if !Twice(w.alarms) {
      if loud {
        LoudCheckRingsAgain(w);
      } else {
        QuietStays(ALWAYS_OVER, w, op);
      }
    }
  }

  lemma {:induction false} StoryUnfolds(shape: seq<Op>, i: nat)
    requires AllMarks(shape)
    requires 1 <= i && (i <= |shape| ==> shape[i - 1].Check?) && (i < |shape| ==> shape[i].Restart?)
    ensures StoryOk(Run(ALWAYS_OVER, Story(shape, i)), shape, i)
    decreases |shape|
  {
    if shape != [] {
      var k := |shape| - 1;
      StoryUnfolds(shape[..k], i);
      StoryGoesOn(Run(ALWAYS_OVER, Story(shape[..k], i)), shape, i);
      RunScene(ALWAYS_OVER, Story(shape[..k], i), shape[k], Loud(shape, k, i));
    }
  }

  // ---- Which patterns keep alerts apart ----

  /** Whatever is added and whenever, alerts are apart after these marks and one more check. */
  ghost predicate Safe(shape: seq<Op>) {
    forall c: Config, ops: seq<Timed> ::
      c.interval > 0.0 && Shape(ops) == shape + [Check] ==> Spaced(Run(c, ops).alarms, c.interval)
  }

  lemma ForgottenIsUnsafe(shape: seq<Op>)
    requires AllMarks(shape) && Forgot(shape)
    ensures !Safe(shape)
  {
    var i: nat :| 0 < i < |shape| && shape[i - 1].Check? && shape[i].Restart?;
    var whole := shape + [Check];
    var ops := Story(whole, i);
    StoryHasItsShape(whole, i);
    StoryUnfolds(whole, i);
    TwiceIsNotSpaced(Run(ALWAYS_OVER, ops).alarms, ALWAYS_OVER.interval);
    assert Shape(ops) == shape + [Check];
  }

  /**
   A pattern of checks, saves and restarts keeps alerts on one address apart, under every configuration and
   whatever comes between at whatever times, if and only if none of its restarts comes right after a check.
   */
  lemma AlertsAreApartIff(shape: seq<Op>)
    requires AllMarks(shape)
    ensures Safe(shape) <==> !Forgot(shape)
  {
    if Forgot(shape) {
      ForgottenIsUnsafe(shape);
    } else {
      ForgotGrows(shape, Check);
      forall c: Config, ops: seq<Timed> | c.interval > 0.0 && Shape(ops) == shape + [Check]
        ensures Spaced(Run(c, ops).alarms, c.interval)
      {
        AlertsAreApart(c, ops);
      }
    }
  }

  // ---- Whoever is alerted on between a save and a restart is alerted on again ----

  lemma FiredIs(c: Config, b: Book, now: real, ip: Ip)
    requires Trimmed(RowsOf(b, ip), now - c.window) != []
    ensures ip in FiredNow(c, b, now)
            <==> Due(c, LineOf(c, CountsOf(Trimmed(RowsOf(b, ip), now - c.window))), LastAlert(b.lastAlert, ip), now)
  {
  }

  lemma FiresAgain(c: Config, b: Book, now: real, ip: Ip)
    requires Past(RowsOf(b, ip), now) && Trimmed(RowsOf(b, ip), now - c.window) != []
    ensures ip in FiredNow(c, b, now) <==> ip in FiredNow(c, Reloaded(c, b, now), now)
  {
    ReloadedLooksTheSame(c, b, now, ip);
    FiredIs(c, b, now, ip);
    FiredIs(c, Reloaded(c, b, now), now, ip);
  }

  /** The alerts of two checks with a restart between, right after a save. */
  function TwoRounds(c: Config, w: World, now: real): (Alarm, Alarm) {
    (Alarm(FiredNow(c, w.book, now), now), Alarm(FiredNow(c, Reloaded(c, w.book, now), now), now))
  }

  lemma RoundsAre(c: Config, w: World, now: real)
    ensures var u := Next(c, Next(c, w, Timed(Save, now)), Timed(Check, now));
            var v := Next(c, Next(c, u, Timed(Restart, now)), Timed(Check, now));
            v.alarms == w.alarms + [TwoRounds(c, w, now).0] + [TwoRounds(c, w, now).1]
  {
  }

  /**
   After any history in order: save, check, restart, check. Every address with events in the window is alerted
   on by both checks or by neither.
   */
  lemma AForgottenAlertRepeats(c: Config, ops: seq<Timed>, now: real, ip: Ip)
    requires InOrder(ops) && now >= TimeOf(ops)
    requires Trimmed(RowsOf(Run(c, ops).book, ip), now - c.window) != []
    ensures var before := ops + [Timed(Save, now), Timed(Check, now)];
            var (first, second) := TwoRounds(c, Run(c, ops), now);
            && Run(c, before + [Timed(Restart, now), Timed(Check, now)]).alarms
               == Run(c, ops).alarms + [first] + [second]
            && (ip in first.ips <==> ip in second.ips)
  {
    BookIsPast(c, ops, now, ip);
    FiresAgain(c, Run(c, ops).book, now, ip);
    RoundsAre(c, Run(c, ops), now);
    RunTwoMore(c, ops, Timed(Save, now), Timed(Check, now));
    RunTwoMore(c, ops + [Timed(Save, now), Timed(Check, now)], Timed(Restart, now), Timed(Check, now));
  }

  lemma RunOneMore(c: Config, ops: seq<Timed>, t: Timed)
    ensures Run(c, ops + [t]) == Next(c, Run(c, ops), t)
  {
    assert (ops + [t])[..|ops|] == ops;
  }

  lemma RunTwoMore(c: Config, ops: seq<Timed>, p: Timed, q: Timed)
    ensures Run(c, ops + [p, q]) == Next(c, Next(c, Run(c, ops), p), q)
  {
    RunOneMore(c, ops, p);
    RunOneMore(c, ops + [p], q);
    assert ops + [p, q] == ops + [p] + [q];
  }
}
