/** When a stream is alive, and whose it is, read off the packets of the capture alone. */
module RtpLives {
  import opened Common
  import opened RtpDemux
  import opened RtpLaws

  /** The packet brings audio for the stream. */
  predicate HeardBy(c: Config, op: Op, k: Key) {
    op.Packet? && AudioOf(c, op.p).Some? && KeyOf(op.p, AudioOf(c, op.p).value.ssrc) == k
  }

  /** The last sweep: at the first packet thirty seconds or more after the one before it, from time nought on. */
  function SweepTime(ops: seq<Op>): real {
    if ops == [] then 0.0
    else
      var before, last := SweepTime(ops[..|ops| - 1]), ops[|ops| - 1];
      if last.Packet? && last.p.ts - before >= 30.0 then last.p.ts else before
  }

  /** When the stream was last heard. */
  function LastTime(c: Config, ops: seq<Op>, k: Key): Option<real> {
    if ops == [] then None
    else if HeardBy(c, ops[|ops| - 1], k) then Some(ops[|ops| - 1].p.ts)
    else LastTime(c, ops[..|ops| - 1], k)
  }

  predicate Survives(c: Config, last: Option<real>, sweep: real) {
    last.Some? && sweep - last.value <= c.idle
  }

  /** What the tracker says of a packet: the call at its destination, or failing that at its source. */
  function NamedBy(op: Op): Option<string>
    requires op.Packet?
  {
    var there := op.tracker(op.p.dst, op.p.dport);
    if there.Some? then there else op.tracker(op.p.src, op.p.sport)
  }

  /** The first call named for the stream since it was last opened. */
  function FirstNamed(c: Config, ops: seq<Op>, k: Key): Option<string> {
    if ops == [] then None
    else
      var front, last := ops[..|ops| - 1], ops[|ops| - 1];
      var before := if Survives(c, LastTime(c, front, k), SweepTime(ops)) then FirstNamed(c, front, k) else None;
      if !HeardBy(c, last, k) then FirstNamed(c, front, k)
      else if before.Some? then before
      else NamedBy(last)
  }

  /** Alive if last heard within the idle time of the last sweep, and then with these values. */
  predicate StreamIs(c: Config, d: Demux, k: Key, sweep: real, last: Option<real>, call: Option<string>) {
    && (k in d.streams <==> Survives(c, last, sweep))
    && (k in d.streams ==> d.streams[k].lastTs == last.value && d.streams[k].callId == call)
  }

  lemma SweepLives(c: Config, d: Demux, now: real, k: Key, last: Option<real>, call: Option<string>)
    requires StreamIs(c, d, k, d.lastGc, last, call) && d.lastGc <= now
    ensures var next := if now - d.lastGc >= 30.0 then now else d.lastGc;
            Swept(c, d, now).lastGc == next && StreamIs(c, Swept(c, d, now), k, next, last, call)
  {
  }

  lemma PacketLives(c: Config, d: Demux, op: Op, k: Key, last: Option<real>, call: Option<string>)
    requires op.Packet? && StreamIs(c, d, k, d.lastGc, last, call) && d.lastGc <= op.p.ts && c.idle >= 0.0
    ensures var next := if op.p.ts - d.lastGc >= 30.0 then op.p.ts else d.lastGc;
            var r := Fed(c, d, op.p, op.tracker).0;
            && r.lastGc == next
            && if !HeardBy(c, op, k) then StreamIs(c, r, k, next, last, call)
               else StreamIs(c, r, k, next, Some(op.p.ts),
                             if Survives(c, last, next) && call.Some? then call else NamedBy(op))
  {
    SweepLives(c, d, op.p.ts, k, last, call);
    if AudioOf(c, op.p).Some? {
      FedIs(c, d, op.p, op.tracker);
    }
  }

  /**
   In any run whose packets come in order of time, a stream is alive exactly if it was heard and, at the last sweep,
   had not been silent for longer than the idle time. It belongs to the first call the tracker named for it.
   */
  lemma {:induction false} AliveIff(c: Config, ops: seq<Op>, worlds: seq<World>, i: nat, k: Key)
    requires Runs(c, ops, worlds) && i <= |ops| && c.idle >= 0.0
    ensures var d, done := worlds[i].d, ops[..i];
            && d.lastGc == SweepTime(done) <= worlds[i].clock
            && (k in d.streams <==> Survives(c, LastTime(c, done, k), SweepTime(done)))
            && (k in d.streams ==> d.streams[k].lastTs == LastTime(c, done, k).value
                                   && d.streams[k].callId == FirstNamed(c, done, k))
    decreases i
  {
    if i > 0 {
      AliveIff(c, ops, worlds, i - 1, k);
      var front, done, op := ops[..i - 1], ops[..i], ops[i - 1];
      assert done[..|done| - 1] == front && done[|done| - 1] == op;
      assert Legal(worlds[i - 1], op) && worlds[i - 1 + 1] == Next(c, worlds[i - 1], op);
      if op.Packet? {
        PacketLives(c, worlds[i - 1].d, op, k, LastTime(c, front, k), FirstNamed(c, front, k));
      }
    }
  }
}
