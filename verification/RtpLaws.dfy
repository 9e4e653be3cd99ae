/** What the demultiplexer keeps over a whole capture: no audio unaccounted for, bounded buffers, no stale streams. */
module RtpLaws {
  import opened Common
  import opened Pcap
  import opened RtpDemux

  datatype Op = Packet(p: Datagram, tracker: Tracker) | Take(k: Key)

  /** The demultiplexer, the time of the last packet, and all audio decoded and handed off for each live stream. */
  datatype World = World(d: Demux, clock: real, decoded: map<Key, Bytes>, handed: map<Key, Bytes>)

  const Silence := World(Demux(map[], 0.0, 0, 0), 0.0, map[], map[])

  function Of(m: map<Key, Bytes>, k: Key): Bytes {
    if k in m then m[k] else []
  }

  /** Packets come in order of time, and only a live stream is drained. */
  ghost predicate Legal(w: World, op: Op) {
    match op
    case Packet(p, _) => p.ts >= w.clock
    case Take(k) => k in w.d.streams
  }

  ghost function Next(c: Config, w: World, op: Op): World
    requires Legal(w, op)
  {
    match op
    case Take(k) => w.(d := Taken(w.d, k), handed := w.handed[k := Of(w.handed, k) + w.d.streams[k].pcm])
    case Packet(p, tracker) =>
      var (d, r) := Fed(c, w.d, p, tracker);
      match AudioOf(c, p)
      case None => w.(d := d, clock := p.ts)
      case Some(a) =>
        var k := KeyOf(p, a.ssrc);
        var known := k in Swept(c, w.d, p.ts).streams;
        var s := StreamFor(Swept(c, w.d, p.ts), k, p.ts, a.alaw);
        var before := if known then Of(w.decoded, k) else [];
        World(d, p.ts,
              w.decoded[k := if r.Some? then before + c.decode(a.samples, s.alaw) else before],
              w.handed[k := if known then Of(w.handed, k) else []])
  }

  ghost predicate Runs(c: Config, ops: seq<Op>, worlds: seq<World>) {
    && |worlds| == |ops| + 1 && worlds[0] == Silence
    && forall i :: 0 <= i < |ops| ==> Legal(worlds[i], ops[i]) && worlds[i + 1] == Next(c, worlds[i], ops[i])
  }

  ghost predicate NewestOf(pcm: Bytes, all: Bytes) {
    |pcm| <= |all| && pcm == all[|all| - |pcm|..]
  }

  /** What becomes of decoded audio: handed off, dropped, or still buffered, the newest of it within the ring. */
  ghost predicate Accounted(c: Config, s: Stream, decoded: Bytes, handed: Bytes) {
    && |handed| + s.dropped + |s.pcm| == |decoded|
    && |s.pcm| <= c.ringBytes && NewestOf(s.pcm, decoded)
    && (s.dropped == 0 ==> handed + s.pcm == decoded)
  }

  /**
   The gate is open exactly when enough has been voiced, nothing is decoded before, and all of it is accounted for.
   */
  ghost predicate StreamOk(c: Config, s: Stream, decoded: Bytes, handed: Bytes) {
    && (s.gateOpen <==> s.voiced >= c.gateSeconds)
    && (!s.gateOpen ==> decoded == [])
    && Accounted(c, s, decoded, handed)
  }

  ghost predicate AllOk(c: Config, streams: map<Key, Stream>, decoded: map<Key, Bytes>, handed: map<Key, Bytes>) {
    forall k :: k in streams ==> StreamOk(c, streams[k], Of(decoded, k), Of(handed, k))
  }

  ghost predicate StreamsOk(c: Config, w: World) {
    AllOk(c, w.d.streams, w.decoded, w.handed)
  }

  lemma OneChanged(c: Config, streams: map<Key, Stream>, decoded: map<Key, Bytes>, handed: map<Key, Bytes>,
                   k: Key, s: Stream, all: Bytes, given: Bytes)
    requires AllOk(c, streams, decoded, handed) && StreamOk(c, s, all, given)
    ensures AllOk(c, streams[k := s], decoded[k := all], handed[k := given])
  {
  }

  lemma SomeGone(c: Config, d: Demux, now: real, decoded: map<Key, Bytes>, handed: map<Key, Bytes>)
    requires AllOk(c, d.streams, decoded, handed)
    ensures AllOk(c, Swept(c, d, now).streams, decoded, handed)
  {
  }

  /** Every live stream had a packet recently, as of the last sweep, and sweeps are recent. */
  ghost predicate FreshEnough(c: Config, w: World) {
    && 0.0 <= w.d.lastGc && w.clock - w.d.lastGc < SweepEvery
    && forall k :: k in w.d.streams ==> w.d.lastGc - w.d.streams[k].lastTs <= c.idle && w.d.streams[k].lastTs <= w.clock
  }

  ghost predicate CountsOk(w: World) {
    w.d.created == w.d.closed + |w.d.streams|
  }

  lemma NewestIsTail(pcm: Bytes, n: nat, all: Bytes)
    requires NewestOf(pcm, all)
    ensures |Newest(pcm, n)| <= |pcm| && |Newest(pcm, n)| <= n && NewestOf(Newest(pcm, n), all)
  {
  }

  lemma TailGrows(pcm: Bytes, all: Bytes, more: Bytes)
    requires NewestOf(pcm, all)
    ensures NewestOf(pcm + more, all + more)
  {
  }

  /** The stream before its gate is looked at. */
  ghost predicate Loaded(c: Config, s: Stream, decoded: Bytes, handed: Bytes) {
    && (s.gateOpen ==> s.voiced >= c.gateSeconds) && (!s.gateOpen ==> decoded == [])
    && Accounted(c, s, decoded, handed)
  }

  lemma BufferedKeeps(c: Config, s: Stream, samples: Bytes, decoded: Bytes, handed: Bytes)
    requires Loaded(c, s, decoded, handed)
    ensures var r := Buffered(c, s, samples);
            StreamOk(c, r, if r.gateOpen then decoded + c.decode(samples, s.alaw) else decoded, handed)
  {
    var more := c.decode(samples, s.alaw);
    TailGrows(s.pcm, decoded, more);
    NewestIsTail(s.pcm + more, c.ringBytes, decoded + more);
    Associates(handed, s.pcm, more);
  }

  lemma CountedLoaded(c: Config, s: Stream, p: Datagram, samples: Bytes, tracker: Tracker, decoded: Bytes,
                      handed: Bytes)
    requires Loaded(c, s, decoded, handed)
    ensures Loaded(c, Counted(c, Attributed(s, p, tracker), p.ts, samples), decoded, handed)
    ensures Counted(c, Attributed(s, p, tracker), p.ts, samples).alaw == s.alaw
  {
    assert |samples| as real / SampleRate >= 0.0;
  }

  lemma HeardKeeps(c: Config, s: Stream, p: Datagram, samples: Bytes, tracker: Tracker, decoded: Bytes, handed: Bytes)
    requires Loaded(c, s, decoded, handed)
    ensures var r := Heard(c, s, p, samples, tracker);
            StreamOk(c, r, if r.gateOpen then decoded + c.decode(samples, s.alaw) else decoded, handed)
  {
    CountedLoaded(c, s, p, samples, tracker, decoded, handed);
    BufferedKeeps(c, Counted(c, Attributed(s, p, tracker), p.ts, samples), samples, decoded, handed);
  }

  /** The sweep after a packet finds nothing to do: the one before it was recent enough. */
  lemma SecondSweepIsIdle(c: Config, d: Demux, e: Demux, now: real)
    requires e.lastGc == Swept(c, d, now).lastGc
    ensures Swept(c, e, now) == e
  {
  }

  lemma FedIs(c: Config, d: Demux, p: Datagram, tracker: Tracker)
    requires AudioOf(c, p).Some?
    ensures var a := AudioOf(c, p).value;
            var swept, k := Swept(c, d, p.ts), KeyOf(p, a.ssrc);
            var s := Heard(c, StreamFor(swept, k, p.ts, a.alaw), p, a.samples, tracker);
            Fed(c, d, p, tracker) == (Demux(swept.streams[k := s], swept.lastGc,
                                            swept.created + if k in swept.streams then 0 else 1, swept.closed),
                                      if s.gateOpen then Some(k) else None)
  {
    var a := AudioOf(c, p).value;
    var swept, k := Swept(c, d, p.ts), KeyOf(p, a.ssrc);
    var s := Heard(c, StreamFor(swept, k, p.ts, a.alaw), p, a.samples, tracker);
    SecondSweepIsIdle(c, d, Demux(swept.streams[k := s], swept.lastGc,
                                  swept.created + if k in swept.streams then 0 else 1, swept.closed), p.ts);
  }

  lemma AudioKeepsStreams(c: Config, streams: map<Key, Stream>, decoded: map<Key, Bytes>, handed: map<Key, Bytes>,
                          k: Key, blank: Stream, p: Datagram, samples: Bytes, tracker: Tracker)
    requires AllOk(c, streams, decoded, handed)
    requires !blank.gateOpen && blank.pcm == [] && blank.dropped == 0
    ensures var known := k in streams;
            var s := if known then streams[k] else blank;
            var before, given := if known then Of(decoded, k) else [], if known then Of(handed, k) else [];
            var r := Heard(c, s, p, samples, tracker);
            AllOk(c, streams[k := r], decoded[k := if r.gateOpen then before + c.decode(samples, s.alaw) else before],
                  handed[k := given])
  {
    var known := k in streams;
    var s := if known then streams[k] else blank;
    var before, given := if known then Of(decoded, k) else [], if known then Of(handed, k) else [];
    assert known ==> StreamOk(c, s, before, given);
    HeardKeeps(c, s, p, samples, tracker, before, given);
    var r := Heard(c, s, p, samples, tracker);
    OneChanged(c, streams, decoded, handed, k, r,
               if r.gateOpen then before + c.decode(samples, s.alaw) else before, given);
  }

  lemma PacketKeepsStreams(c: Config, w: World, op: Op)
    requires StreamsOk(c, w) && Legal(w, op) && op.Packet?
    ensures StreamsOk(c, Next(c, w, op))
  {
    var p := op.p;
    SomeGone(c, w.d, p.ts, w.decoded, w.handed);
    if AudioOf(c, p).Some? {
      FedIs(c, w.d, p, op.tracker);
      var a := AudioOf(c, p).value;
      AudioKeepsStreams(c, Swept(c, w.d, p.ts).streams, w.decoded, w.handed, KeyOf(p, a.ssrc), Opened(p.ts, a.alaw),
                        p, a.samples, op.tracker);
    }
  }

  lemma TakenIsOk(c: Config, s: Stream, decoded: Bytes, handed: Bytes)
    requires StreamOk(c, s, decoded, handed)
    ensures StreamOk(c, s.(pcm := []), decoded, handed + s.pcm)
  {
    assert handed + s.pcm + [] == handed + s.pcm;
  }

  lemma OneTaken(c: Config, streams: map<Key, Stream>, decoded: map<Key, Bytes>, handed: map<Key, Bytes>,
                 k: Key, s: Stream, given: Bytes)
    requires AllOk(c, streams, decoded, handed) && StreamOk(c, s, Of(decoded, k), given)
    ensures AllOk(c, streams[k := s], decoded, handed[k := given])
  {
  }

  lemma TakeKeepsStreams(c: Config, w: World, op: Op)
    requires StreamsOk(c, w) && Legal(w, op) && op.Take?
    ensures StreamsOk(c, Next(c, w, op))
  {
    var s := w.d.streams[op.k];
    TakenIsOk(c, s, Of(w.decoded, op.k), Of(w.handed, op.k));
    OneTaken(c, w.d.streams, w.decoded, w.handed, op.k, s.(pcm := []), Of(w.handed, op.k) + s.pcm);
  }

  lemma SweepKeepsFresh(c: Config, d: Demux, clock: real, now: real)
    requires 0.0 <= d.lastGc && clock <= now && c.idle >= 0.0
    requires forall k :: k in d.streams ==> d.lastGc - d.streams[k].lastTs <= c.idle && d.streams[k].lastTs <= clock
    requires clock - d.lastGc < SweepEvery && d.lastGc <= clock
    ensures var r := Swept(c, d, now);
            && 0.0 <= r.lastGc <= now && now - r.lastGc < SweepEvery
            && forall k :: k in r.streams ==> r.lastGc - r.streams[k].lastTs <= c.idle && r.streams[k].lastTs <= now
  {
  }

  lemma StepKeepsFresh(c: Config, w: World, op: Op)
    requires FreshEnough(c, w) && Legal(w, op) && c.idle >= 0.0 && 0.0 <= w.d.lastGc <= w.clock
    ensures FreshEnough(c, Next(c, w, op)) && Next(c, w, op).d.lastGc <= Next(c, w, op).clock
  {
    if op.Packet? {
      SweepKeepsFresh(c, w.d, w.clock, op.p.ts);
      if AudioOf(c, op.p).Some? {
        FedIs(c, w.d, op.p, op.tracker);
      }
    }
  }

  lemma StepKeepsCounts(c: Config, w: World, op: Op)
    requires CountsOk(w) && Legal(w, op)
    ensures CountsOk(Next(c, w, op))
  {
    if op.Packet? {
      var swept := Swept(c, w.d, op.p.ts);
      assert swept.created == swept.closed + |swept.streams|;
      if AudioOf(c, op.p).Some? {
        FedIs(c, w.d, op.p, op.tracker);
        var k := KeyOf(op.p, AudioOf(c, op.p).value.ssrc);
        KeyAdded(swept.streams, k, Next(c, w, op).d.streams[k]);
      }
    } else {
      KeyAdded(w.d.streams, op.k, w.d.streams[op.k].(pcm := []));
    }
  }

  lemma KeyAdded(m: map<Key, Stream>, k: Key, s: Stream)
    ensures |m[k := s]| == |m| + if k in m then 0 else 1
  {
    assert m[k := s].Keys == m.Keys + {k};
  }

  lemma {:induction false} RunKeeps(c: Config, ops: seq<Op>, worlds: seq<World>, i: nat)
    requires Runs(c, ops, worlds) && i <= |ops| && c.idle >= 0.0
    ensures StreamsOk(c, worlds[i]) && CountsOk(worlds[i])
    ensures FreshEnough(c, worlds[i]) && worlds[i].d.lastGc <= worlds[i].clock
  {
    if i > 0 {
      RunKeeps(c, ops, worlds, i - 1);
      var w, op := worlds[i - 1], ops[i - 1];
      assert Legal(w, op) && worlds[i - 1 + 1] == Next(c, w, op);
      if op.Packet? {
        PacketKeepsStreams(c, w, op);
      } else {
        TakeKeepsStreams(c, w, op);
      }
      StepKeepsFresh(c, w, op);
      StepKeepsCounts(c, w, op);
    }
  }

  lemma StreamOfRun(c: Config, ops: seq<Op>, worlds: seq<World>, i: nat, k: Key)
    requires Runs(c, ops, worlds) && i <= |ops| && c.idle >= 0.0 && k in worlds[i].d.streams
    ensures StreamOk(c, worlds[i].d.streams[k], Of(worlds[i].decoded, k), Of(worlds[i].handed, k))
  {
    RunKeeps(c, ops, worlds, i);
  }

  /** Every byte decoded since the gate opened is accounted for; while none was dropped, what was handed off and the
      buffer are the decoded audio, in that order. */
  lemma NoAudioUnaccountedFor(c: Config, ops: seq<Op>, worlds: seq<World>, i: nat, k: Key)
    requires Runs(c, ops, worlds) && i <= |ops| && c.idle >= 0.0 && k in worlds[i].d.streams
    ensures Accounted(c, worlds[i].d.streams[k], Of(worlds[i].decoded, k), Of(worlds[i].handed, k))
  {
    StreamOfRun(c, ops, worlds, i, k);
  }

  /** A stream's gate is open exactly when its voiced time has reached the threshold; until then nothing is decoded. */
  lemma GateIsTheThreshold(c: Config, ops: seq<Op>, worlds: seq<World>, i: nat, k: Key)
    requires Runs(c, ops, worlds) && i <= |ops| && c.idle >= 0.0 && k in worlds[i].d.streams
    ensures worlds[i].d.streams[k].gateOpen <==> worlds[i].d.streams[k].voiced >= c.gateSeconds
    ensures !worlds[i].d.streams[k].gateOpen ==> Of(worlds[i].decoded, k) == [] && worlds[i].d.streams[k].pcm == []
  {
    StreamOfRun(c, ops, worlds, i, k);
  }

  /**
   A packet is answered with its stream exactly when the gate is open, and that stream then has this packet's time.
   */
  lemma OnlyOpenStreamsComeBack(c: Config, d: Demux, p: Datagram, tracker: Tracker)
    ensures var (after, r) := Fed(c, d, p, tracker);
            && (r.Some? ==>
                  r.value in after.streams && after.streams[r.value].gateOpen && after.streams[r.value].lastTs == p.ts)
            && (r.None? && AudioOf(c, p).Some? ==>
                  var k := KeyOf(p, AudioOf(c, p).value.ssrc); k in after.streams && !after.streams[k].gateOpen)
  {
    if AudioOf(c, p).Some? {
      FedIs(c, d, p, tracker);
    }
  }

  /** While a stream lives its gate does not close again, its voiced time never falls, and its call never changes. */
  lemma OpenStaysOpen(c: Config, d: Demux, p: Datagram, tracker: Tracker, k: Key)
    requires k in Swept(c, d, p.ts).streams
    ensures var s, after := d.streams[k], Fed(c, d, p, tracker).0;
            && k in after.streams && (s.gateOpen ==> after.streams[k].gateOpen)
            && after.streams[k].voiced >= s.voiced && (s.callId.Some? ==> after.streams[k].callId == s.callId)
  {
    if AudioOf(c, p).Some? {
      FedIs(c, d, p, tracker);
      assert |AudioOf(c, p).value.samples| as real / SampleRate >= 0.0;
    }
  }

  /** After any packet no live stream has been idle for as long as the timeout and one sweep. */
  lemma NothingStale(c: Config, ops: seq<Op>, worlds: seq<World>, i: nat, k: Key)
    requires Runs(c, ops, worlds) && i <= |ops| && c.idle >= 0.0 && k in worlds[i].d.streams
    ensures worlds[i].clock - worlds[i].d.streams[k].lastTs < c.idle + SweepEvery
  {
    RunKeeps(c, ops, worlds, i);
  }

  /** Streams created are streams closed and streams alive. */
  lemma StreamsAreCounted(c: Config, ops: seq<Op>, worlds: seq<World>, i: nat)
    requires Runs(c, ops, worlds) && i <= |ops| && c.idle >= 0.0
    ensures worlds[i].d.created == worlds[i].d.closed + |worlds[i].d.streams|
  {
    RunKeeps(c, ops, worlds, i);
  }

  // ---- The RTP writer ----

  function BigQuad(n: nat): (r: Bytes)
    requires n < 0x1_0000_0000
    ensures |r| == 4
  {
    [n / 0x100_0000, n / 0x1_0000 % 0x100, n / 0x100 % 0x100, n % 0x100]
  }

  function RtpPacket(sequence: nat, ts: nat, ssrc: nat, payload: Bytes, pt: Byte): Bytes
    requires ssrc < 0x1_0000_0000
  {
    [0x80, pt] + Word(sequence % 0x1_0000) + BigQuad(ts % 0x1_0000_0000) + BigQuad(ssrc) + payload
  }

  /** The audio of a packet written for a customer's stream is read back, unless it is empty. */
  lemma RtpBack(c: Config, p: Datagram, sequence: nat, ts: nat, ssrc: nat, audio: Bytes, pt: Byte)
    requires ssrc < 0x1_0000_0000 && (pt == 0 || pt == 8) && p.src in c.media
    requires p.payload == RtpPacket(sequence, ts, ssrc, audio, pt)
    ensures AudioOf(c, p) == if audio == [] then None else Some(Audio(pt == 8, ssrc, audio))
  {
    assert p.payload[8..12] == BigQuad(ssrc) && p.payload[12..] == audio;
    QuadSplits(ssrc);
    var q := p.payload[8..12];
    assert p.payload[8] == q[0] && p.payload[9] == q[1] && p.payload[10] == q[2] && p.payload[11] == q[3];
    assert p.payload[0] == 0x80 && p.payload[1] == pt;
  }
}
