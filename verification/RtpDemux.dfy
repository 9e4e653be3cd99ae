/** RTP grouped into streams: customer audio only, held back by an energy gate, buffered in a bounded ring. */
module RtpDemux {
  import opened Common
  import opened Pcap

  datatype Key = Key(src: Bytes, sport: nat, dst: Bytes, dport: nat, ssrc: nat)

  datatype Stream = Stream(callId: Option<string>, alaw: bool, packets: nat, lastTs: real, voiced: real, gateOpen: bool,
                           pcm: Bytes, dropped: nat)

  /** The filter and the gate; `rms` and `decode` are the two G.711 tables. */
  datatype Config = Config(media: set<Bytes>, gateRms: real, gateSeconds: real, ringBytes: nat, idle: real,
                           rms: (Bytes, bool) -> real, decode: (Bytes, bool) -> Bytes)

  /** Which call an address and port belong to, as far as the signalling has said. */
  type Tracker = (Bytes, nat) -> Option<string>

  datatype Demux = Demux(streams: map<Key, Stream>, lastGc: real, created: nat, closed: nat)

  const SampleRate := 8000.0

  const SweepEvery := 30.0

  /** A G.711 payload with what its header says. */
  datatype Audio = Audio(alaw: bool, ssrc: nat, samples: Bytes)

  /** The length of the RTP header: the fixed part, the contributing sources, and an extension if there is one. */
  function HeaderLength(payload: Bytes): Option<nat>
    requires |payload| >= 12
  {
    var fixed := 12 + payload[0] % 16 * 4;
    if payload[0] / 16 % 2 == 0 then Some(fixed)
    else if |payload| < fixed + 4 then None
    else Some(fixed + 4 + 4 * WordAt(payload, fixed + 2))
  }

  /** The audio of a customer's RTP packet; nothing for RTCP, another codec, another source or a malformed header. */
  function AudioOf(c: Config, p: Datagram): Option<Audio> {
    if |p.payload| < 13 || p.payload[0] / 64 != 2 || 200 <= p.payload[1] <= 204 then None
    else
      var pt := p.payload[1] % 128;
      if (pt != 0 && pt != 8) || p.src !in c.media then None
      else
        var hdr := HeaderLength(p.payload);
        if hdr.None? || |p.payload| <= hdr.value then None
        else Some(Audio(pt == 8, QuadAt(Big, p.payload, 8), p.payload[hdr.value..]))
  }

  function KeyOf(p: Datagram, ssrc: nat): Key {
    Key(p.src, p.sport, p.dst, p.dport, ssrc)
  }

  function Opened(ts: real, alaw: bool): Stream {
    Stream(None, alaw, 0, ts, 0.0, false, [], 0)
  }

  /** Attribution is tried again until it succeeds: our own port first, then the customer's. */
  function Attributed(s: Stream, p: Datagram, tracker: Tracker): Stream {
    if s.callId.Some? then s
    else if tracker(p.dst, p.dport).Some? then s.(callId := tracker(p.dst, p.dport))
    else s.(callId := tracker(p.src, p.sport))
  }

  /** One more packet: its time, and its length if it was voiced. */
  function Counted(c: Config, s: Stream, ts: real, samples: Bytes): Stream {
    s.(packets := s.packets + 1, lastTs := ts,
       voiced := if c.rms(samples, s.alaw) >= c.gateRms then s.voiced + |samples| as real / SampleRate else s.voiced)
  }

  /** The newest `n` bytes. */
  function Newest(pcm: Bytes, n: nat): Bytes {
    if |pcm| > n then pcm[|pcm| - n..] else pcm
  }

  /** Nothing is kept below the gate; past it the ring keeps the newest audio and counts what it lets go. */
  function Buffered(c: Config, s: Stream, samples: Bytes): Stream {
    if !s.gateOpen && s.voiced < c.gateSeconds then s
    else
      var pcm := s.pcm + c.decode(samples, s.alaw);
      s.(gateOpen := true, pcm := Newest(pcm, c.ringBytes),
         dropped := s.dropped + |pcm| - |Newest(pcm, c.ringBytes)|)
  }

  function Heard(c: Config, s: Stream, p: Datagram, samples: Bytes, tracker: Tracker): Stream {
    Buffered(c, Counted(c, Attributed(s, p, tracker), p.ts, samples), samples)
  }

  predicate Expired(c: Config, s: Stream, now: real) {
    now - s.lastTs > c.idle
  }

  function Alive(c: Config, streams: map<Key, Stream>, now: real): (r: map<Key, Stream>)
    ensures r.Keys <= streams.Keys
  {
    map k | k in streams && !Expired(c, streams[k], now) :: streams[k]
  }

  /** At most once in thirty seconds, streams idle for too long are let go. */
  function Swept(c: Config, d: Demux, now: real): (r: Demux)
    ensures r.streams.Keys <= d.streams.Keys
  {
    if now - d.lastGc < SweepEvery then d
    else
      var alive := Alive(c, d.streams, now);
      SubsetSize(alive.Keys, d.streams.Keys);
      Demux(alive, now, d.created, d.closed + |d.streams| - |alive|)
  }

  function StreamFor(d: Demux, k: Key, ts: real, alaw: bool): Stream {
    if k in d.streams then d.streams[k] else Opened(ts, alaw)
  }

  function Fed(c: Config, d: Demux, p: Datagram, tracker: Tracker): (r: (Demux, Option<Key>)) {
    var swept := Swept(c, d, p.ts);
    match AudioOf(c, p)
    case None => (swept, None)
    case Some(a) =>
      var k := KeyOf(p, a.ssrc);
      var s := Heard(c, StreamFor(swept, k, p.ts, a.alaw), p, a.samples, tracker);
      var kept := Demux(swept.streams[k := s], swept.lastGc,
                        swept.created + if k in swept.streams then 0 else 1, swept.closed);
      if s.gateOpen then (Swept(c, kept, p.ts), Some(k)) else (kept, None)
  }

  function Taken(d: Demux, k: Key): Demux
    requires k in d.streams
  {
    d.(streams := d.streams[k := d.streams[k].(pcm := [])])
  }

  class RtpDemux {
    const config: Config
    var streams: map<Key, Stream>
    var lastGc: real
    var created: nat
    var closed: nat

    constructor (config: Config)
      ensures Contents() == Demux(map[], 0.0, 0, 0) && this.config == config
    {
      this.config := config;
      streams, lastGc, created, closed := map[], 0.0, 0, 0;
    }

    function Contents(): Demux
      reads this
    {
      Demux(streams, lastGc, created, closed)
    }

    method Sweep(now: real)
      modifies this
      ensures Contents() == Swept(config, old(Contents()), now)
    {
      if now - lastGc < SweepEvery {
        return;
      }
      lastGc := now;
      var alive, dead := DropIdle(config, streams, now);
      streams := alive;
      closed := closed + dead;
    }

    /** The buffered audio goes to the caller, and the buffer starts empty. */
    method TakePcm(k: Key) returns (pcm: Bytes)
      requires k in streams
      modifies this
      ensures pcm == old(streams[k]).pcm && Contents() == Taken(old(Contents()), k)
    {
      pcm := streams[k].pcm;
      streams := streams[k := streams[k].(pcm := [])];
    }

    /** Take in one datagram; the stream comes back once its gate is open. */
    method Feed(p: Datagram, tracker: Tracker) returns (r: Option<Key>)
      modifies this
      ensures (Contents(), r) == Fed(config, old(Contents()), p, tracker)
    {
      Sweep(p.ts);
      var audio := Demarshal(config, p);
      if audio.None? {
        return None;
      }
      var a := audio.value;
      var k := KeyOf(p, a.ssrc);
      if k !in streams {
        streams := streams[k := Opened(p.ts, a.alaw)];
        created := created + 1;
      }
      var s := Hear(config, streams[k], p, a.samples, tracker);
      ghost var swept := Swept(config, old(Contents()), p.ts);
      streams := streams[k := s];
      assert streams == swept.streams[k := s];
      if !s.gateOpen {
        return None;
      }
      Sweep(p.ts);
      return Some(k);
    }
  }

  method Demarshal(c: Config, p: Datagram) returns (r: Option<Audio>)
    ensures r == AudioOf(c, p)
  {
    var payload := p.payload;
    if |payload| < 13 || payload[0] / 64 != 2 || 200 <= payload[1] <= 204 {
      return None;
    }
    var pt := payload[1] % 128;
    if (pt != 0 && pt != 8) || p.src !in c.media {
      return None;
    }
    var hdr := 12 + payload[0] % 16 * 4;
    if payload[0] / 16 % 2 == 1 {
      if |payload| < hdr + 4 {
        return None;
      }
      hdr := hdr + 4 + 4 * WordAt(payload, hdr + 2);
    }
    if |payload| <= hdr {
      return None;
    }
    return Some(Audio(pt == 8, QuadAt(Big, payload, 8), payload[hdr..]));
  }

  /** One packet's audio into its stream. */
  method Hear(c: Config, was: Stream, p: Datagram, samples: Bytes, tracker: Tracker) returns (s: Stream)
    ensures s == Heard(c, was, p, samples, tracker)
  {
    s := was;
    if s.callId.None? {
      var call := tracker(p.dst, p.dport);
      if call.None? {
        call := tracker(p.src, p.sport);
      }
      s := s.(callId := call);
    }
    assert s == Attributed(was, p, tracker);
    s := s.(packets := s.packets + 1, lastTs := p.ts);
    if c.rms(samples, s.alaw) >= c.gateRms {
      s := s.(voiced := s.voiced + |samples| as real / SampleRate);
    }
    assert s == Counted(c, Attributed(was, p, tracker), p.ts, samples);
    s := Buffer(c, s, samples);
  }

  /** Past the gate, append and let the oldest go. */
  method Buffer(c: Config, was: Stream, samples: Bytes) returns (s: Stream)
    ensures s == Buffered(c, was, samples)
  {
    s := was;
    if !s.gateOpen {
      if s.voiced < c.gateSeconds {
        return;
      }
      s := s.(gateOpen := true);
    }
    var pcm := s.pcm + c.decode(samples, s.alaw);
    var over := if |pcm| > c.ringBytes then |pcm| - c.ringBytes else 0;
    s := s.(pcm := Newest(pcm, c.ringBytes), dropped := s.dropped + over);
  }

  method DropIdle(c: Config, streams: map<Key, Stream>, now: real) returns (alive: map<Key, Stream>, dead: nat)
    ensures alive == Alive(c, streams, now) && dead == |streams| - |alive|
  {
    alive, dead := streams, 0;
    var todo := streams.Keys;
    while todo != {}
      invariant todo <= streams.Keys && alive.Keys <= streams.Keys && dead == |streams.Keys| - |alive.Keys|
      invariant forall k :: k in alive <==> k in streams && (k in todo || !Expired(c, streams[k], now))
      invariant forall k :: k in alive ==> alive[k] == streams[k]
      decreases todo
    {
      var k :| k in todo;
      if Expired(c, streams[k], now) {
        ghost var before := alive.Keys;
        alive := alive - {k};
        assert alive.Keys == before - {k};
        dead := dead + 1;
      }
      todo := todo - {k};
    }
  }
}
