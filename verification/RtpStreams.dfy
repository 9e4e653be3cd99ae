/** A stream from its own packets: how long it has been loud, when its gate opened, and what was decoded of it. */
module RtpStreams {
  import opened Common
  import opened Pcap
  import opened RtpDemux
  import opened RtpLaws

  /** Seconds of the packets that were loud enough, at eight thousand samples a second. */
  function LoudTime(c: Config, alaw: bool, packets: seq<Bytes>): real {
    if packets == [] then 0.0
    else
      var last := packets[|packets| - 1];
      LoudTime(c, alaw, packets[..|packets| - 1])
      + if c.rms(last, alaw) >= c.gateRms then |last| as real / 8000.0 else 0.0
  }

  /** The audio of the packet with which the loud time reached the gate, and of every packet since. */
  function DecodedFromGate(c: Config, alaw: bool, packets: seq<Bytes>): Bytes {
    if packets == [] then []
    else
      var last := packets[|packets| - 1];
      DecodedFromGate(c, alaw, packets[..|packets| - 1])
      + if LoudTime(c, alaw, packets) >= c.gateSeconds then c.decode(last, alaw) else []
  }

  /** The packets of the stream now under this key, since it was opened. */
  ghost function PacketsOf(c: Config, ops: seq<Op>, worlds: seq<World>, i: nat, k: Key): seq<Bytes>
    requires Runs(c, ops, worlds) && i <= |ops|
    decreases i
  {
    if i == 0 then []
    else
      var op := ops[i - 1];
      var before := PacketsOf(c, ops, worlds, i - 1, k);
      if op.Packet? && AudioOf(c, op.p).Some? && KeyOf(op.p, AudioOf(c, op.p).value.ssrc) == k then
        (if k in Swept(c, worlds[i - 1].d, op.p.ts).streams then before else []) + [AudioOf(c, op.p).value.samples]
      else before
  }

  /** The stream is what its packets make of it. */
  ghost predicate MadeOf(c: Config, s: Stream, packets: seq<Bytes>, decoded: Bytes) {
    && s.packets == |packets|
    && s.voiced == LoudTime(c, s.alaw, packets)
    && (s.gateOpen <==> packets != [] && LoudTime(c, s.alaw, packets) >= c.gateSeconds)
    && decoded == DecodedFromGate(c, s.alaw, packets)
  }

  lemma OneMorePacket(c: Config, alaw: bool, packets: seq<Bytes>, more: Bytes)
    ensures LoudTime(c, alaw, packets + [more]) ==
            LoudTime(c, alaw, packets) + if c.rms(more, alaw) >= c.gateRms then |more| as real / 8000.0 else 0.0
    ensures LoudTime(c, alaw, packets + [more]) >= LoudTime(c, alaw, packets)
    ensures DecodedFromGate(c, alaw, packets + [more]) ==
            DecodedFromGate(c, alaw, packets)
            + if LoudTime(c, alaw, packets + [more]) >= c.gateSeconds then c.decode(more, alaw) else []
  {
    assert (packets + [more])[..|packets|] == packets;
    assert |more| as real / 8000.0 >= 0.0;
  }

  /** Before its first packet a stream is empty; after that one packet more is one more. */
  lemma HearingMakes(c: Config, s: Stream, packets: seq<Bytes>, decoded: Bytes, p: Datagram, samples: Bytes,
                     tracker: Tracker)
    requires MadeOf(c, s, packets, decoded)
    ensures var r := Heard(c, s, p, samples, tracker);
            && r.alaw == s.alaw
            && MadeOf(c, r, packets + [samples], if r.gateOpen then decoded + c.decode(samples, s.alaw) else decoded)
  {
    OneMorePacket(c, s.alaw, packets, samples);
  }

  ghost predicate AllMade(c: Config, ops: seq<Op>, worlds: seq<World>, i: nat)
    requires Runs(c, ops, worlds) && i <= |ops|
  {
    forall k :: k in worlds[i].d.streams ==>
                  MadeOf(c, worlds[i].d.streams[k], PacketsOf(c, ops, worlds, i, k), Of(worlds[i].decoded, k))
  }

  lemma NothingYet(c: Config, ops: seq<Op>, worlds: seq<World>)
    requires Runs(c, ops, worlds)
    ensures AllMade(c, ops, worlds, 0)
  {
  }

  lemma OpenedIsEmpty(c: Config, ts: real, alaw: bool)
    ensures MadeOf(c, Opened(ts, alaw), [], [])
  {
  }

  lemma TakeKeepsMade(c: Config, ops: seq<Op>, worlds: seq<World>, i: nat)
    requires Runs(c, ops, worlds) && i < |ops| && ops[i].Take? && AllMade(c, ops, worlds, i)
    ensures AllMade(c, ops, worlds, i + 1)
  {
  }

  lemma SilenceKeepsMade(c: Config, ops: seq<Op>, worlds: seq<World>, i: nat)
    requires Runs(c, ops, worlds) && i < |ops| && ops[i].Packet? && AudioOf(c, ops[i].p).None?
    requires AllMade(c, ops, worlds, i)
    ensures AllMade(c, ops, worlds, i + 1)
  {
  }

  lemma AudioKeepsMade(c: Config, ops: seq<Op>, worlds: seq<World>, i: nat, k: Key)
    requires Runs(c, ops, worlds) && i < |ops| && ops[i].Packet? && AudioOf(c, ops[i].p).Some?
    requires AllMade(c, ops, worlds, i) && k in worlds[i + 1].d.streams
    ensures MadeOf(c, worlds[i + 1].d.streams[k], PacketsOf(c, ops, worlds, i + 1, k), Of(worlds[i + 1].decoded, k))
  {
    var w, p, tracker := worlds[i], ops[i].p, ops[i].tracker;
    var a := AudioOf(c, p).value;
    var swept, heard := Swept(c, w.d, p.ts), KeyOf(p, a.ssrc);
    FedIs(c, w.d, p, tracker);
    if k == heard {
      if k in swept.streams {
        HearingMakes(c, w.d.streams[k], PacketsOf(c, ops, worlds, i, k), Of(w.decoded, k), p, a.samples, tracker);
      } else {
        OpenedIsEmpty(c, p.ts, a.alaw);
        HearingMakes(c, Opened(p.ts, a.alaw), [], [], p, a.samples, tracker);
      }
    }
  }

  /** In every run each live stream is what its own packets since it was opened make of it. */
  lemma {:induction false} StreamsAreTheirPackets(c: Config, ops: seq<Op>, worlds: seq<World>, i: nat)
    requires Runs(c, ops, worlds) && i <= |ops|
    ensures AllMade(c, ops, worlds, i)
    decreases i
  {
    if i == 0 {
      NothingYet(c, ops, worlds);
    } else {
      StreamsAreTheirPackets(c, ops, worlds, i - 1);
      match ops[i - 1]
      case Take(_) => TakeKeepsMade(c, ops, worlds, i - 1);
      case Packet(p, _) =>
        if AudioOf(c, p).None? {
          SilenceKeepsMade(c, ops, worlds, i - 1);
        } else {
          forall k | k in worlds[i].d.streams
            ensures MadeOf(c, worlds[i].d.streams[k], PacketsOf(c, ops, worlds, i, k), Of(worlds[i].decoded, k))
          {
            AudioKeepsMade(c, ops, worlds, i - 1, k);
          }
        }
    }
  }
}
