/** The pcap writer of the test captures, the stream reader of the tap, and the round trip between them. */
module Pcap {
  import opened Numbers
  import opened Common

  type Byte = x: int | 0 <= x < 256
  type Bytes = seq<Byte>

  const Magic: nat := 0xA1B2C3D4
  const Swapped: nat := 0xD4C3B2A1
  const Ethernet: nat := 1

  datatype Order = Little | Big

  datatype Datagram = Datagram(ts: real, src: Bytes, sport: nat, dst: Bytes, dport: nat, payload: Bytes)

  datatype Fault = NoHeader | NotPcap(magic: nat) | UnsupportedLink(link: nat)

  datatype Reading = Packets(seen: seq<Datagram>) | Failed(fault: Fault)

  function Word(n: nat): (r: Bytes)
    requires n < 0x1_0000
    ensures |r| == 2
  {
    [n / 0x100, n % 0x100]
  }

  /** Four bytes, least significant first. */
  function Quad(n: nat): (r: Bytes)
    requires n < 0x1_0000_0000
    ensures |r| == 4
  {
    [n % 0x100, n / 0x100 % 0x100, n / 0x1_0000 % 0x100, n / 0x100_0000]
  }

  /** Four bytes, most significant first. */
  function Value(a: int, b: int, c: int, d: int): int {
    a * 0x100_0000 + b * 0x1_0000 + c * 0x100 + d
  }

  function WordAt(b: Bytes, i: nat): nat
    requires i + 2 <= |b|
  {
    Value(0, 0, b[i], b[i + 1])
  }

  function QuadAt(e: Order, b: Bytes, i: nat): nat
    requires i + 4 <= |b|
  {
    match e
    case Little => Value(b[i + 3], b[i + 2], b[i + 1], b[i])
    case Big => Value(b[i], b[i + 1], b[i + 2], b[i + 3])
  }

  // ---- The writer ----

  const MacHeader: Bytes := [2, 0, 0, 0, 0, 1, 2, 0, 0, 0, 0, 2]

  /** An IPv4 packet without options carrying one UDP datagram, checksums left at zero. */
  function UdpPacket(src: Bytes, sport: nat, dst: Bytes, dport: nat, payload: Bytes): Bytes
    requires |src| == 4 && |dst| == 4 && sport < 0x1_0000 && dport < 0x1_0000 && |payload| <= 65507
  {
    [0x45, 0] + Word(28 + |payload|) + [0, 0, 0, 0, 64, 17, 0, 0] + src + dst
    + Word(sport) + Word(dport) + Word(8 + |payload|) + [0, 0] + payload
  }

  function EthernetFrame(packet: Bytes): Bytes {
    MacHeader + [8, 0] + packet
  }

  predicate Timed(ts: real) {
    0.0 <= ts < 4294967296.0
  }

  function Micros(ts: real): (r: nat)
    requires Timed(ts)
    ensures r < 1000000
  {
    ((ts - ts.Floor as real) * 1000000.0).Floor
  }

  /** A time as the capture keeps it, to the microsecond. */
  function Stamp(sec: nat, micros: nat): real {
    sec as real + micros as real / 1000000.0
  }

  const FileHeader: Bytes :=
    [0xD4, 0xC3, 0xB2, 0xA1, 2, 0, 4, 0, 0, 0, 0, 0, 0, 0, 0, 0, 0xFF, 0xFF, 0, 0, 1, 0, 0, 0]

  function Record(ts: real, raw: Bytes): (r: Bytes)
    requires Timed(ts) && |raw| < 0x1_0000_0000
    ensures |r| == 16 + |raw| && r[16..] == raw
  {
    Quad(ts.Floor) + Quad(Micros(ts)) + Quad(|raw|) + Quad(|raw|) + raw
  }

  class Writer {
    var file: Bytes

    constructor ()
      ensures file == FileHeader
    {
      file := Quad(Magic) + [2, 0] + [4, 0] + Quad(0) + Quad(0) + Quad(65535) + Quad(Ethernet);
    }

    method Write(ts: real, raw: Bytes)
      requires Timed(ts) && |raw| < 0x1_0000_0000
      modifies this
      ensures file == old(file) + Record(ts, raw)
    {
      file := file + (Quad(ts.Floor) + Quad(Micros(ts)) + Quad(|raw|) + Quad(|raw|));
      file := file + raw;
    }
  }

  // ---- The reader ----

  predicate KnownLink(link: nat) {
    link == 113 || link == 276 || link == 1
  }

  function LinkHeader(link: nat): nat {
    if link == 113 then 16 else if link == 276 then 20 else 14
  }

  function ProtocolAt(link: nat): nat {
    if link == 113 then 14 else if link == 276 then 0 else 12
  }

  /** The UDP datagram in a captured frame, if there is one. */
  function FrameOf(link: nat, ts: real, data: Bytes): seq<Datagram> {
    var off := LinkHeader(link);
    if |data| < off + 20 || WordAt(data, ProtocolAt(link)) != 0x0800 || data[off + 9] != 17 then []
    else
      var u := off + data[off] % 16 * 4;
      if |data| < u + 8 then []
      else [Datagram(ts, data[off + 12..off + 16], WordAt(data, u), data[off + 16..off + 20], WordAt(data, u + 2),
                     data[u + 8..])]
  }

  /** One record and what follows it. */
  datatype Piece = Piece(found: seq<Datagram>, rest: Bytes)

  /** The first record; a record cut short is none. */
  function FirstOf(e: Order, link: nat, b: Bytes): (r: Option<Piece>)
    ensures r.Some? ==> |r.value.rest| < |b|
  {
    if |b| < 16 then None
    else
      var incl := QuadAt(e, b, 8);
      if |b| < 16 + incl then None
      else Some(Piece(FrameOf(link, Stamp(QuadAt(e, b, 0), QuadAt(e, b, 4)), b[16..16 + incl]), b[16 + incl..]))
  }

  /** The datagrams in what follows the file header; a record cut short ends the capture. */
  function Records(e: Order, link: nat, b: Bytes): seq<Datagram>
    decreases |b|
  {
    match FirstOf(e, link, b)
    case None => []
    case Some(r) => r.found + Records(e, link, r.rest)
  }

  function Parse(b: Bytes): Reading {
    if |b| < 24 then Failed(NoHeader)
    else
      var magic := QuadAt(Little, b, 0);
      if magic != Magic && magic != Swapped then Failed(NotPcap(magic))
      else
        var e := if magic == Magic then Little else Big;
        var link := QuadAt(e, b, 20);
        if !KnownLink(link) then Failed(UnsupportedLink(link)) else Packets(Records(e, link, b[24..]))
  }

  /** A pipe hands out what is left of a stream in pieces whose sizes it chooses. */
  class Pipe {
    var rest: Bytes
    var pieces: seq<nat>

    constructor (stream: Bytes, pieces: seq<nat>)
      ensures rest == stream
    {
      rest, this.pieces := stream, pieces;
    }

    /** At most `n` bytes, and none only at the end of the stream. */
    method Read(n: nat) returns (chunk: Bytes)
      modifies this
      ensures old(rest) == chunk + rest && |chunk| <= n
      ensures chunk == [] <==> n == 0 || old(rest) == []
    {
      var size := n;
      if pieces != [] {
        size := Max(1, pieces[0]);
        pieces := pieces[1..];
      }
      size := Min(Min(size, n), |rest|);
      chunk := rest[..size];
      rest := rest[size..];
    }

    /** Exactly `n` bytes, however they arrive, or nothing if the stream ends first. */
    method ReadExact(n: nat) returns (r: Option<Bytes>)
      modifies this
      ensures |old(rest)| >= n ==> r == Some(old(rest)[..n]) && rest == old(rest)[n..]
      ensures |old(rest)| < n ==> r == None
    {
      var buf: Bytes := [];
      while |buf| < n
        invariant old(rest) == buf + rest && |buf| <= n
        decreases n - |buf|
      {
        var chunk := Read(n - |buf|);
        if chunk == [] {
          return None;
        }
        buf := buf + chunk;
      }
      return Some(buf);
    }
  }

  method ReadStream(pipe: Pipe) returns (r: Reading)
    modifies pipe
    ensures r == Parse(old(pipe.rest))
  {
    var gh := pipe.ReadExact(24);
    if gh.None? {
      return Failed(NoHeader);
    }
    var magic := QuadAt(Little, gh.value, 0);
    var e;
    if magic == Magic {
      e := Little;
    } else if magic == Swapped {
      e := Big;
    } else {
      return Failed(NotPcap(magic));
    }
    var link := QuadAt(e, gh.value, 20);
    if !KnownLink(link) {
      return Failed(UnsupportedLink(link));
    }
    var seen := ReadRecords(pipe, e, link);
    return Packets(seen);
  }

  method ReadRecords(pipe: Pipe, e: Order, link: nat) returns (seen: seq<Datagram>)
    modifies pipe
    ensures seen == Records(e, link, old(pipe.rest))
  {
    seen := [];
    while true
      invariant Records(e, link, old(pipe.rest)) == seen + Records(e, link, pipe.rest)
      decreases |pipe.rest|
    {
      var more, found := ReadRecord(pipe, e, link);
      if !more {
        return;
      }
      seen := seen + found;
    }
  }

  /** One record: its datagram if it holds one; no more once the stream ends. */
  method ReadRecord(pipe: Pipe, e: Order, link: nat) returns (more: bool, found: seq<Datagram>)
    modifies pipe
    ensures more ==> |pipe.rest| < |old(pipe.rest)|
    ensures Records(e, link, old(pipe.rest)) == if more then found + Records(e, link, pipe.rest) else []
  {
    ghost var before := pipe.rest;
    var ph := pipe.ReadExact(16);
    if ph.None? {
      return false, [];
    }
    HeadFields(e, before);
    var data := pipe.ReadExact(QuadAt(e, ph.value, 8));
    if data.None? {
      return false, [];
    }
    RecordHead(e, link, before, ph.value, data.value, pipe.rest);
    return true, FrameOf(link, Stamp(QuadAt(e, ph.value, 0), QuadAt(e, ph.value, 4)), data.value);
  }

  lemma HeadFields(e: Order, b: Bytes)
    requires |b| >= 16
    ensures QuadAt(e, b[..16], 0) == QuadAt(e, b, 0) && QuadAt(e, b[..16], 4) == QuadAt(e, b, 4)
            && QuadAt(e, b[..16], 8) == QuadAt(e, b, 8)
  {
  }

  lemma DropTwice(b: Bytes, i: nat, n: nat)
    requires i + n <= |b|
    ensures b[i..][..n] == b[i..i + n] && b[i..][n..] == b[i + n..]
  {
  }

  lemma RecordHead(e: Order, link: nat, b: Bytes, head: Bytes, data: Bytes, rest: Bytes)
    requires |b| >= 16 && head == b[..16] && |b| >= 16 + QuadAt(e, head, 8)
    requires data == b[16..][..QuadAt(e, head, 8)] && rest == b[16..][QuadAt(e, head, 8)..]
    ensures Records(e, link, b) == FrameOf(link, Stamp(QuadAt(e, head, 0), QuadAt(e, head, 4)), data)
            + Records(e, link, rest)
  {
    HeadFields(e, b);
    DropTwice(b, 16, QuadAt(e, head, 8));
  }

  // ---- What is written is read ----

  lemma WordBack(n: nat, b: Bytes, i: nat)
    requires n < 0x1_0000 && i + 2 <= |b| && b[i..i + 2] == Word(n)
    ensures WordAt(b, i) == n
  {
    assert b[i] == b[i..i + 2][0] && b[i + 1] == b[i..i + 2][1];
  }

  lemma QuadSplits(n: nat)
    ensures n == Value(n / 0x100_0000, n / 0x1_0000 % 0x100, n / 0x100 % 0x100, n % 0x100)
  {
    assert n / 0x1_0000 == n / 0x100 / 0x100 && n / 0x100_0000 == n / 0x1_0000 / 0x100;
  }

  lemma QuadBack(n: nat, b: Bytes, i: nat)
    requires n < 0x1_0000_0000 && i + 4 <= |b| && b[i..i + 4] == Quad(n)
    ensures QuadAt(Little, b, i) == n
  {
    var q := b[i..i + 4];
    QuadSplits(n);
    assert b[i] == q[0] && b[i + 1] == q[1] && b[i + 2] == q[2] && b[i + 3] == q[3];
  }

  /** A link header of each kind, with the IPv4 protocol number where that kind keeps it. */
  predicate CarriesIpv4(link: nat, head: Bytes) {
    KnownLink(link) && |head| == LinkHeader(link) && WordAt(head, ProtocolAt(link)) == 0x0800
  }

  /** Behind any link header that announces IPv4, the reader finds the addresses, ports and payload written. */
  lemma FrameBack(link: nat, head: Bytes, ts: real, src: Bytes, sport: nat, dst: Bytes, dport: nat, payload: Bytes)
    requires CarriesIpv4(link, head)
    requires |src| == 4 && |dst| == 4 && sport < 0x1_0000 && dport < 0x1_0000 && |payload| <= 65507
    ensures FrameOf(link, ts, head + UdpPacket(src, sport, dst, dport, payload))
            == [Datagram(ts, src, sport, dst, dport, payload)]
  {
    var off := LinkHeader(link);
    var packet := UdpPacket(src, sport, dst, dport, payload);
    var data := head + packet;
    PacketFields(src, sport, dst, dport, payload);
    HeadStays(head, packet, ProtocolAt(link));
    FramedAt(head, packet, 0, 0x45);
    FramedAt(head, packet, 9, 17);
    FramedPart(head, packet, 12, 16);
    FramedPart(head, packet, 16, 20);
    FramedPart(head, packet, 20, 22);
    FramedPart(head, packet, 22, 24);
    FramedRest(head, packet, 28);
    WordBack(sport, data, off + 20);
    WordBack(dport, data, off + 22);
    FrameIs(link, ts, data, Datagram(ts, src, sport, dst, dport, payload));
  }

  lemma FrameIs(link: nat, ts: real, data: Bytes, d: Datagram)
    requires |data| >= LinkHeader(link) + 28 && WordAt(data, ProtocolAt(link)) == 0x0800
    requires var off := LinkHeader(link);
             && data[off] == 0x45 && data[off + 9] == 17
             && data[off + 12..off + 16] == d.src && data[off + 16..off + 20] == d.dst
             && WordAt(data, off + 20) == d.sport && WordAt(data, off + 22) == d.dport
             && data[off + 28..] == d.payload && d.ts == ts
    ensures FrameOf(link, ts, data) == [d]
  {
    assert data[LinkHeader(link)] % 16 * 4 == 20;
  }

  lemma HeadStays(head: Bytes, packet: Bytes, i: nat)
    requires i + 2 <= |head|
    ensures WordAt(head + packet, i) == WordAt(head, i)
  {
  }

  lemma FramedRest(head: Bytes, packet: Bytes, i: nat)
    requires i <= |packet|
    ensures (head + packet)[|head| + i..] == packet[i..]
  {
  }

  lemma FramedAt(head: Bytes, packet: Bytes, i: nat, x: Byte)
    requires i < |packet| && packet[i] == x
    ensures (head + packet)[|head| + i] == x
  {
  }

  lemma FramedPart(head: Bytes, packet: Bytes, i: nat, j: nat)
    requires i <= j <= |packet|
    ensures (head + packet)[|head| + i..|head| + j] == packet[i..j]
  {
  }

  lemma PacketFields(src: Bytes, sport: nat, dst: Bytes, dport: nat, payload: Bytes)
    requires |src| == 4 && |dst| == 4 && sport < 0x1_0000 && dport < 0x1_0000 && |payload| <= 65507
    ensures var p := UdpPacket(src, sport, dst, dport, payload);
            && |p| == 28 + |payload| && p[0] == 0x45 && p[9] == 17
            && p[12..16] == src && p[16..20] == dst && p[20..22] == Word(sport) && p[22..24] == Word(dport)
            && p[28..] == payload
  {
  }

  lemma RecordBack(link: nat, ts: real, raw: Bytes, rest: Bytes)
    requires Timed(ts) && |raw| < 0x1_0000_0000
    ensures Records(Little, link, Record(ts, raw) + rest)
            == FrameOf(link, Stamp(ts.Floor, Micros(ts)), raw) + Records(Little, link, rest)
  {
    var b := Record(ts, raw) + rest;
    assert b[0..4] == Quad(ts.Floor) && b[4..8] == Quad(Micros(ts)) && b[8..12] == Quad(|raw|);
    QuadBack(ts.Floor, b, 0);
    QuadBack(Micros(ts), b, 4);
    QuadBack(|raw|, b, 8);
    assert b[16..16 + |raw|] == raw && b[16 + |raw|..] == rest;
  }

  predicate Writable(p: Datagram) {
    Timed(p.ts) && |p.src| == 4 && |p.dst| == 4 && p.sport < 0x1_0000 && p.dport < 0x1_0000 && |p.payload| <= 65507
  }

  predicate AllWritable(ps: seq<Datagram>) {
    forall k :: 0 <= k < |ps| ==> Writable(ps[k])
  }

  /** The file after writing a list of datagrams in Ethernet frames. */
  function Written(ps: seq<Datagram>): Bytes
    requires AllWritable(ps)
  {
    if ps == [] then []
    else Record(ps[0].ts, EthernetFrame(UdpPacket(ps[0].src, ps[0].sport, ps[0].dst, ps[0].dport, ps[0].payload)))
         + Written(ps[1..])
  }

  function Stamped(ps: seq<Datagram>): seq<Datagram>
    requires AllWritable(ps)
  {
    if ps == [] then [] else [ps[0].(ts := Stamp(ps[0].ts.Floor, Micros(ps[0].ts)))] + Stamped(ps[1..])
  }

  lemma {:induction false} RecordsBack(ps: seq<Datagram>)
    requires AllWritable(ps)
    ensures Records(Little, Ethernet, Written(ps)) == Stamped(ps)
    decreases |ps|
  {
    if ps != [] {
      var p := ps[0];
      var packet := UdpPacket(p.src, p.sport, p.dst, p.dport, p.payload);
      assert EthernetFrame(packet) == (MacHeader + [8, 0]) + packet;
      FrameBack(Ethernet, MacHeader + [8, 0], Stamp(p.ts.Floor, Micros(p.ts)), p.src, p.sport, p.dst, p.dport,
                p.payload);
      RecordBack(Ethernet, p.ts, EthernetFrame(packet), Written(ps[1..]));
      RecordsBack(ps[1..]);
    }
  }

  lemma HeaderParses(b: Bytes)
    requires |b| >= 24 && b[..24] == FileHeader
    ensures QuadAt(Little, b, 0) == Magic && QuadAt(Little, b, 20) == Ethernet
  {
    var h := b[..24];
    assert b[0] == h[0] && b[1] == h[1] && b[2] == h[2] && b[3] == h[3];
    assert b[20] == h[20] && b[21] == h[21] && b[22] == h[22] && b[23] == h[23];
  }

  lemma HeaderThen(rest: Bytes)
    ensures Parse(FileHeader + rest) == Packets(Records(Little, Ethernet, rest))
  {
    var b := FileHeader + rest;
    assert b[..24] == FileHeader && b[24..] == rest;
    HeaderParses(b);
  }

  /** Reading what was written gives the same datagrams in order, times cut to the microsecond. */
  lemma CaptureRoundTrip(ps: seq<Datagram>)
    requires AllWritable(ps)
    ensures Parse(FileHeader + Written(ps)) == Packets(Stamped(ps))
  {
    RecordsBack(ps);
    HeaderThen(Written(ps));
  }

  lemma StampIsClose(ts: real)
    requires Timed(ts)
    ensures Stamp(ts.Floor, Micros(ts)) <= ts < Stamp(ts.Floor, Micros(ts)) + 0.000001
  {
  }

  lemma {:induction false} StampedIs(ps: seq<Datagram>, k: nat)
    requires AllWritable(ps) && k < |ps|
    ensures |Stamped(ps)| == |ps|
    ensures Stamped(ps)[k].(ts := ps[k].ts) == ps[k] && Stamped(ps)[k].ts <= ps[k].ts < Stamped(ps)[k].ts + 0.000001
    decreases |ps|
  {
    StampIsClose(ps[0].ts);
    if |ps| > 1 {
      StampedIs(ps[1..], if k > 0 then k - 1 else 0);
    }
  }

  lemma CutFields(e: Order, b: Bytes, n: nat)
    requires 16 <= n <= |b|
    ensures QuadAt(e, b[..n], 0) == QuadAt(e, b, 0) && QuadAt(e, b[..n], 4) == QuadAt(e, b, 4)
            && QuadAt(e, b[..n], 8) == QuadAt(e, b, 8)
  {
  }

  lemma CutData(b: Bytes, m: nat, n: nat)
    requires 16 <= m <= n <= |b|
    ensures b[..n][16..m] == b[16..m] && b[..n][m..] == b[m..][..n - m]
  {
  }

  /** The first record of a capture cut short, if it is whole, is the first record, and the rest is cut too. */
  lemma CutFirst(e: Order, link: nat, b: Bytes, n: nat) returns (left: nat)
    requires n <= |b| && FirstOf(e, link, b[..n]).Some?
    ensures FirstOf(e, link, b).Some?
    ensures var x, y := FirstOf(e, link, b[..n]).value, FirstOf(e, link, b).value;
            x.found == y.found && left <= |y.rest| && x.rest == y.rest[..left]
  {
    CutFields(e, b, n);
    var m := 16 + QuadAt(e, b, 8);
    CutData(b, m, n);
    left := n - m;
  }

  lemma SamePrefix(first: seq<Datagram>, a: seq<Datagram>, b: seq<Datagram>)
    requires a <= b
    ensures first + a <= first + b
  {
  }

  /** Cutting a capture anywhere after its header loses only datagrams from its end. */
  lemma {:induction false} TruncationLosesTheTail(e: Order, link: nat, b: Bytes, n: nat)
    requires n <= |b|
    ensures Records(e, link, b[..n]) <= Records(e, link, b)
    decreases |b|
  {
    if FirstOf(e, link, b[..n]).Some? {
      var left := CutFirst(e, link, b, n);
      var y := FirstOf(e, link, b).value;
      TruncationLosesTheTail(e, link, y.rest, left);
      SamePrefix(y.found, Records(e, link, y.rest[..left]), Records(e, link, y.rest));
    }
  }
}
