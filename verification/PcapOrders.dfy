/** Captures in either byte order, with whatever frames: only UDP over IPv4 gives a datagram. */
module PcapOrders {
  import opened Pcap

  function QuadIn(e: Order, n: nat): (r: Bytes)
    requires n < 0x1_0000_0000
    ensures |r| == 4
  {
    match e
    case Little => [n % 0x100, n / 0x100 % 0x100, n / 0x1_0000 % 0x100, n / 0x100_0000]
    case Big => [n / 0x100_0000, n / 0x1_0000 % 0x100, n / 0x100 % 0x100, n % 0x100]
  }

  /** A captured frame: seconds, microseconds, the length on the wire and the bytes. */
  datatype Frame = Frame(sec: nat, micros: nat, wire: nat, raw: Bytes)

  predicate Recordable(f: Frame) {
    f.sec < 0x1_0000_0000 && f.micros < 0x1_0000_0000 && f.wire < 0x1_0000_0000 && |f.raw| < 0x1_0000_0000
  }

  predicate AllRecordable(fs: seq<Frame>) {
    forall k :: 0 <= k < |fs| ==> Recordable(fs[k])
  }

  /** A record's four words. */
  function HeadIn(e: Order, f: Frame): (r: Bytes)
    requires Recordable(f)
    ensures |r| == 16
  {
    QuadIn(e, f.sec) + QuadIn(e, f.micros) + QuadIn(e, |f.raw|) + QuadIn(e, f.wire)
  }

  /** The records of these frames in a byte order: the words of each, and its bytes. */
  function RecordsIn(e: Order, fs: seq<Frame>): Bytes
    requires AllRecordable(fs)
  {
    if fs == [] then [] else HeadIn(e, fs[0]) + fs[0].raw + RecordsIn(e, fs[1..])
  }

  /** A capture file: its magic number and link type in its byte order, with sixteen bytes between. */
  function CaptureIn(e: Order, between: Bytes, link: nat, fs: seq<Frame>): Bytes
    requires |between| == 16 && link < 0x1_0000_0000 && AllRecordable(fs)
  {
    QuadIn(e, 0xA1B2C3D4) + between + QuadIn(e, link) + RecordsIn(e, fs)
  }

  /** What the frames hold, one after another. */
  function Found(link: nat, fs: seq<Frame>): seq<Datagram> {
    if fs == [] then []
    else FrameOf(link, Stamp(fs[0].sec, fs[0].micros), fs[0].raw) + Found(link, fs[1..])
  }

  lemma QuadInBack(e: Order, n: nat, b: Bytes, i: nat)
    requires n < 0x1_0000_0000 && i + 4 <= |b| && b[i..i + 4] == QuadIn(e, n)
    ensures QuadAt(e, b, i) == n
  {
    var q := b[i..i + 4];
    QuadSplits(n);
    assert b[i] == q[0] && b[i + 1] == q[1] && b[i + 2] == q[2] && b[i + 3] == q[3];
  }

  lemma HeadBack(e: Order, f: Frame)
    requires Recordable(f)
    ensures var h := HeadIn(e, f);
            QuadAt(e, h, 0) == f.sec && QuadAt(e, h, 4) == f.micros && QuadAt(e, h, 8) == |f.raw|
  {
    var h := HeadIn(e, f);
    assert h[0..4] == QuadIn(e, f.sec) && h[4..8] == QuadIn(e, f.micros) && h[8..12] == QuadIn(e, |f.raw|);
    QuadInBack(e, f.sec, h, 0);
    QuadInBack(e, f.micros, h, 4);
    QuadInBack(e, |f.raw|, h, 8);
  }

  lemma Pieces(b: Bytes, head: Bytes, data: Bytes, rest: Bytes)
    requires |head| == 16 && b == head + data + rest
    ensures |b| >= 16 && b[..16] == head && b[16..] == data + rest
  {
  }

  lemma SplitsAt(x: Bytes, y: Bytes)
    ensures (x + y)[..|x|] == x && (x + y)[|x|..] == y
  {
  }

  lemma FirstOfPieces(e: Order, link: nat, b: Bytes, head: Bytes, f: Frame, rest: Bytes)
    requires |b| >= 16 && head == b[..16] && b[16..] == f.raw + rest
    requires QuadAt(e, head, 0) == f.sec && QuadAt(e, head, 4) == f.micros && QuadAt(e, head, 8) == |f.raw|
    ensures Records(e, link, b) ==
            FrameOf(link, Stamp(f.sec, f.micros), f.raw) + Records(e, link, rest)
  {
    SplitsAt(f.raw, rest);
    RecordHead(e, link, b, head, f.raw, rest);
  }

  lemma {:induction false} RecordsAreFound(e: Order, link: nat, fs: seq<Frame>, b: Bytes)
    requires AllRecordable(fs) && b == RecordsIn(e, fs)
    ensures Records(e, link, b) == Found(link, fs)
    decreases |fs|
  {
    if fs != [] {
      var rest := RecordsIn(e, fs[1..]);
      RecordsAreFound(e, link, fs[1..], rest);
      HeadBack(e, fs[0]);
      Pieces(b, HeadIn(e, fs[0]), fs[0].raw, rest);
      FirstOfPieces(e, link, b, HeadIn(e, fs[0]), fs[0], rest);
    }
  }

  lemma MagicBytes()
    ensures QuadIn(Little, 0xA1B2C3D4) == [0xD4, 0xC3, 0xB2, 0xA1]
    ensures QuadIn(Big, 0xA1B2C3D4) == [0xA1, 0xB2, 0xC3, 0xD4]
  {
  }

  lemma SwappedMagic(b: Bytes)
    requires |b| >= 4
    ensures b[0..4] == QuadIn(Big, 0xA1B2C3D4) ==> QuadAt(Little, b, 0) == 0xD4C3B2A1
    ensures b[0..4] == QuadIn(Little, 0xA1B2C3D4) ==> QuadAt(Little, b, 0) == 0xA1B2C3D4
  {
    MagicBytes();
    var q := b[0..4];
    assert b[0] == q[0] && b[1] == q[1] && b[2] == q[2] && b[3] == q[3];
  }

  /**
   A capture of any frames, in either byte order, on any of the three link types the tap knows, is read frame by
   frame with its times; on another link type it is refused.
   */
  lemma EitherOrderIsRead(e: Order, between: Bytes, link: nat, fs: seq<Frame>)
    requires |between| == 16 && link < 0x1_0000_0000 && AllRecordable(fs)
    ensures Parse(CaptureIn(e, between, link, fs)) ==
            if link == 113 || link == 276 || link == 1 then Packets(Found(link, fs)) else Failed(UnsupportedLink(link))
  {
    var b := CaptureIn(e, between, link, fs);
    assert b[0..4] == QuadIn(e, 0xA1B2C3D4) && b[20..24] == QuadIn(e, link) && b[24..] == RecordsIn(e, fs);
    SwappedMagic(b);
    QuadInBack(e, link, b, 20);
    RecordsAreFound(e, link, fs, b[24..]);
  }

  /** Only a magic number of either order makes a capture, and only with a whole header. */
  lemma OthersAreRefused(b: Bytes)
    ensures |b| < 24 ==> Parse(b) == Failed(NoHeader)
    ensures |b| >= 24 && b[0..4] != QuadIn(Little, 0xA1B2C3D4) && b[0..4] != QuadIn(Big, 0xA1B2C3D4) ==>
              Parse(b).Failed? && Parse(b).fault.NotPcap?
  {
    if |b| >= 24 {
      ReadMagic(b);
    }
  }

  lemma ReadMagic(b: Bytes)
    requires |b| >= 4
    ensures QuadAt(Little, b, 0) == 0xA1B2C3D4 ==> b[0..4] == QuadIn(Little, 0xA1B2C3D4)
    ensures QuadAt(Little, b, 0) == 0xD4C3B2A1 ==> b[0..4] == QuadIn(Big, 0xA1B2C3D4)
  {
    MagicBytes();
    assert b[0..4] == [b[0], b[1], b[2], b[3]];
  }

  /** Where each kind of link header ends, and where in it the protocol number stands. */
  function LinkLength(link: nat): nat {
    if link == 113 then 16 else if link == 276 then 20 else 14
  }

  function ProtocolPlace(link: nat): nat {
    if link == 113 then 14 else if link == 276 then 0 else 12
  }

  /** A frame gives nothing if it is short, is not IPv4, is not UDP, or ends within its headers. */
  lemma OtherFramesAreSkipped(link: nat, ts: real, data: Bytes)
    requires || |data| < LinkLength(link) + 20
             || data[ProtocolPlace(link)] != 8 || data[ProtocolPlace(link) + 1] != 0
             || data[LinkLength(link) + 9] != 17
             || |data| < LinkLength(link) + data[LinkLength(link)] % 16 * 4 + 8
    ensures FrameOf(link, ts, data) == []
  {
  }

  /** Any other gives the datagram behind its IP header, however many options that carries. */
  lemma UdpFramesAreRead(link: nat, ts: real, data: Bytes)
    requires |data| >= LinkLength(link) + 20
    requires data[ProtocolPlace(link)] == 8 && data[ProtocolPlace(link) + 1] == 0 && data[LinkLength(link) + 9] == 17
    requires |data| >= LinkLength(link) + data[LinkLength(link)] % 16 * 4 + 8
    ensures var off := LinkLength(link);
            var u := off + data[off] % 16 * 4;
            FrameOf(link, ts, data) ==
            [Datagram(ts, data[off + 12..off + 16], 256 * (data[u] as int) + data[u + 1] as int,
                      data[off + 16..off + 20], 256 * (data[u + 2] as int) + data[u + 3] as int, data[u + 8..])]
  {
  }
}
