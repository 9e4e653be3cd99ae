/** Which datagrams are a customer's audio, and what of them is the audio, whatever their headers carry. */
module RtpHeaders {
  import opened Common
  import opened Pcap
  import opened RtpDemux
  import opened RtpLaws

  /** An extension: two bytes of its own, its length in words, and the words. */
  function Extension(kind: Bytes, body: Bytes): Bytes
    requires |kind| == 2 && |body| % 4 == 0 && |body| / 4 < 0x1_0000
  {
    kind + Word(|body| / 4) + body
  }

  /** The first byte: version two, whether there is padding and an extension, and how many contributing sources. */
  function FirstByte(padding: bool, extended: bool, sources: nat): Byte
    requires sources < 16
  {
    128 + (if padding then 32 else 0) + (if extended then 16 else 0) + sources
  }

  /** Header fields as section 5.1 of RFC 3550 lays them out, with `rest` behind the fixed part. */
  function Header(first: Byte, second: Byte, middle: Bytes, ssrc: nat, rest: Bytes): Bytes
    requires |middle| == 6 && ssrc < 0x1_0000_0000
  {
    [first, second] + middle + BigQuad(ssrc) + rest
  }

  lemma HeaderParts(first: Byte, second: Byte, middle: Bytes, ssrc: nat, rest: Bytes)
    requires |middle| == 6 && ssrc < 0x1_0000_0000
    ensures var h := Header(first, second, middle, ssrc, rest);
            && |h| == 12 + |rest| && h[0] == first && h[1] == second && h[12..] == rest
            && QuadAt(Big, h, 8) == ssrc
  {
    var h := Header(first, second, middle, ssrc, rest);
    var q := h[8..12];
    assert q == BigQuad(ssrc);
    QuadSplits(ssrc);
    assert h[8] == q[0] && h[9] == q[1] && h[10] == q[2] && h[11] == q[3];
    assert h[12..] == rest;
  }

  lemma FirstByteParts(padding: bool, extended: bool, sources: nat)
    requires sources < 16
    ensures var b := FirstByte(padding, extended, sources);
            b / 64 == 2 && b % 16 == sources && b / 16 % 2 == if extended then 1 else 0
  {
  }

  /** The length of what stands between the fixed part and the audio. */
  lemma ExtendedLength(h: Bytes, csrc: Bytes, kind: Bytes, body: Bytes, audio: Bytes)
    requires |h| >= 12 && h[0] / 16 % 2 == 1 && |csrc| == 4 * (h[0] % 16)
    requires |kind| == 2 && |body| % 4 == 0 && |body| / 4 < 0x1_0000
    requires h[12..] == csrc + Extension(kind, body) + audio
    ensures HeaderLength(h) == Some(16 + |csrc| + |body|) && h[16 + |csrc| + |body|..] == audio
  {
    var n := |csrc|;
    var x := Extension(kind, body);
    assert h == h[..12] + csrc + x + audio;
    assert h[12 + n..12 + n + 4] == x[..4] == kind + Word(|body| / 4);
    assert h[12 + n + 2] == x[2] && h[12 + n + 3] == x[3];
    assert WordAt(h, 12 + n + 2) == |body| / 4;
    assert h[16 + n + |body|..] == audio;
  }

  lemma AudioBehind(c: Config, p: Datagram, alaw: bool, ssrc: nat, hdr: nat, audio: Bytes)
    requires |p.payload| >= 13 && p.payload[0] / 64 == 2 && p.src in c.media
    requires p.payload[1] == (if alaw then 8 else 0) || p.payload[1] == (if alaw then 136 else 128)
    requires HeaderLength(p.payload) == Some(hdr) && hdr < |p.payload| && p.payload[hdr..] == audio
    requires QuadAt(Big, p.payload, 8) == ssrc
    ensures AudioOf(c, p) == Some(Audio(alaw, ssrc, audio))
  {
  }

  lemma PlainLength(h: Bytes, csrc: Bytes, audio: Bytes)
    requires |h| >= 12 && h[0] / 16 % 2 == 0 && |csrc| == 4 * (h[0] % 16) && h[12..] == csrc + audio
    ensures HeaderLength(h) == Some(12 + |csrc|) && h[12 + |csrc|..] == audio
  {
    assert h[12 + |csrc|..] == h[12..][|csrc|..];
  }

  /** What an extended header has behind its contributing sources. */
  predicate Extends(kind: Bytes, body: Bytes) {
    |kind| == 2 && |body| % 4 == 0 && |body| / 4 < 0x1_0000
  }

  /** A customer's packet without an extension gives back its audio, whatever else its header carries. */
  lemma PlainAudioComesBack(c: Config, p: Datagram, padding: bool, marker: bool, alaw: bool, middle: Bytes, ssrc: nat,
                            csrc: Bytes, audio: Bytes)
    requires |middle| == 6 && ssrc < 0x1_0000_0000 && |csrc| % 4 == 0 && |csrc| / 4 < 16
    requires audio != [] && p.src in c.media
    requires p.payload == Header(FirstByte(padding, false, |csrc| / 4),
                                 (if marker then 128 else 0) + (if alaw then 8 else 0), middle, ssrc, csrc + audio)
    ensures AudioOf(c, p) == Some(Audio(alaw, ssrc, audio))
  {
    var second := (if marker then 128 else 0) + (if alaw then 8 else 0);
    HeaderParts(FirstByte(padding, false, |csrc| / 4), second, middle, ssrc, csrc + audio);
    FirstByteParts(padding, false, |csrc| / 4);
    PlainLength(p.payload, csrc, audio);
    AudioBehind(c, p, alaw, ssrc, 12 + |csrc|, audio);
  }

  /** ...and so does one with an extension of any length. */
  lemma ExtendedAudioComesBack(c: Config, p: Datagram, padding: bool, marker: bool, alaw: bool, middle: Bytes,
                               ssrc: nat, csrc: Bytes, kind: Bytes, body: Bytes, audio: Bytes)
    requires |middle| == 6 && ssrc < 0x1_0000_0000 && |csrc| % 4 == 0 && |csrc| / 4 < 16 && Extends(kind, body)
    requires audio != [] && p.src in c.media
    requires p.payload == Header(FirstByte(padding, true, |csrc| / 4),
                                 (if marker then 128 else 0) + (if alaw then 8 else 0), middle, ssrc,
                                 csrc + Extension(kind, body) + audio)
    ensures AudioOf(c, p) == Some(Audio(alaw, ssrc, audio))
  {
    var second := (if marker then 128 else 0) + (if alaw then 8 else 0);
    HeaderParts(FirstByte(padding, true, |csrc| / 4), second, middle, ssrc, csrc + Extension(kind, body) + audio);
    FirstByteParts(padding, true, |csrc| / 4);
    ExtendedLength(p.payload, csrc, kind, body, audio);
    AudioBehind(c, p, alaw, ssrc, 16 + |csrc| + |body|, audio);
  }

  /** No audio comes of a stub, of another version, of control traffic, of another codec or of another source. */
  lemma NothingElseIsAudio(c: Config, p: Datagram)
    requires || |p.payload| < 13 || p.payload[0] < 128 || p.payload[0] >= 192
             || 200 <= p.payload[1] <= 204
             || p.payload[1] !in [0, 8, 128, 136]
             || p.src !in c.media
    ensures AudioOf(c, p) == None
  {
    if |p.payload| >= 13 {
      var pt := p.payload[1] % 128;
      assert pt == 0 || pt == 8 ==> p.payload[1] in [0, 8, 128, 136];
    }
  }

  /** Nor of a packet that its own header says is all header. */
  lemma HeaderAlone(c: Config, p: Datagram)
    requires |p.payload| >= 12 && |p.payload| <= 12 + p.payload[0] % 16 * 4
    ensures AudioOf(c, p) == None
  {
  }
}
