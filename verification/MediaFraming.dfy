/** The path of one encoded frame: the request buffer A2dpStream::send_frame fills
    (service/src/a2dp_stream.cpp), its validation (driver/src/ioctl.c) and the media
    packet the driver puts on the channel (driver/src/l2cap_stream.c; RTP header per
    section 5.1 of RFC 3550). */
module MediaFraming {
  import opened ByteTypes

  const RTP_HEADER_LEN := 12
  const RTP_OVERHEAD := 13
  const MAX_FRAME := 0xFFFF - RTP_OVERHEAD
  const SSRC: u32 := 1

  // ---- Per-codec framing ---------------------------------------------------

  datatype Framing = Framing(useRtp: bool, payloadHeader: bool, tsIncr: u32)

  function FramingOf(codecId: u32): Framing {
    if codecId in {CODEC_APTX, CODEC_APTX_HD, CODEC_APTX_ADAPTIVE} then Framing(false, false, 0)
    else if codecId == CODEC_AAC then Framing(true, false, 1024)
    else if codecId == CODEC_LC3 then Framing(true, false, 480)
    else Framing(true, true, 128)
  }

  /** OwbMediaFraming: the framing policy through out-parameters. */
  method MediaFramingPolicy(codecId: u32) returns (useRtp: bool, payloadHeader: bool, tsIncr: u32)
    ensures Framing(useRtp, payloadHeader, tsIncr) == FramingOf(codecId)
  {
    if codecId == CODEC_APTX || codecId == CODEC_APTX_HD || codecId == CODEC_APTX_ADAPTIVE {
      useRtp, payloadHeader, tsIncr := false, false, 0;
    } else if codecId == CODEC_AAC {
      useRtp, payloadHeader, tsIncr := true, false, 1024;
    } else if codecId == CODEC_LC3 {
      useRtp, payloadHeader, tsIncr := true, false, 480;
    } else {
      useRtp, payloadHeader, tsIncr := true, true, 128;
    }
  }

  function RtpHeader(seqNum: u16, timestamp: u32): (h: seq<byte>)
    ensures |h| == RTP_HEADER_LEN
  {
    [0x80, 0x60] + BigEndian16(seqNum) + BigEndian32(timestamp) + BigEndian32(SSRC)
  }

  function HeaderLen(codecId: u32): nat {
    var f := FramingOf(codecId);
    (if f.useRtp then RTP_HEADER_LEN else 0) + (if f.payloadHeader then 1 else 0)
  }

  function MediaPacket(codecId: u32, seqNum: u16, timestamp: u32, frame: seq<byte>): (p: seq<byte>)
    ensures |p| == HeaderLen(codecId) + |frame|
  {
    var f := FramingOf(codecId);
    (if f.useRtp then RtpHeader(seqNum, timestamp) else [])
    + (if f.payloadHeader then [0x01] else [])
    + frame
  }

  method WriteRtpHeader(pkt: array<byte>, seqNum: u16, timestamp: u32)
    requires pkt.Length >= RTP_HEADER_LEN
    modifies pkt
    ensures pkt[..RTP_HEADER_LEN] == RtpHeader(seqNum, timestamp)
  {
    hide BigEndian16, BigEndian32;
    CopyBytes(pkt, 0, [0x80, 0x60]);
    CopyBytes(pkt, 2, BigEndian16(seqNum));
    CopyBytes(pkt, 4, BigEndian32(timestamp));
    CopyBytes(pkt, 8, BigEndian32(SSRC));
  }

  /** Fills the packet buffer in place, header fields first. */
  method WriteMediaPacket(pkt: array<byte>, codecId: u32, seqNum: u16, timestamp: u32, frame: seq<byte>)
    requires pkt.Length == HeaderLen(codecId) + |frame|
    modifies pkt
    ensures pkt[..] == MediaPacket(codecId, seqNum, timestamp, frame)
  {
    var useRtp, payloadHeader, tsIncr := MediaFramingPolicy(codecId);
    hide BigEndian16, BigEndian32, FramingOf;
    var rtpLen := if useRtp then RTP_HEADER_LEN else 0;
    var hdrLen := if payloadHeader then 1 else 0;
    if useRtp {
      WriteRtpHeader(pkt, seqNum, timestamp);
    }
    assert pkt[..rtpLen] == if useRtp then RtpHeader(seqNum, timestamp) else [];
    if payloadHeader {
      CopyBytes(pkt, rtpLen, [0x01]);
    }
    CopyBytes(pkt, rtpLen + hdrLen, frame);
    assert pkt[..] == pkt[..rtpLen + hdrLen + |frame|];
  }

  method NewMediaPacket(codecId: u32, seqNum: u16, timestamp: u32, frame: seq<byte>) returns (packet: seq<byte>)
    ensures packet == MediaPacket(codecId, seqNum, timestamp, frame)
  {
    var pkt := new byte[HeaderLen(codecId) + |frame|](_ => 0);
    WriteMediaPacket(pkt, codecId, seqNum, timestamp, frame);
    packet := pkt[..];
  }

  // ---- The receiver's reading of a packet ----------------------------------

  datatype RtpFields = RtpFields(version: int, payloadType: int, seqNum: u16, timestamp: u32, ssrc: u32)
  datatype Parsed = Parsed(rtp: Option<RtpFields>, frame: seq<byte>)

  /** Section 5.1 of RFC 3550: version in the top two bits, marker and payload type in
      the second octet, then sequence number, timestamp and SSRC in network order. */
  function ReadRtpHeader(h: seq<byte>): RtpFields
    requires |h| == RTP_HEADER_LEN
  {
    RtpFields(h[0] as int / 64, h[1] as int % 128,
              FromBigEndian16(h[2..4]), FromBigEndian32(h[4..8]), FromBigEndian32(h[8..12]))
  }

  /** What a receiver of each codec expects: bare frames for aptX; an RTP header and the frame
      for AAC and LC3; for SBC, LDAC and any other id a payload header that counts one frame
      in between. */
  function ParseMediaPacket(codecId: u32, p: seq<byte>): Option<Parsed> {
    if codecId in {2, 3, 6} then Some(Parsed(None, p))
    else if |p| < 12 then None
    else if codecId in {4, 5} then Some(Parsed(Some(ReadRtpHeader(p[..12])), p[12..]))
    else if |p| == 12 || p[12] != 0x01 then None
    else Some(Parsed(Some(ReadRtpHeader(p[..12])), p[13..]))
  }

  /** PCM samples a receiver counts for one frame; aptX has no RTP clock. */
  function SamplesPerFrame(codecId: u32): nat {
    if codecId in {2, 3, 6} then 0 else if codecId == 4 then 1024 else if codecId == 5 then 480 else 128
  }

  /** The packets of the three kinds of codec, octet by octet. */
  lemma PacketOctets(codecId: u32, seqNum: u16, timestamp: u32, frame: seq<byte>)
    ensures var rtp := [0x80, 0x60, seqNum as int / 0x100, seqNum as int % 0x100,
                        timestamp as int / 0x100_0000, timestamp as int / 0x1_0000 % 0x100,
                        timestamp as int / 0x100 % 0x100, timestamp as int % 0x100, 0, 0, 0, 1];
      MediaPacket(codecId, seqNum, timestamp, frame)
      == (if codecId in {2, 3, 6} then [] else if codecId in {4, 5} then rtp else rtp + [0x01]) + frame
    ensures FramingOf(codecId).useRtp <==> codecId !in {2, 3, 6}
    ensures FramingOf(codecId).tsIncr == SamplesPerFrame(codecId)
  {
    BigEndianOctets(timestamp, seqNum);
    BigEndianOctets(SSRC, 0);
  }

  lemma RtpHeaderRoundTrip(seqNum: u16, timestamp: u32)
    ensures ReadRtpHeader(RtpHeader(seqNum, timestamp)) == RtpFields(2, 96, seqNum, timestamp, 1)
  {
    var h := RtpHeader(seqNum, timestamp);
    assert h[2..4] == BigEndian16(seqNum);
    assert h[4..8] == BigEndian32(timestamp);
    assert h[8..12] == BigEndian32(SSRC);
  }

  lemma MediaPacketRoundTrip(codecId: u32, seqNum: u16, timestamp: u32, frame: seq<byte>)
    ensures var rtp := if codecId in {2, 3, 6} then None else Some(RtpFields(2, 96, seqNum, timestamp, 1));
            ParseMediaPacket(codecId, MediaPacket(codecId, seqNum, timestamp, frame)) == Some(Parsed(rtp, frame))
  {
    var p := MediaPacket(codecId, seqNum, timestamp, frame);
    assert p[HeaderLen(codecId)..] == frame;
    if FramingOf(codecId).useRtp {
      assert p[..RTP_HEADER_LEN] == RtpHeader(seqNum, timestamp);
      RtpHeaderRoundTrip(seqNum, timestamp);
    }
  }

  // ---- The request buffer --------------------------------------------------

  /** OWB_SEND_FRAME_INPUT, packed: codec id, data length, data. */
  function SendFrameRequest(codecId: u32, frame: seq<byte>): seq<byte>
    requires |frame| <= 0xFFFF_FFF7
  {
    LittleEndian32(codecId) + LittleEndian32(|frame|) + frame
  }

  /** The request in octets: id and length lowest octet first, then the frame. */
  lemma RequestOctets(codecId: u32, frame: seq<byte>)
    requires |frame| <= 0xFFFF_FFF7
    ensures SendFrameRequest(codecId, frame)
         == [codecId as int % 0x100, codecId as int / 0x100 % 0x100, codecId as int / 0x1_0000 % 0x100,
             codecId as int / 0x100_0000,
             |frame| % 0x100, |frame| / 0x100 % 0x100, |frame| / 0x1_0000 % 0x100, |frame| / 0x100_0000] + frame
  {
    LittleEndianOctets(codecId, 0);
    LittleEndianOctets(|frame|, 0);
  }

  /** Every buffer, in octets: at least nine of them, and a length that fits both the buffer and
      65522. */
  lemma ValidatedExactly(buf: seq<byte>)
    ensures |buf| < 9 ==> ValidatedFrame(buf).None?
    ensures |buf| >= 9 ==>
      var dataLen := buf[4] as int + buf[5] as int * 0x100 + buf[6] as int * 0x1_0000 + buf[7] as int * 0x100_0000;
      if dataLen <= |buf| - 8 && dataLen <= 65522
      then ValidatedFrame(buf).Some? && ValidatedFrame(buf).value.1 == buf[8..8 + dataLen]
      else ValidatedFrame(buf).None?
  {
    if |buf| >= 9 {
      var s := buf[4..8];
      assert s[..2] == [buf[4], buf[5]] && s[2..] == [buf[6], buf[7]];
    }
  }

  /** send_frame: refuses a closed device and an empty frame; otherwise fills the request
      buffer. The 32-bit buffer size it computes must not wrap. */
  method BuildSendFrameRequest(isOpen: bool, codecId: u32, frame: seq<byte>) returns (request: Option<seq<byte>>)
    requires |frame| <= 0xFFFF_FFF7
    ensures request == if isOpen && frame != [] then Some(SendFrameRequest(codecId, frame)) else None
  {
    if !isOpen || frame == [] {
      return None;
    }
    var buf := new byte[8 + |frame|](_ => 0);
    CopyBytes(buf, 0, LittleEndian32(codecId));
    assert buf[..4] == LittleEndian32(codecId);
    CopyBytes(buf, 4, LittleEndian32(|frame|));
    assert buf[..8] == LittleEndian32(codecId) + LittleEndian32(|frame|);
    CopyBytes(buf, 8, frame);
    assert buf[..] == buf[..8 + |frame|];
    request := Some(buf[..]);
  }

  /** What the SEND_AUDIO_FRAME handler hands on: the codec id and the first data_len
      octets of data, once the buffer is at least one whole structure and data_len fits
      both the buffer and the packet length. */
  function ValidatedFrame(buf: seq<byte>): (r: Option<(u32, seq<byte>)>)
    ensures r.Some? ==> |r.value.1| <= MAX_FRAME
  {
    if |buf| < 9 then None
    else
      var dataLen := FromLittleEndian32(buf[4..8]);
      if dataLen > |buf| - 8 || dataLen > MAX_FRAME then None
      else Some((FromLittleEndian32(buf[..4]), buf[8..8 + dataLen as int]))
  }

  /** Transparency of the whole path. A non-empty frame passes validation exactly when
      it is at most 65522 octets long; it then survives the cast to USHORT, its packet
      fits a 16-bit length for every codec, and the receiver recovers it. */
  lemma FrameTransparency(codecId: u32, frame: seq<byte>, seqNum: u16, timestamp: u32)
    requires 0 < |frame| <= 0xFFFF_FFF7
    ensures ValidatedFrame(SendFrameRequest(codecId, frame)).Some? <==> |frame| <= 65522
    ensures |frame| <= MAX_FRAME ==>
      && ValidatedFrame(SendFrameRequest(codecId, frame)) == Some((codecId, frame))
      && |frame| % 0x1_0000 == |frame|
      && |MediaPacket(codecId, seqNum, timestamp, frame)| <= 0xFFFF
      && ParseMediaPacket(codecId, MediaPacket(codecId, seqNum, timestamp, frame)).Some?
      && ParseMediaPacket(codecId, MediaPacket(codecId, seqNum, timestamp, frame)).value.frame == frame
  {
    var buf := SendFrameRequest(codecId, frame);
    assert buf[..4] == LittleEndian32(codecId);
    assert buf[4..8] == LittleEndian32(|frame|);
    assert buf[8..8 + |frame|] == frame;
    MediaPacketRoundTrip(codecId, seqNum, timestamp, frame);
  }
}
