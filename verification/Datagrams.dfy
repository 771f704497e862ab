/** IP packets inside HTTP datagrams (section 2.1 of RFC 9297) with and without a context id. */
module Datagrams {
  import opened Wrappers
  import opened Varint

  type Packet = seq<byte>

  const CONNECT_IP_CONTEXT_ID: nat := 0

  function QuarterStreamId(streamId: nat): nat {
    streamId / 4
  }

  function EncodeIpDatagram(streamId: nat, packet: Packet): seq<byte>
    requires QuarterStreamId(streamId) < VARINT_LIMIT
  {
    EncodeVarint(QuarterStreamId(streamId)) + EncodeVarint(CONNECT_IP_CONTEXT_ID) + packet
  }

  /** The packet of a datagram for this stream; `Ok(None)` when it is another stream's or another context's. */
  function DecodeIpDatagram(datagram: seq<byte>, streamId: nat): Result<Option<Packet>, ()> {
    match DecodeVarint(datagram)
    case None => Err(())
    case Some((qsid, n)) =>
      if qsid != QuarterStreamId(streamId) then Ok(None)
      else
        match DecodeVarint(datagram[n..])
        case None => Err(())
        case Some((ctx, m)) =>
          if ctx != CONNECT_IP_CONTEXT_ID then Ok(None) else Ok(Some(datagram[n + m..]))
  }

  /** The h3 path: a datagram decodes to its packet on its own stream, and to nothing on any other. */
  lemma DatagramRoundTrip(sent: nat, expected: nat, packet: Packet)
    requires QuarterStreamId(sent) < VARINT_LIMIT
    ensures DecodeIpDatagram(EncodeIpDatagram(sent, packet), expected) ==
              Ok(if QuarterStreamId(sent) == QuarterStreamId(expected) then Some(packet) else None)
  {
    hide EncodeVarint, DecodeVarint;
    var id, ctx := EncodeVarint(QuarterStreamId(sent)), EncodeVarint(CONNECT_IP_CONTEXT_ID);
    var d := EncodeIpDatagram(sent, packet);
    assert d == id + (ctx + packet);
    VarintRoundTrip(QuarterStreamId(sent), ctx + packet);
    assert d[|id|..] == ctx + packet;
    VarintRoundTrip(CONNECT_IP_CONTEXT_ID, packet);
    assert d[|id| + |ctx|..] == packet;
  }

  predicate LooksLikeIpPacket(data: seq<byte>) {
    |data| >= 20 && (data[0] / 16 == 4 || data[0] / 16 == 6)
  }

  /** The packet in a payload that may or may not carry a context id. */
  function StripDatagramContext(payload: seq<byte>): Option<Packet> {
    var ctx := DecodeVarint(payload);
    if ctx.Some? && ctx.value.0 == CONNECT_IP_CONTEXT_ID && LooksLikeIpPacket(payload[ctx.value.1..]) then
      Some(payload[ctx.value.1..])
    else if LooksLikeIpPacket(payload) then Some(payload)
    else None
  }

  /** The only way a bare packet reads as a context id before another packet: its first two bytes are 0x40 0x00. */
  predicate ReadsAsContext(packet: Packet) {
    |packet| >= 2 && packet[0] == 0x40 && packet[1] == 0 && LooksLikeIpPacket(packet[2..])
  }

  lemma BarePacketStartsWithTwoByteVarint(packet: Packet)
    requires LooksLikeIpPacket(packet)
    ensures DecodeVarint(packet) == Some((256 * (packet[0] as int - 0x40) + packet[1] as int, 2))
  {
    var head := packet[..2];
    assert ParseLen(packet[0]) == 2;
    Powers();
    assert head[..1][..0] == [];
    assert BigEndian(head[..1]) == head[0];
    assert BigEndian(head) == 256 * (head[0] as int) + head[1] as int;
    assert 256 * (packet[0] as int - 0x40) + packet[1] as int < 64 * 256;
    MaskTag(256 * (packet[0] as int - 0x40) + packet[1] as int, 1, 256);
  }

  /** A bare packet comes back whole exactly when it does not read as a context id before another packet. */
  lemma BarePacketIff(packet: Packet)
    requires LooksLikeIpPacket(packet)
    ensures StripDatagramContext(packet) == Some(packet) <==> !ReadsAsContext(packet)
  {
    hide DecodeVarint;
    BarePacketStartsWithTwoByteVarint(packet);
  }

  /** A header length of zero words makes a packet read as context id 0 before another: its first two bytes are lost. */
  lemma BarePacketLosesTwoBytes(inner: Packet)
    requires LooksLikeIpPacket(inner)
    ensures LooksLikeIpPacket([0x40, 0x00] + inner) && ReadsAsContext([0x40, 0x00] + inner)
    ensures StripDatagramContext([0x40, 0x00] + inner) == Some(inner)
  {
    var packet := [0x40, 0x00] + inner;
    BarePacketStartsWithTwoByteVarint(packet);
    assert packet[2..] == inner;
  }

  /** Behind context id 0, in any of its encodings, a packet always comes back whole. */
  lemma FramedPacket(context: seq<byte>, packet: Packet)
    requires LooksLikeIpPacket(packet)
    requires DecodeVarint(context) == Some((CONNECT_IP_CONTEXT_ID, |context|))
    ensures StripDatagramContext(context + packet) == Some(packet)
  {
    hide DecodeVarint;
    VarintPrefix(context, packet);
    assert (context + packet)[|context|..] == packet;
  }

  /** IPv6, or IPv4 whose header length is at least the minimum of five words (section 3.1 of RFC 791). */
  predicate ValidIpPacket(packet: Packet) {
    LooksLikeIpPacket(packet) && (packet[0] / 16 == 6 || packet[0] % 16 >= 5)
  }

  /** A valid packet reads the same bare and behind a context id. */
  lemma ContextDisambiguation(packet: Packet)
    requires ValidIpPacket(packet)
    ensures StripDatagramContext(packet) == Some(packet)
    ensures StripDatagramContext([0] + packet) == Some(packet)
  {
    BarePacketIff(packet);
    VarintRoundTrip(0, []);
    assert ToBigEndian(0, 1) == [0] && EncodeVarint(0) == [0];
    assert EncodeVarint(0) + [] == [0];
    FramedPacket([0], packet);
  }
}
