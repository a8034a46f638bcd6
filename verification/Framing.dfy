/** internal/mcproto: length-prefixed packets and the handshake packet. */
module Framing {
  import opened GoText
  import opened HostAddr
  import opened VarInt

  /** What is read from the front of a stream, and what is left of it. */
  datatype Read<+T> = Done(value: T, rest: seq<byte>) | Failed

  const DEFAULT_MAX_PACKET_LENGTH: int32 := 2048
  const DEFAULT_MAX_ADDRESS_BYTES: int32 := 255

  function Text(bytes: seq<byte>): string {
    seq(|bytes|, i requires 0 <= i < |bytes| => bytes[i] as char)
  }

  function TakeVarInt(s: seq<byte>): (r: Read<int32>)
    ensures r.Done? ==> |r.rest| < |s| && r.rest == s[|s| - |r.rest|..]
  {
    match Decode(s)
    case Value(v, n) => Done(v, s[n..])
    case _ => Failed
  }

  function TakeFull(s: seq<byte>, n: nat): Read<seq<byte>> {
    if n <= |s| then Done(s[..n], s[n..]) else Failed
  }

  lemma TakeWritten(v: int32, rest: seq<byte>)
    ensures TakeVarInt(WriteVarInt(v) + rest) == Done(v, rest)
  {
    RoundTrip(v, rest);
    assert (WriteVarInt(v) + rest)[|WriteVarInt(v)|..] == rest;
  }

  lemma TakeWhole(bytes: seq<byte>, rest: seq<byte>)
    ensures TakeFull(bytes + rest, |bytes|) == Done(bytes, rest)
  {
    assert (bytes + rest)[..|bytes|] == bytes && (bytes + rest)[|bytes|..] == rest;
  }

  function OrDefault(limit: int32, default: int32): int32 {
    if limit <= 0 then default else limit
  }

  /** The body of a length-prefixed packet. */
  function TakeFrame(s: seq<byte>, max: int32): Read<seq<byte>> {
    var length := TakeVarInt(s);
    if length.Failed? || length.value <= 0 || length.value > OrDefault(max, DEFAULT_MAX_PACKET_LENGTH) then Failed
    else TakeFull(length.rest, length.value)
  }

  /** ReadPacket: packet id and fields. */
  function TakePacket(s: seq<byte>, max: int32): Read<(int32, seq<byte>)> {
    var frame := TakeFrame(s, max);
    if frame.Failed? then Failed
    else
      var id := TakeVarInt(frame.value);
      if id.Failed? then Failed else Done((id.value, id.rest), frame.rest)
  }

  function Concat(fields: seq<seq<byte>>): seq<byte> {
    if fields == [] then [] else Concat(fields[..|fields| - 1]) + fields[|fields| - 1]
  }

  function Framed(payload: seq<byte>): seq<byte> {
    WriteVarInt(ToInt32(|payload|)) + payload
  }

  function Packet(id: int32, body: seq<byte>): seq<byte> {
    Framed(WriteVarInt(id) + body)
  }

  /** BuildPacket: the id, then every field in turn, behind their joint length. */
  method BuildPacket(id: int32, fields: seq<seq<byte>>) returns (packet: seq<byte>)
    ensures packet == Packet(id, Concat(fields))
  {
    var payload := EmitVarInt(id);
    for i := 0 to |fields|
      invariant payload == WriteVarInt(id) + Concat(fields[..i])
    {
      assert fields[..i + 1][..i] == fields[..i];
      payload := payload + fields[i];
    }
    assert fields[..|fields|] == fields;
    var length := EmitVarInt(ToInt32(|payload|));
    packet := length + payload;
  }

  /** What a frame reads back as, for every payload: the length is written as 32 bits. */
  lemma FrameRead(payload: seq<byte>, rest: seq<byte>, max: int32)
    ensures var n := ToInt32(|payload|);
            TakeFrame(Framed(payload) + rest, max)
            == if 1 <= n <= OrDefault(max, DEFAULT_MAX_PACKET_LENGTH) then Done(payload[..n], payload[n..] + rest) else Failed
  {
    hide Decode, Encode;
    var n := ToInt32(|payload|);
    assert Framed(payload) + rest == WriteVarInt(n) + (payload + rest);
    TakeWritten(n, payload + rest);
    if 1 <= n {
      assert payload + rest == payload[..n] + (payload[n..] + rest);
      TakeWhole(payload[..n], payload[n..] + rest);
    }
  }

  /** A frame reads back exactly when its length is within the limit, and then the suffix stays.
      Otherwise reading fails, up to lengths that 32 bits cannot tell from short ones. */
  lemma FrameRoundTrip(payload: seq<byte>, rest: seq<byte>, max: int32)
    ensures TakeFrame(Framed(payload) + rest, max) == Done(payload, rest)
            <==> 1 <= |payload| <= OrDefault(max, DEFAULT_MAX_PACKET_LENGTH)
    ensures |payload| < 0x8000_0000 && !(1 <= |payload| <= OrDefault(max, DEFAULT_MAX_PACKET_LENGTH))
            ==> TakeFrame(Framed(payload) + rest, max) == Failed
  {
    hide TakeFrame, Framed;
    FrameRead(payload, rest, max);
    if 1 <= |payload| <= OrDefault(max, DEFAULT_MAX_PACKET_LENGTH) {
      assert payload[..|payload|] == payload && payload[|payload|..] + rest == rest;
    }
  }

  /** ReadPacket inverts BuildPacket exactly within the length limit and leaves what follows the
      packet. Otherwise it fails, up to lengths that 32 bits cannot tell from short ones. */
  lemma PacketRoundTrip(id: int32, body: seq<byte>, rest: seq<byte>, max: int32)
    ensures TakePacket(Packet(id, body) + rest, max) == Done((id, body), rest)
            <==> |WriteVarInt(id)| + |body| <= OrDefault(max, DEFAULT_MAX_PACKET_LENGTH)
    ensures OrDefault(max, DEFAULT_MAX_PACKET_LENGTH) < |WriteVarInt(id)| + |body| < 0x8000_0000
            ==> TakePacket(Packet(id, body) + rest, max) == Failed
  {
    hide Decode, Encode, Framed, TakeFrame;
    RoundTrip(id, []);
    var payload := WriteVarInt(id) + body;
    FrameRoundTrip(payload, rest, max);
    FrameRead(payload, rest, max);
    TakeWritten(id, body);
  }

  datatype Handshake = Handshake(protocolVersion: int32, serverAddress: string, serverPort: int, nextState: int32)

  datatype Limits = Limits(maxPacketLength: int32, maxServerAddressBytes: int32)

  const DEFAULT_LIMITS := Limits(DEFAULT_MAX_PACKET_LENGTH, DEFAULT_MAX_ADDRESS_BYTES)

  const HANDSHAKE_PACKET_ID: int32 := 0
  const NEXT_STATE_STATUS: int32 := 1
  const NEXT_STATE_LOGIN: int32 := 2
  const NEXT_STATE_TRANSFER: int32 := 3

  /** readString: a length, that many bytes, valid UTF-8. */
  function TakeString(p: Platform, s: seq<byte>, max: int32): Read<string> {
    var length := TakeVarInt(s);
    if length.Failed? || length.value < 0 || length.value > max then Failed
    else
      var bytes := TakeFull(length.rest, length.value);
      if bytes.Failed? || !ValidUtf8(p, Text(bytes.value)) then Failed
      else Done(Text(bytes.value), bytes.rest)
  }

  predicate ValidAddress(p: Platform, address: string) {
    TrimSpace(p, address) != "" && Normalize(p, address).Ok?
  }

  /** The part of the payload behind the packet id. */
  function ParseFields(p: Platform, s: seq<byte>, max: int32): Option<Handshake> {
    var version := TakeVarInt(s);
    if version.Failed? then None
    else
      var address := TakeString(p, version.rest, max);
      if address.Failed? || !ValidAddress(p, address.value) then None
      else ParseTail(version.value, address.value, address.rest)
  }

  predicate Supported(state: int32) {
    state == NEXT_STATE_STATUS || state == NEXT_STATE_LOGIN || state == NEXT_STATE_TRANSFER
  }

  function ParseTail(version: int32, address: string, s: seq<byte>): Option<Handshake> {
    var port := TakeFull(s, 2);
    if port.Failed? then None
    else
      var next := TakeVarInt(port.rest);
      if next.Failed? || !Supported(next.value) || next.rest != [] then None
      else Some(Handshake(version, address, port.value[0] as int * 256 + port.value[1] as int, next.value))
  }

  function ParseHandshakePayload(p: Platform, payload: seq<byte>, maxAddressBytes: int32): Option<Handshake> {
    var id := TakeVarInt(payload);
    if id.Failed? || id.value != HANDSHAKE_PACKET_ID then None
    else ParseFields(p, id.rest, OrDefault(maxAddressBytes, DEFAULT_MAX_ADDRESS_BYTES))
  }

  /** ReadHandshake: the handshake and the raw bytes it was read from. */
  function TakeHandshake(p: Platform, s: seq<byte>, limits: Limits): Read<(Handshake, seq<byte>)> {
    var frame := TakeFrame(s, limits.maxPacketLength);
    if frame.Failed? then Failed
    else match ParseHandshakePayload(p, frame.value, limits.maxServerAddressBytes)
      case None => Failed
      case Some(h) => Done((h, s[..|s| - |frame.rest|]), frame.rest)
  }

  /** The reader-driven form. On success the returned raw bytes are exactly the consumed ones. */
  method ReadHandshake(p: Platform, r: Reader, limits: Limits) returns (handshake: Option<Handshake>, raw: seq<byte>)
    modifies r
    ensures handshake.Some? <==> TakeHandshake(p, old(r.rest), limits).Done?
    ensures handshake.Some? ==> TakeHandshake(p, old(r.rest), limits) == Done((handshake.value, raw), r.rest)
    ensures handshake.Some? ==> raw + r.rest == old(r.rest)
  {
    hide ParseHandshakePayload, Decode;
    ghost var all := r.rest;
    var length, lengthRaw := r.ReadVarInt();
    if !length.Value? {
      return None, lengthRaw;
    }
    if length.value <= 0 || length.value > OrDefault(limits.maxPacketLength, DEFAULT_MAX_PACKET_LENGTH) {
      return None, lengthRaw;
    }
    assert all[|lengthRaw|..] == r.rest;
    var ok, payload := r.ReadFull(length.value);
    raw := lengthRaw + payload;
    if !ok {
      return None, raw;
    }
    handshake := ParseHandshakePayload(p, payload, limits.maxServerAddressBytes);
    assert all == raw + r.rest;
    assert all[..|all| - |r.rest|] == raw;
  }

  lemma FrameConsumes(s: seq<byte>, max: int32)
    requires TakeFrame(s, max).Done?
    ensures |TakeFrame(s, max).rest| <= |s|
    ensures s[..|s| - |TakeFrame(s, max).rest|] + TakeFrame(s, max).rest == s
  {
    hide Decode;
    var length := TakeVarInt(s);
    var n := |s| - |length.rest|;
    assert length.rest == s[n..];
    assert s[n..][length.value..] == s[n + length.value..];
  }

  /** Whatever was read, raw bytes and unread rest together are the client's stream unchanged. */
  lemma HandshakeTransparent(p: Platform, s: seq<byte>, limits: Limits)
    requires TakeHandshake(p, s, limits).Done?
    ensures var r := TakeHandshake(p, s, limits);
            r.value.1 + r.rest == s && r.value.1 != []
  {
    hide ParseHandshakePayload, TakeFrame;
    FrameConsumes(s, limits.maxPacketLength);
    FrameNotEmpty(s, limits.maxPacketLength);
  }

  lemma FrameNotEmpty(s: seq<byte>, max: int32)
    requires TakeFrame(s, max).Done?
    ensures |TakeFrame(s, max).rest| < |s|
  {
  }

  /** A parsed handshake has an address that normalises. */
  lemma ParsedAddress(p: Platform, payload: seq<byte>, max: int32)
    requires ParseHandshakePayload(p, payload, max).Some?
    ensures Normalize(p, ParseHandshakePayload(p, payload, max).value.serverAddress).Ok?
  {
    hide Normalize, Decode, TakeString;
  }

  function EncodeString(bytes: seq<byte>): seq<byte> {
    WriteVarInt(ToInt32(|bytes|)) + bytes
  }

  const STATUS_PROTOCOL_VERSION: int32 := 767

  /** The two bytes of a port, most significant first. */
  function PortBytes(port: int): seq<byte>
    requires 0 <= port < 0x1_0000
  {
    [port / 256, port % 256]
  }

  /** The handshake packet a probe sends: its payload is built with the packet id in front,
      which BuildPacket then replaces by its own. */
  function ProbeHandshake(address: seq<byte>, port: int): seq<byte>
    requires 0 <= port < 0x1_0000
  {
    var payload := WriteVarInt(HANDSHAKE_PACKET_ID) + WriteVarInt(STATUS_PROTOCOL_VERSION) + EncodeString(address)
                   + PortBytes(port) + WriteVarInt(NEXT_STATE_STATUS);
    Packet(HANDSHAKE_PACKET_ID, payload[1..])
  }

  /** The addresses a gateway accepts in a handshake under the default limits. */
  predicate Acceptable(p: Platform, address: seq<byte>) {
    && |address| <= 255
    && ValidUtf8(p, Text(address))
    && ValidAddress(p, Text(address))
  }

  /** What a handshake packet holds behind its id. */
  function Fields(h: Handshake, address: seq<byte>): seq<byte>
    requires 0 <= h.serverPort < 0x1_0000
  {
    WriteVarInt(h.protocolVersion) + (EncodeString(address) + (PortBytes(h.serverPort) + WriteVarInt(h.nextState)))
  }

  lemma TailRoundTrip(h: Handshake)
    requires 0 <= h.serverPort < 0x1_0000
    ensures ParseTail(h.protocolVersion, h.serverAddress, PortBytes(h.serverPort) + WriteVarInt(h.nextState))
            == if Supported(h.nextState) then Some(h) else None
  {
    hide Decode, Encode;
    TakeWhole(PortBytes(h.serverPort), WriteVarInt(h.nextState));
    assert WriteVarInt(h.nextState) + [] == WriteVarInt(h.nextState);
    TakeWritten(h.nextState, []);
  }

  lemma StringRoundTrip(p: Platform, address: seq<byte>, rest: seq<byte>)
    requires |address| < 0x8000_0000
    ensures TakeString(p, EncodeString(address) + rest, DEFAULT_MAX_ADDRESS_BYTES)
            == if |address| <= 255 && ValidUtf8(p, Text(address)) then Done(Text(address), rest) else Failed
  {
    hide Decode, Encode, Text;
    assert ToInt32(|address|) == |address|;
    assert EncodeString(address) + rest == WriteVarInt(|address|) + (address + rest);
    TakeWritten(|address|, address + rest);
    TakeWhole(address, rest);
  }

  lemma PayloadRoundTrip(p: Platform, h: Handshake, address: seq<byte>)
    requires 0 <= h.serverPort < 0x1_0000 && |address| < 0x7fff_0000 && h.serverAddress == Text(address)
    ensures ParseHandshakePayload(p, WriteVarInt(HANDSHAKE_PACKET_ID) + Fields(h, address), DEFAULT_MAX_ADDRESS_BYTES)
            == if Acceptable(p, address) && Supported(h.nextState) then Some(h) else None
  {
    hide Decode, Encode, Text, EncodeString, ParseTail, Normalize, TakeString, TakeVarInt, WriteVarInt;
    var tail := PortBytes(h.serverPort) + WriteVarInt(h.nextState);
    TakeWritten(HANDSHAKE_PACKET_ID, Fields(h, address));
    TakeWritten(h.protocolVersion, EncodeString(address) + tail);
    StringRoundTrip(p, address, tail);
    TailRoundTrip(h);
  }

  lemma FieldsLength(h: Handshake, address: seq<byte>)
    requires 0 <= h.serverPort < 0x1_0000
    ensures |address| + 2 <= |WriteVarInt(HANDSHAKE_PACKET_ID) + Fields(h, address)| <= |address| + 22
  {
    RoundTrip(HANDSHAKE_PACKET_ID, []);
    RoundTrip(h.protocolVersion, []);
    RoundTrip(ToInt32(|address|), []);
    RoundTrip(h.nextState, []);
    hide Encode, WriteVarInt;
  }

  /** Every handshake packet is read back as it was written, for exactly the acceptable addresses
      and supported next states; whatever follows is left alone. Otherwise it is rejected, up to
      lengths that 32 bits cannot tell from short ones. */
  lemma HandshakeRoundTrip(p: Platform, h: Handshake, address: seq<byte>, rest: seq<byte>)
    requires 0 <= h.serverPort < 0x1_0000 && h.serverAddress == Text(address)
    ensures var packet := Packet(HANDSHAKE_PACKET_ID, Fields(h, address));
            TakeHandshake(p, packet + rest, DEFAULT_LIMITS) == Done((h, packet), rest)
            <==> Acceptable(p, address) && Supported(h.nextState)
    ensures |address| < 0x7fff_0000 && !(Acceptable(p, address) && Supported(h.nextState)) ==>
            TakeHandshake(p, Packet(HANDSHAKE_PACKET_ID, Fields(h, address)) + rest, DEFAULT_LIMITS) == Failed
  {
    hide Decode, Encode, Text, Framed, ParseHandshakePayload, TakeFrame, Fields, Acceptable;
    var packet := Packet(HANDSHAKE_PACKET_ID, Fields(h, address));
    var payload := WriteVarInt(HANDSHAKE_PACKET_ID) + Fields(h, address);
    FieldsLength(h, address);
    FrameRoundTrip(payload, rest, DEFAULT_MAX_PACKET_LENGTH);
    FrameRead(payload, rest, DEFAULT_MAX_PACKET_LENGTH);
    AcceptableShort(p, address);
    if |address| < 0x7fff_0000 {
      PayloadRoundTrip(p, h, address);
      assert (packet + rest)[..|packet|] == packet;
    }
  }

  lemma AcceptableShort(p: Platform, address: seq<byte>)
    ensures Acceptable(p, address) ==> |address| <= 255
  {
  }

  /** The bytes a probe sends are read back as its version, address, port and the STATUS state,
      for exactly the addresses that are acceptable. */
  lemma ProbeParses(p: Platform, address: seq<byte>, port: int, rest: seq<byte>)
    requires 0 <= port < 0x1_0000
    ensures var h := Handshake(767, Text(address), port, 1);
            TakeHandshake(p, ProbeHandshake(address, port) + rest, DEFAULT_LIMITS) == Done((h, ProbeHandshake(address, port)), rest)
            <==> Acceptable(p, address)
    ensures |address| < 0x7fff_0000 && !Acceptable(p, address) ==>
            TakeHandshake(p, ProbeHandshake(address, port) + rest, DEFAULT_LIMITS) == Failed
  {
    hide TakeHandshake, Acceptable, Text, Packet, Fields;
    var h := Handshake(STATUS_PROTOCOL_VERSION, Text(address), port, NEXT_STATE_STATUS);
    ProbeShape(address, port);
    HandshakeRoundTrip(p, h, address, rest);
  }

  lemma ProbeShape(address: seq<byte>, port: int)
    requires 0 <= port < 0x1_0000
    ensures ProbeHandshake(address, port)
            == Packet(HANDSHAKE_PACKET_ID, Fields(Handshake(STATUS_PROTOCOL_VERSION, Text(address), port, NEXT_STATE_STATUS), address))
  {
    EncodeShort(HANDSHAKE_PACKET_ID);
    hide Encode, Packet, Text;
    var h := Handshake(STATUS_PROTOCOL_VERSION, Text(address), port, NEXT_STATE_STATUS);
    var payload := WriteVarInt(HANDSHAKE_PACKET_ID) + WriteVarInt(STATUS_PROTOCOL_VERSION) + EncodeString(address)
                   + PortBytes(port) + WriteVarInt(NEXT_STATE_STATUS);
    assert payload == [0] + Fields(h, address);
    assert payload[1..] == Fields(h, address);
  }
}
