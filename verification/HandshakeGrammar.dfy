/** internal/mcproto: which byte strings are handshakes, told by their pieces instead of by a reader. */
module HandshakeGrammar {
  import opened GoText
  import opened HostAddr
  import opened VarInt
  import opened Framing

  /** The bytes are one VarInt, of value v, and nothing more. */
  predicate IsVarInt(bytes: seq<byte>, v: int) {
    var d := Decode(bytes);
    d.Value? && d.value == v && d.size == |bytes|
  }

  lemma VarIntIff(bytes: seq<byte>, rest: seq<byte>, v: int32)
    ensures TakeVarInt(bytes + rest) == Done(v, rest) <==> IsVarInt(bytes, v)
  {
    var s := bytes + rest;
    if IsVarInt(bytes, v) {
      DecodeLocal(bytes, rest);
      hide Decode;
      assert s[|bytes|..] == rest;
    }
    if TakeVarInt(s) == Done(v, rest) {
      DecodeLocal(s, []);
      hide Decode;
      assert Decode(s).size == |bytes|;
      assert s[..|bytes|] == bytes;
    }
  }

  lemma VarIntTaken(s: seq<byte>) returns (bytes: seq<byte>)
    requires TakeVarInt(s).Done?
    ensures s == bytes + TakeVarInt(s).rest && IsVarInt(bytes, TakeVarInt(s).value)
  {
    var r := TakeVarInt(s);
    bytes := s[..|s| - |r.rest|];
    hide Decode;
    assert s == bytes + r.rest;
    VarIntIff(bytes, r.rest, r.value);
  }

  /** What a limit of zero or less stands for. */
  function Limit(limit: int, otherwise: int): int {
    if limit > 0 then limit else otherwise
  }

  /** A length and a payload of that many bytes, at least one and at most max. */
  predicate IsFrame(length: seq<byte>, payload: seq<byte>, max: int) {
    IsVarInt(length, |payload|) && 1 <= |payload| <= max
  }

  /** A frame is read exactly where one stands. */
  lemma FrameExact(s: seq<byte>, max: int32, payload: seq<byte>, rest: seq<byte>)
    ensures TakeFrame(s, max) == Done(payload, rest)
      <==> exists length :: s == length + payload + rest && IsFrame(length, payload, Limit(max, 2048))
  {
    hide Decode, TakeVarInt, IsVarInt;
    if TakeFrame(s, max) == Done(payload, rest) {
      var length := VarIntTaken(s);
      assert TakeVarInt(s).rest == payload + rest;
      assert s == length + payload + rest;
    }
    if length :| s == length + payload + rest && IsFrame(length, payload, Limit(max, 2048)) {
      assert s == length + (payload + rest);
      VarIntIff(length, payload + rest, |payload|);
      TakeWhole(payload, rest);
    }
  }

  datatype Pieces = Pieces(
    id: seq<byte>, version: seq<byte>, length: seq<byte>, address: seq<byte>, port: seq<byte>, next: seq<byte>)

  function TailBytes(x: Pieces): seq<byte> { x.port + x.next }

  function TextBytes(x: Pieces): seq<byte> { x.length + (x.address + TailBytes(x)) }

  function PayloadBytes(x: Pieces): seq<byte> { x.id + (x.version + TextBytes(x)) }

  predicate IsTail(x: Pieces, h: Handshake) {
    && |x.port| == 2 && h.serverPort == x.port[0] as int * 256 + x.port[1] as int
    && IsVarInt(x.next, h.nextState) && 1 <= h.nextState <= 3
  }

  predicate IsText(p: Platform, x: Pieces, max: int, text: string) {
    && IsVarInt(x.length, |x.address|) && |x.address| <= max
    && Text(x.address) == text && ValidUtf8(p, text)
  }

  /** Packet id zero, the version, an address that names a host, the port, a next state, and no more. */
  predicate IsPayload(p: Platform, x: Pieces, max: int, h: Handshake) {
    && IsVarInt(x.id, 0) && IsVarInt(x.version, h.protocolVersion)
    && IsText(p, x, max, h.serverAddress)
    && TrimSpace(p, h.serverAddress) != "" && Normalize(p, h.serverAddress).Ok?
    && IsTail(x, h)
  }

  lemma TailWritten(x: Pieces, h: Handshake)
    requires IsTail(x, h)
    ensures ParseTail(h.protocolVersion, h.serverAddress, TailBytes(x)) == Some(h)
  {
    hide Decode, IsVarInt, TakeVarInt;
    TakeWhole(x.port, x.next);
    assert x.next + [] == x.next;
    VarIntIff(x.next, [], h.nextState);
  }

  lemma TailRead(version: int32, address: string, s: seq<byte>) returns (port: seq<byte>, next: seq<byte>)
    requires ParseTail(version, address, s).Some?
    ensures s == port + next && |port| == 2
    ensures var h := ParseTail(version, address, s).value;
      && h.protocolVersion == version && h.serverAddress == address
      && h.serverPort == port[0] as int * 256 + port[1] as int
      && IsVarInt(next, h.nextState) && 1 <= h.nextState <= 3
  {
    hide Decode, IsVarInt, TakeVarInt;
    port, next := s[..2], s[2..];
    assert s == port + next;
    assert next + [] == next;
    VarIntIff(next, [], TakeVarInt(next).value);
  }

  lemma TextWritten(p: Platform, x: Pieces, max: int32, text: string)
    requires IsText(p, x, max, text)
    ensures TakeString(p, TextBytes(x), max) == Done(text, TailBytes(x))
  {
    hide Decode, IsVarInt, TakeVarInt, Text;
    VarIntIff(x.length, x.address + TailBytes(x), |x.address|);
    TakeWhole(x.address, TailBytes(x));
  }

  lemma TextRead(p: Platform, s: seq<byte>, max: int32) returns (length: seq<byte>, address: seq<byte>)
    requires TakeString(p, s, max).Done?
    ensures var r := TakeString(p, s, max);
      && s == length + (address + r.rest)
      && IsVarInt(length, |address|) && |address| <= max && Text(address) == r.value && ValidUtf8(p, r.value)
  {
    hide Decode, IsVarInt, Text;
    length := VarIntTaken(s);
    hide TakeVarInt;
    var r := TakeVarInt(s);
    address := r.rest[..r.value];
    assert r.rest == address + r.rest[r.value..];
  }

  lemma PayloadWritten(p: Platform, x: Pieces, max: int32, h: Handshake)
    requires IsPayload(p, x, Limit(max, 255), h)
    ensures ParseHandshakePayload(p, PayloadBytes(x), max) == Some(h)
  {
    hide Decode, IsVarInt, TakeVarInt, TakeString, ParseTail, IsTail, IsText, Normalize, TextBytes, TailBytes;
    VarIntIff(x.id, x.version + TextBytes(x), 0);
    VarIntIff(x.version, TextBytes(x), h.protocolVersion);
    TextWritten(p, x, OrDefault(max, DEFAULT_MAX_ADDRESS_BYTES), h.serverAddress);
    TailWritten(x, h);
  }

  lemma PayloadRead(p: Platform, payload: seq<byte>, max: int32) returns (x: Pieces)
    requires ParseHandshakePayload(p, payload, max).Some?
    ensures payload == PayloadBytes(x) && IsPayload(p, x, Limit(max, 255), ParseHandshakePayload(p, payload, max).value)
  {
    hide Decode, IsVarInt, TakeVarInt, TakeString, ParseTail, Normalize;
    var limit := OrDefault(max, DEFAULT_MAX_ADDRESS_BYTES);
    var id := VarIntTaken(payload);
    var fields := TakeVarInt(payload).rest;
    var version := VarIntTaken(fields);
    var text := TakeVarInt(fields).rest;
    var length, address := TextRead(p, text, limit);
    var taken := TakeString(p, text, limit);
    var port, next := TailRead(TakeVarInt(fields).value, taken.value, taken.rest);
    x := Pieces(id, version, length, address, port, next);
  }

  /** The parser accepts exactly the payloads put together from such pieces, with their values. */
  lemma PayloadExact(p: Platform, payload: seq<byte>, max: int32, h: Handshake)
    ensures ParseHandshakePayload(p, payload, max) == Some(h)
      <==> exists x :: payload == PayloadBytes(x) && IsPayload(p, x, Limit(max, 255), h)
  {
    hide ParseHandshakePayload, IsPayload, PayloadBytes;
    if ParseHandshakePayload(p, payload, max) == Some(h) {
      var x := PayloadRead(p, payload, max);
    }
    if x :| payload == PayloadBytes(x) && IsPayload(p, x, Limit(max, 255), h) {
      PayloadWritten(p, x, max, h);
    }
  }

  /** The bytes are one framed handshake. */
  ghost predicate IsHandshake(p: Platform, raw: seq<byte>, limits: Limits, h: Handshake) {
    exists length, x ::
      && raw == length + PayloadBytes(x) && IsFrame(length, PayloadBytes(x), Limit(limits.maxPacketLength, 2048))
      && IsPayload(p, x, Limit(limits.maxServerAddressBytes, 255), h)
  }

  /** ReadHandshake succeeds exactly on a stream that starts with a framed handshake. */
  lemma HandshakeExact(p: Platform, s: seq<byte>, limits: Limits, h: Handshake, raw: seq<byte>, rest: seq<byte>)
    ensures TakeHandshake(p, s, limits) == Done((h, raw), rest) <==> s == raw + rest && IsHandshake(p, raw, limits, h)
  {
    var max, maxText := limits.maxPacketLength, limits.maxServerAddressBytes;
    hide ParseHandshakePayload, TakeFrame, IsFrame, IsPayload, PayloadBytes;
    if TakeHandshake(p, s, limits) == Done((h, raw), rest) {
      var payload := TakeFrame(s, max).value;
      FrameExact(s, max, payload, rest);
      var length :| s == length + payload + rest && IsFrame(length, payload, Limit(max, 2048));
      var x := PayloadRead(p, payload, maxText);
      assert s[..|s| - |rest|] == length + payload;
    }
    if length, x :| s == raw + rest && raw == length + PayloadBytes(x) && IsFrame(length, PayloadBytes(x), Limit(max, 2048))
                    && IsPayload(p, x, Limit(maxText, 255), h) {
      FrameExact(s, max, PayloadBytes(x), rest);
      assert s == length + PayloadBytes(x) + rest;
      PayloadWritten(p, x, maxText, h);
      assert s[..|s| - |rest|] == raw;
    }
  }
}
