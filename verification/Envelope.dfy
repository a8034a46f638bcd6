/** internal/voicechat: the clear envelope of a voice datagram, and UUID text
    (section 4 of RFC 9562). */
module Envelope {
  import opened GoText
  import opened VarInt

  const MAGIC: byte := 0xff
  const UUID_SIZE := 16

  type UUID = u: seq<byte> | |u| == 16 witness [0, 0, 0, 0, 0, 0, 0, 0, 0, 0, 0, 0, 0, 0, 0, 0]

  datatype ClientPacket = ClientPacket(player: UUID, payload: seq<byte>)

  datatype PacketError = TooShort | InvalidMagic | InvalidLength | TruncatedPacket | TrailingBytes

  datatype Parsed = Accepted(packet: ClientPacket) | Rejected(error: PacketError)

  method ParseClientPacket(packet: seq<byte>) returns (r: Parsed)
    ensures forall player, payload :: r == Accepted(ClientPacket(player, payload)) <==> IsEnvelope(packet, player, payload)
    ensures r.Rejected? && r.error.InvalidMagic? <==> packet != [] && packet[0] != MAGIC
  {
    if |packet| < 1 {
      return Rejected(TooShort);
    }
    if packet[0] != MAGIC {
      return Rejected(InvalidMagic);
    }
    if |packet| < 1 + UUID_SIZE + 1 {
      ShortIsNoEnvelope(packet);
      return Rejected(TooShort);
    }
    var player: UUID := packet[1..17];
    var ok, length, size := VoiceReadVarInt(packet[17..]);
    EnvelopeParts(packet);
    if !ok {
      return Rejected(if Decode(packet[17..]).Truncated? then TruncatedPacket else InvalidLength);
    }
    var offset := 17 + size;
    if |packet| - offset < length {
      return Rejected(TruncatedPacket);
    }
    if |packet| - offset > length {
      return Rejected(TrailingBytes);
    }
    r := Accepted(ClientPacket(player, packet[offset..]));
  }

  /** A datagram is the magic byte, sixteen bytes of player id, a length, and that many bytes. */
  ghost predicate IsEnvelope(packet: seq<byte>, player: UUID, payload: seq<byte>) {
    exists length :: IsLength(length, |payload|) && packet == [MAGIC] + player + length + payload
  }

  /** length is an encoding of n and nothing more. */
  predicate IsLength(length: seq<byte>, n: nat) {
    var d := Decode(length);
    d.Value? && d.value == n && d.size == |length|
  }

  lemma ShortIsNoEnvelope(packet: seq<byte>)
    requires |packet| < 18
    ensures forall player, payload :: !IsEnvelope(packet, player, payload)
  {
    forall player: UUID, payload, length: seq<byte>
      ensures !(IsLength(length, |payload|) && packet == [MAGIC] + player + length + payload)
    {
      assert |[MAGIC] + player + length + payload| == 17 + |length| + |payload|;
    }
  }

  /** The only way to cut a datagram into the parts of an envelope. */
  lemma EnvelopeParts(packet: seq<byte>)
    requires |packet| >= 18 && packet[0] == MAGIC
    ensures forall player, payload :: IsEnvelope(packet, player, payload) <==>
      var d := Decode(packet[17..]);
      && d.Value? && d.value >= 0 && |packet| == 17 + d.size + d.value
      && player == packet[1..17] && payload == packet[17 + d.size..]
  {
    hide Decode, IsEnvelope;
    var d := Decode(packet[17..]);
    forall player: UUID, payload: seq<byte>
      ensures IsEnvelope(packet, player, payload) <==>
        var d := Decode(packet[17..]);
        && d.Value? && d.value >= 0 && |packet| == 17 + d.size + d.value
        && player == packet[1..17] && payload == packet[17 + d.size..]
    {
      if IsEnvelope(packet, player, payload) {
        EnvelopeCuts(packet, player, payload);
      }
      if d.Value? && d.value >= 0 && |packet| == 17 + d.size + d.value
         && player == packet[1..17] && payload == packet[17 + d.size..] {
        CutsEnvelope(packet);
      }
    }
  }

  lemma EnvelopeCuts(packet: seq<byte>, player: UUID, payload: seq<byte>)
    requires |packet| >= 18 && IsEnvelope(packet, player, payload)
    ensures var d := Decode(packet[17..]);
      && d.Value? && d.value >= 0 && |packet| == 17 + d.size + d.value
      && player == packet[1..17] && payload == packet[17 + d.size..]
  {
    hide Decode;
    var length :| IsLength(length, |payload|) && packet == [MAGIC] + player + length + payload;
    assert packet[1..17] == player;
    assert packet[17..] == length + payload;
    DecodeLocal(length, payload);
    assert packet[17 + |length|..] == payload;
  }

  lemma CutsEnvelope(packet: seq<byte>)
    requires |packet| >= 18 && packet[0] == MAGIC
    requires var d := Decode(packet[17..]); d.Value? && d.value >= 0 && |packet| == 17 + d.size + d.value
    ensures IsEnvelope(packet, packet[1..17], packet[17 + Decode(packet[17..]).size..])
  {
    hide Decode;
    var d := Decode(packet[17..]);
    DecodeLocal(packet[17..], []);
    var length := packet[17..][..d.size];
    assert IsLength(length, |packet[17 + d.size..]|);
    assert packet == [MAGIC] + packet[1..17] + length + packet[17 + d.size..];
  }

  function HexDigit(n: int): char
    requires 0 <= n < 16
  {
    if n < 10 then ('0' as int + n) as char else ('a' as int + n - 10) as char
  }

  function HexValue(c: char): Option<int> {
    if '0' <= c <= '9' then Some(c as int - '0' as int)
    else if 'a' <= c <= 'f' then Some(c as int - 'a' as int + 10)
    else if 'A' <= c <= 'F' then Some(c as int - 'A' as int + 10)
    else None
  }

  /** hex.Encode. */
  function Hex(bytes: seq<byte>): (s: string)
    ensures |s| == 2 * |bytes|
  {
    if bytes == [] then "" else [HexDigit(bytes[0] / 16), HexDigit(bytes[0] % 16)] + Hex(bytes[1..])
  }

  /** hex.DecodeString. */
  function Unhex(s: string): Option<seq<byte>> {
    if s == "" then Some([])
    else if |s| == 1 then None
    else
      var hi, lo, rest := HexValue(s[0]), HexValue(s[1]), Unhex(s[2..]);
      if hi.None? || lo.None? || rest.None? then None else Some([16 * hi.value + lo.value] + rest.value)
  }

  lemma {:induction false} UnhexHex(bytes: seq<byte>)
    ensures Unhex(Hex(bytes)) == Some(bytes)
  {
    if bytes != [] {
      UnhexHex(bytes[1..]);
      assert Hex(bytes)[2..] == Hex(bytes[1..]);
      assert bytes == [bytes[0]] + bytes[1..];
    }
  }

  lemma {:induction false} HexConcat(a: seq<byte>, b: seq<byte>)
    ensures Hex(a + b) == Hex(a) + Hex(b)
  {
    if a == [] {
      assert a + b == b;
    } else {
      HexConcat(a[1..], b);
      assert (a + b)[1..] == a[1..] + b;
    }
  }

  lemma {:induction false} HexHasNoDash(bytes: seq<byte>)
    ensures '-' !in Hex(bytes)
  {
    if bytes != [] {
      HexHasNoDash(bytes[1..]);
    }
  }

  /** UUID.String: groups of 4, 2, 2, 2 and 6 bytes. */
  function UuidText(u: UUID): string {
    Hex(u[..4]) + "-" + Hex(u[4..6]) + "-" + Hex(u[6..8]) + "-" + Hex(u[8..10]) + "-" + Hex(u[10..])
  }

  /** strings.ReplaceAll(s, "-", ""). */
  function Undashed(s: string): string {
    if s == "" then "" else (if s[0] == '-' then "" else [s[0]]) + Undashed(s[1..])
  }

  function ParseUUID(s: string): Option<seq<byte>> {
    if |Undashed(s)| != 2 * UUID_SIZE then None else Unhex(Undashed(s))
  }

  /** The bytes a hex text stands for, digit pair by digit pair. */
  predicate Spells(text: string, bytes: seq<byte>) {
    && |text| == 2 * |bytes|
    && forall i :: 0 <= i < |bytes| ==> Digit(text[2 * i], bytes[i] / 16) && Digit(text[2 * i + 1], bytes[i] % 16)
  }

  predicate Digit(c: char, n: int) {
    0 <= n < 16 && (c == "0123456789abcdef"[n] || c == "0123456789ABCDEF"[n])
  }

  lemma DigitIff(c: char, n: int)
    ensures Digit(c, n) <==> HexValue(c) == Some(n)
  {
  }

  lemma {:induction false} UnhexIff(text: string, bytes: seq<byte>)
    ensures Unhex(text) == Some(bytes) <==> Spells(text, bytes)
  {
    if |text| >= 2 && bytes != [] {
      hide Spells, Digit, HexValue, Unhex;
      UnhexIff(text[2..], bytes[1..]);
      SpellsRest(text, bytes);
      DigitIff(text[0], bytes[0] / 16);
      DigitIff(text[1], bytes[0] % 16);
      UnhexRest(text, bytes);
    }
  }

  lemma UnhexRest(text: string, bytes: seq<byte>)
    requires |text| >= 2 && bytes != []
    ensures Unhex(text) == Some(bytes) <==>
      && HexValue(text[0]) == Some(bytes[0] / 16) && HexValue(text[1]) == Some(bytes[0] % 16)
      && Unhex(text[2..]) == Some(bytes[1..])
  {
    HexRange(text[0]);
    HexRange(text[1]);
    hide HexValue;
    assert bytes == [bytes[0]] + bytes[1..];
  }

  lemma HexRange(c: char)
    ensures HexValue(c).Some? ==> 0 <= HexValue(c).value < 16
  {
  }

  lemma SpellsRest(text: string, bytes: seq<byte>)
    requires |text| >= 2 && bytes != []
    ensures Spells(text, bytes)
      <==> Digit(text[0], bytes[0] / 16) && Digit(text[1], bytes[0] % 16) && Spells(text[2..], bytes[1..])
  {
    hide Digit;
    if Spells(text, bytes) {
      forall i | 0 <= i < |bytes| - 1
        ensures Digit(text[2..][2 * i], bytes[1..][i] / 16) && Digit(text[2..][2 * i + 1], bytes[1..][i] % 16)
      {
        assert Digit(text[2 * (i + 1)], bytes[i + 1] / 16) && Digit(text[2 * (i + 1) + 1], bytes[i + 1] % 16);
      }
    }
    if Digit(text[0], bytes[0] / 16) && Digit(text[1], bytes[0] % 16) && Spells(text[2..], bytes[1..]) {
      forall i | 0 <= i < |bytes| ensures Digit(text[2 * i], bytes[i] / 16) && Digit(text[2 * i + 1], bytes[i] % 16) {
        if i > 0 {
          assert Digit(text[2..][2 * (i - 1)], bytes[1..][i - 1] / 16) && Digit(text[2..][2 * (i - 1) + 1], bytes[1..][i - 1] % 16);
        }
      }
    }
  }

  /** A text parses exactly to the sixteen bytes that its digits, dashes aside, spell in either case. */
  lemma ParseIff(s: string, bytes: seq<byte>)
    ensures ParseUUID(s) == Some(bytes) <==> |bytes| == 16 && Spells(Undashed(s), bytes)
  {
    UnhexIff(Undashed(s), bytes);
    hide Unhex, Undashed;
  }

  /** The text of a UUID has no upper-case digit. */
  lemma {:induction false} HexIsLower(bytes: seq<byte>)
    ensures forall i :: 0 <= i < |Hex(bytes)| ==> Hex(bytes)[i] in "0123456789abcdef"
  {
    if bytes != [] {
      HexIsLower(bytes[1..]);
      LowerDigit(bytes[0] / 16);
      LowerDigit(bytes[0] % 16);
    }
  }

  lemma LowerDigit(n: int)
    requires 0 <= n < 16
    ensures HexDigit(n) == "0123456789abcdef"[n]
  {
  }

  lemma {:induction false} UndashedConcat(a: string, b: string)
    ensures Undashed(a + b) == Undashed(a) + Undashed(b)
  {
    if a == "" {
      EmptyFront(b);
    } else {
      UndashedStep(a);
      UndashedStep(a + b);
      hide *;
      assert (a + b)[0] == a[0];
      assert (a + b)[1..] == a[1..] + b;
      UndashedConcat(a[1..], b);
      Regroup(a[0], Undashed(a[1..]), Undashed(b));
    }
  }

  lemma EmptyFront(b: string)
    ensures Undashed("" + b) == Undashed("") + Undashed(b)
  {
    assert "" + b == b;
    assert Undashed("") == "";
    hide Undashed;
    assert "" + Undashed(b) == Undashed(b);
  }

  lemma Regroup(c: char, a: string, b: string)
    ensures [c] + (a + b) == [c] + a + b
  {
  }

  lemma UndashedStep(s: string)
    requires s != ""
    ensures Undashed(s) == if s[0] == '-' then Undashed(s[1..]) else [s[0]] + Undashed(s[1..])
  {
  }

  lemma {:induction false} UndashedPlain(s: string)
    requires '-' !in s
    ensures Undashed(s) == s
  {
    if s != "" {
      UndashedPlain(s[1..]);
    }
  }

  /** Taking the dashes out of a piece of hex followed by a dash. */
  lemma Piece(bytes: seq<byte>, rest: string)
    ensures Undashed(Hex(bytes) + "-" + rest) == Hex(bytes) + Undashed(rest)
  {
    UndashedStep("-" + rest);
    hide *;
    HexHasNoDash(bytes);
    UndashedPlain(Hex(bytes));
    assert Hex(bytes) + "-" + rest == Hex(bytes) + ("-" + rest);
    UndashedConcat(Hex(bytes), "-" + rest);
    assert ("-" + rest)[1..] == rest;
  }

  lemma UndashedText(u: UUID)
    ensures Undashed(UuidText(u)) == Hex(u)
  {
    hide Undashed, Hex;
    var e := Hex(u[10..]);
    var d := Hex(u[8..10]) + "-" + e;
    var c := Hex(u[6..8]) + "-" + d;
    var b := Hex(u[4..6]) + "-" + c;
    assert UuidText(u) == Hex(u[..4]) + "-" + b;
    HexHasNoDash(u[10..]);
    UndashedPlain(e);
    Piece(u[8..10], e);
    Piece(u[6..8], d);
    Piece(u[4..6], c);
    Piece(u[..4], b);
    HexConcat(u[8..10], u[10..]);
    HexConcat(u[6..8], u[8..10] + u[10..]);
    HexConcat(u[4..6], u[6..8] + (u[8..10] + u[10..]));
    HexConcat(u[..4], u[4..6] + (u[6..8] + (u[8..10] + u[10..])));
    assert u == u[..4] + (u[4..6] + (u[6..8] + (u[8..10] + u[10..])));
  }

  /** Parsing the text of a UUID gives the UUID back. */
  lemma UuidRoundTrip(u: UUID)
    ensures ParseUUID(UuidText(u)) == Some(u)
  {
    UndashedText(u);
    UnhexHex(u);
  }

  /** The control API takes a path segment exactly when it is some UUID's canonical text, and
      then no other UUID has that text. */
  lemma CanonicalPath(s: string)
    ensures (ParseUUID(s).Some? && |ParseUUID(s).value| == 16 && UuidText(ParseUUID(s).value) == s)
            <==> exists u: UUID :: s == UuidText(u)
    ensures forall u: UUID, v: UUID :: UuidText(u) == UuidText(v) ==> u == v
  {
    hide UuidText, ParseUUID;
    forall u: UUID ensures ParseUUID(UuidText(u)) == Some(u) {
      UuidRoundTrip(u);
    }
  }
}
