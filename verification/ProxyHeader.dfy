/** internal/proxyprotocol: the PROXY header in front of a connection from a trusted proxy
    (sections 2.1 and 2.2 of the HAProxy PROXY protocol specification). */
module ProxyHeader {
  import opened GoText
  import opened NetAddr
  import opened VarInt
  import opened Framing

  const MAX_V1 := 108
  const MAX_V2 := 512
  const CR: byte := 13
  const LF: byte := 10
  const LETTER_P: byte := 80
  const V2_SIGNATURE: seq<byte> := [13, 10, 13, 10, 0, 13, 10, 81, 85, 73, 84, 10]

  /** netip.ParseAddr. */
  type AddrParser = string -> Option<Addr>

  predicate EndsLine(s: seq<byte>, n: nat)
    requires n <= |s|
  {
    n >= 2 && s[n - 2] == CR && s[n - 1] == LF
  }

  /** Length of the first line of s, looking from length n on, up to the version 1 limit. */
  function LineFrom(s: seq<byte>, n: nat): (r: Option<nat>)
    requires 1 <= n <= |s|
    ensures r.Some? ==> n <= r.value <= |s| && EndsLine(s, r.value)
    decreases |s| - n
  {
    if EndsLine(s, n) then Some(n)
    else if n >= MAX_V1 || n == |s| then None
    else LineFrom(s, n + 1)
  }

  /** The source address of a version 1 line, without its line end. */
  function V1Source(parse: AddrParser, line: string): Option<Addr> {
    var fields := Split(line, ' ');
    if |fields| != 6 || fields[0] != "PROXY" || (fields[1] != "TCP4" && fields[1] != "TCP6") then None
    else
      var addr := parse(fields[2]);
      if addr.None? || (fields[1] == "TCP4" && !addr.value.V4?) || (fields[1] == "TCP6" && !addr.value.V6?) then None
      else Some(Unmap(addr.value))
  }

  function TakeV1(parse: AddrParser, s: seq<byte>): Read<Addr>
    requires s != []
  {
    var n := LineFrom(s, 1);
    if n.None? then Failed
    else match V1Source(parse, Text(s[..n.value - 2]))
      case None => Failed
      case Some(addr) => Done(addr, s[n.value..])
  }

  function BigEndian(bytes: seq<byte>): nat {
    if bytes == [] then 0 else 256 * BigEndian(bytes[..|bytes| - 1]) + bytes[|bytes| - 1]
  }

  /** The source address of a version 2 header with the given family byte and payload. */
  function V2Source(family: byte, payload: seq<byte>): Option<Addr> {
    if family == 0x11 && |payload| >= 12 then Some(V4(BigEndian(payload[..4])))
    else if family == 0x21 && |payload| >= 36 then Some(V6(BigEndian(payload[..16])))
    else None
  }

  function TakeV2(s: seq<byte>): Read<Addr> {
    if |s| < 16 || s[..12] != V2_SIGNATURE || s[12] != 0x21 then Failed
    else
      var length := BigEndian(s[14..16]);
      if length > MAX_V2 || |s| < 16 + length then Failed
      else match V2Source(s[13], s[16..16 + length])
        case None => Failed
        case Some(addr) => Done(addr, s[16 + length..])
  }

  /** Read: one header off the front of the stream. */
  function TakeHeader(parse: AddrParser, s: seq<byte>): Read<Addr> {
    if s == [] then Failed else if s[0] == LETTER_P then TakeV1(parse, s) else TakeV2(s)
  }

  // The two header forms as a grammar.

  /** PROXY, the family, source and destination address, source and destination port. */
  datatype Line = Line(family: string, src: string, dst: string, sport: string, dport: string)

  function LineText(l: Line): string {
    "PROXY " + l.family + " " + l.src + " " + l.dst + " " + l.sport + " " + l.dport
  }

  /** Six parts without spaces, and a source address of the family. */
  predicate SourceLine(parse: AddrParser, l: Line, addr: Addr) {
    && ' ' !in l.src && ' ' !in l.dst && ' ' !in l.sport && ' ' !in l.dport
    && parse(l.src).Some? && addr == Unmap(parse(l.src).value)
    && ((l.family == "TCP4" && parse(l.src).value.V4?) || (l.family == "TCP6" && parse(l.src).value.V6?))
  }

  /** Version 1: such a line, ended by the first CR LF in it, within 108 bytes. */
  ghost predicate IsV1(parse: AddrParser, h: seq<byte>, addr: Addr) {
    && 2 <= |h| <= 108
    && EndsLine(h, |h|) && (forall k :: 2 <= k < |h| ==> !EndsLine(h, k))
    && exists l :: SourceLine(parse, l, addr) && Text(h[..|h| - 2]) == LineText(l)
  }

  /** Four bytes, most significant first. */
  function Quad(b: seq<byte>): nat
    requires |b| == 4
  {
    b[0] as int * 0x100_0000 + b[1] as int * 0x1_0000 + b[2] as int * 0x100 + b[3] as int
  }

  /** The address with these four or sixteen bytes. */
  predicate HasBytes(addr: Addr, b: seq<byte>) {
    || (|b| == 4 && addr == V4(Quad(b)))
    || (|b| == 16 && addr == V6(Quad(b[..4]) * 0x1_0000_0000_0000_0000_0000_0000 + Quad(b[4..8]) * 0x1_0000_0000_0000_0000
                                + Quad(b[8..12]) * 0x1_0000_0000 + Quad(b[12..])))
  }

  datatype Block = Block(family: byte, src: seq<byte>, dst: seq<byte>, tail: seq<byte>)

  function BlockBytes(b: Block): seq<byte> {
    b.src + b.dst + b.tail
  }

  /** A family, source and destination address of its size, and at least the two ports. */
  predicate SourceBlock(b: Block, addr: Addr) {
    && |b.src| == |b.dst| && |b.tail| >= 4 && |BlockBytes(b)| <= 512
    && ((b.family == 0x11 && |b.src| == 4) || (b.family == 0x21 && |b.src| == 16))
    && HasBytes(addr, b.src)
  }

  /** Version 2: the signature, version and command, the family, the length of the block in two
      bytes, and the block. */
  ghost predicate IsV2(h: seq<byte>, addr: Addr) {
    exists b :: SourceBlock(b, addr) && h == V2Text(b)
  }

  function V2Text(b: Block): seq<byte>
    requires |BlockBytes(b)| <= 512
  {
    [13, 10, 13, 10, 0, 13, 10, 81, 85, 73, 84, 10] + [0x21, b.family, |BlockBytes(b)| / 256, |BlockBytes(b)| % 256] + BlockBytes(b)
  }

  ghost predicate IsHeader(parse: AddrParser, h: seq<byte>, addr: Addr) {
    IsV1(parse, h, addr) || IsV2(h, addr)
  }

  /** The byte-by-byte loop of readV1, after the first byte. */
  method ReadV1(parse: AddrParser, r: Reader, first: byte) returns (addr: Option<Addr>)
    requires first == LETTER_P
    modifies r
    ensures addr.Some? <==> TakeV1(parse, [first] + old(r.rest)).Done?
    ensures addr.Some? ==> TakeV1(parse, [first] + old(r.rest)) == Done(addr.value, r.rest)
  {
    hide V1Source, Text;
    ghost var all := [first] + r.rest;
    var line := [first];
    var ended := false;
    while |line| < MAX_V1 && !ended
      invariant 1 <= |line| <= |all| && |line| <= MAX_V1
      invariant line == all[..|line|] && r.rest == all[|line|..]
      invariant LineFrom(all, |line|) == LineFrom(all, 1)
      invariant ended == EndsLine(all, |line|)
      decreases |all| - |line|
    {
      var ok, next := r.ReadByte();
      if !ok {
        return None;
      }
      assert next == all[|line|];
      line := line + [next];
      assert line == all[..|line|];
      ended := line[|line| - 2] == CR && line[|line| - 1] == LF;
    }
    if |line| < 2 || line[|line| - 2] != CR || line[|line| - 1] != LF {
      return None;
    }
    assert all[..|line| - 2] == line[..|line| - 2];
    addr := V1Source(parse, Text(line[..|line| - 2]));
  }

  method ReadV2(r: Reader, first: byte) returns (addr: Option<Addr>)
    modifies r
    ensures addr.Some? <==> TakeV2([first] + old(r.rest)).Done?
    ensures addr.Some? ==> TakeV2([first] + old(r.rest)) == Done(addr.value, r.rest)
  {
    hide V2Source, BigEndian;
    ghost var all := [first] + r.rest;
    var ok, tail := r.ReadFull(15);
    if !ok {
      return None;
    }
    var header := [first] + tail;
    assert header == all[..16] && r.rest == all[16..];
    assert header[..12] == all[..12] && header[14..16] == all[14..16];
    if header[..12] != V2_SIGNATURE || header[12] != 0x21 {
      return None;
    }
    var length := BigEndian(header[14..16]);
    if length > MAX_V2 {
      return None;
    }
    var full, payload := r.ReadFull(length);
    if !full {
      return None;
    }
    assert payload == all[16..16 + length] && r.rest == all[16 + length..];
    addr := V2Source(header[13], payload);
  }

  method ReadHeader(parse: AddrParser, r: Reader) returns (addr: Option<Addr>)
    modifies r
    ensures addr.Some? <==> TakeHeader(parse, old(r.rest)).Done?
    ensures addr.Some? ==> TakeHeader(parse, old(r.rest)) == Done(addr.value, r.rest)
  {
    hide TakeV1, TakeV2;
    ghost var all := r.rest;
    var ok, first := r.ReadByte();
    if !ok {
      return None;
    }
    assert all == [first] + r.rest;
    if first == LETTER_P {
      addr := ReadV1(parse, r, first);
    } else {
      addr := ReadV2(r, first);
    }
  }

  lemma {:induction false} LineFromIs(s: seq<byte>, n: nat, m: nat)
    requires 1 <= n <= m <= |s| && m <= MAX_V1 && EndsLine(s, m)
    requires forall k :: n <= k < m ==> !EndsLine(s, k)
    ensures LineFrom(s, n) == Some(m)
    decreases m - n
  {
    if n < m {
      LineFromIs(s, n + 1, m);
    }
  }

  lemma {:induction false} LineFromFirst(s: seq<byte>, n: nat)
    requires 1 <= n <= |s| && n <= MAX_V1 && LineFrom(s, n).Some?
    ensures LineFrom(s, n).value <= MAX_V1
    ensures forall k :: n <= k < LineFrom(s, n).value ==> !EndsLine(s, k)
    decreases |s| - n
  {
    if !EndsLine(s, n) {
      LineFromFirst(s, n + 1);
    }
  }

  /** What the six fields of a line must be. */
  lemma V1SourceIff(parse: AddrParser, line: string, addr: Addr)
    ensures V1Source(parse, line) == Some(addr) <==> exists l :: SourceLine(parse, l, addr) && line == LineText(l)
  {
    if V1Source(parse, line) == Some(addr) {
      var f := Split(line, ' ');
      var l := Line(f[1], f[2], f[3], f[4], f[5]);
      SixFields(line);
      assert SourceLine(parse, l, addr) by { hide LineText, Split; }
    }
    if l :| SourceLine(parse, l, addr) && line == LineText(l) {
      LineFields(l);
      hide Split, LineText;
    }
  }

  lemma SixFields(line: string)
    requires var f := Split(line, ' '); |f| == 6 && f[0] == "PROXY"
    ensures var f := Split(line, ' ');
      && line == LineText(Line(f[1], f[2], f[3], f[4], f[5]))
      && ' ' !in f[2] && ' ' !in f[3] && ' ' !in f[4] && ' ' !in f[5]
  {
    hide Split, Joined;
    var f := Split(line, ' ');
    JoinedSplit(line, ' ');
    JoinedSix(f);
    SplitParts(line, ' ');
    NoneIn(f, 2);
    NoneIn(f, 3);
    NoneIn(f, 4);
    NoneIn(f, 5);
  }

  lemma NoneIn(f: seq<string>, i: nat)
    requires i < |f| && forall part :: part in f ==> ' ' !in part
    ensures ' ' !in f[i]
  {
  }

  lemma {:induction false} JoinedSnoc(f: seq<string>, last: string)
    requires f != []
    ensures Joined(f + [last], ' ') == Joined(f, ' ') + " " + last
  {
    if |f| > 1 {
      assert (f + [last])[1..] == f[1..] + [last];
      JoinedSnoc(f[1..], last);
      var rest := Joined(f[1..], ' ');
      assert Joined(f, ' ') == f[0] + [' '] + rest;
      assert Joined(f + [last], ' ') == f[0] + [' '] + Joined(f[1..] + [last], ' ');
      hide Joined;
      assert f[0] + [' '] + (rest + " " + last) == f[0] + [' '] + rest + " " + last;
    }
  }

  lemma JoinedFront(f: seq<string>, k: nat)
    requires 1 <= k < |f|
    ensures Joined(f[..k + 1], ' ') == Joined(f[..k], ' ') + " " + f[k]
  {
    assert f[..k + 1] == f[..k] + [f[k]];
    JoinedSnoc(f[..k], f[k]);
  }

  lemma JoinedSix(f: seq<string>)
    requires |f| == 6
    ensures Joined(f, ' ') == f[0] + " " + f[1] + " " + f[2] + " " + f[3] + " " + f[4] + " " + f[5]
  {
    assert Joined(f[..1], ' ') == f[0];
    assert f[..6] == f;
    hide Joined;
    JoinedFront(f, 1);
    JoinedFront(f, 2);
    JoinedFront(f, 3);
    JoinedFront(f, 4);
    JoinedFront(f, 5);
  }

  lemma LineFields(l: Line)
    requires l.family == "TCP4" || l.family == "TCP6"
    requires ' ' !in l.src && ' ' !in l.dst && ' ' !in l.sport && ' ' !in l.dport
    ensures Split(LineText(l), ' ') == ["PROXY", l.family, l.src, l.dst, l.sport, l.dport]
  {
    hide Split;
    SplitSingle(l.dport, ' ');
    var four := l.sport + [' '] + l.dport;
    SplitConcat(l.sport, ' ', l.dport);
    var three := l.dst + [' '] + four;
    SplitConcat(l.dst, ' ', four);
    var two := l.src + [' '] + three;
    SplitConcat(l.src, ' ', three);
    var one := l.family + [' '] + two;
    SplitConcat(l.family, ' ', two);
    SplitConcat("PROXY", ' ', one);
    assert LineText(l) == "PROXY" + [' '] + one;
  }

  /** Version 1: reading succeeds exactly on one header followed by the rest. */
  lemma V1Exact(parse: AddrParser, s: seq<byte>, addr: Addr, rest: seq<byte>)
    requires s != [] && s[0] == LETTER_P
    ensures TakeV1(parse, s) == Done(addr, rest) <==> exists h :: IsV1(parse, h, addr) && s == h + rest
  {
    hide V1Source, Text, SourceLine, LineText;
    if TakeV1(parse, s) == Done(addr, rest) {
      var n := LineFrom(s, 1).value;
      LineFromFirst(s, 1);
      var h := s[..n];
      assert h[..|h| - 2] == s[..n - 2];
      V1SourceIff(parse, Text(h[..|h| - 2]), addr);
      assert forall k :: 2 <= k < n ==> EndsLine(h, k) == EndsLine(s, k);
      assert IsV1(parse, h, addr) && s == h + rest;
    }
    if h :| IsV1(parse, h, addr) && s == h + rest {
      assert forall k :: 1 <= k <= |h| ==> EndsLine(h, k) == EndsLine(s, k);
      LineFromIs(s, 1, |h|);
      assert s[..|h| - 2] == h[..|h| - 2] && s[|h|..] == rest;
      V1SourceIff(parse, Text(h[..|h| - 2]), addr);
    }
  }

  /** A version 1 header starts with the letter that tells it from version 2. */
  lemma V1Starts(parse: AddrParser, h: seq<byte>, addr: Addr)
    requires IsV1(parse, h, addr)
    ensures h[0] == LETTER_P
  {
    var l :| SourceLine(parse, l, addr) && Text(h[..|h| - 2]) == LineText(l);
    assert LineText(l)[0] == 'P';
    assert Text(h[..|h| - 2])[0] == h[0] as char;
  }

  lemma TwoBytes(b: seq<byte>)
    requires |b| == 2
    ensures BigEndian(b) == b[0] as int * 256 + b[1] as int
    ensures BigEndian(b) / 256 == b[0] && BigEndian(b) % 256 == b[1]
  {
    assert b[..1][..0] == [] && b[..1][0] == b[0];
    assert BigEndian(b[..1]) == b[0];
  }

  lemma FourBytes(b: seq<byte>)
    requires |b| == 4
    ensures BigEndian(b) == Quad(b)
  {
    TwoBytes(b[..2]);
    assert b[..3][..2] == b[..2] && b[..3][2] == b[2];
    assert BigEndian(b[..3]) == 256 * BigEndian(b[..2]) + b[2];
  }

  lemma {:induction false} Shifted(a: seq<byte>, b: seq<byte>)
    requires |b| == 4
    ensures BigEndian(a + b) == BigEndian(a) * 0x1_0000_0000 + Quad(b)
  {
    var s := a + b;
    var n := |a|;
    assert s[..n] == a;
    assert s[..n + 1][..n] == s[..n] && s[..n + 2][..n + 1] == s[..n + 1] && s[..n + 3][..n + 2] == s[..n + 2];
    assert BigEndian(s[..n + 1]) == 256 * BigEndian(a) + b[0];
    assert BigEndian(s[..n + 2]) == 256 * BigEndian(s[..n + 1]) + b[1];
    assert BigEndian(s[..n + 3]) == 256 * BigEndian(s[..n + 2]) + b[2];
  }

  lemma SixteenBytes(b: seq<byte>)
    requires |b| == 16
    ensures HasBytes(V6(BigEndian(b)), b)
  {
    hide BigEndian, Quad;
    FourBytes(b[..4]);
    Shifted(b[..4], b[4..8]);
    Shifted(b[..8], b[8..12]);
    Shifted(b[..12], b[12..]);
    assert b[..4] + b[4..8] == b[..8] && b[..8] + b[8..12] == b[..12] && b[..12] + b[12..] == b;
  }

  /** The source of a block, byte by byte. */
  lemma V2SourceIff(b: Block, addr: Addr)
    requires |b.src| == |b.dst| && |b.tail| >= 4
    requires (b.family == 0x11 && |b.src| == 4) || (b.family == 0x21 && |b.src| == 16)
    ensures V2Source(b.family, BlockBytes(b)) == Some(addr) <==> HasBytes(addr, b.src)
  {
    hide BigEndian;
    var payload := BlockBytes(b);
    assert payload[..|b.src|] == b.src;
    if |b.src| == 4 {
      FourBytes(b.src);
    } else {
      SixteenBytes(b.src);
    }
  }

  lemma V2Exact(s: seq<byte>, addr: Addr, rest: seq<byte>)
    ensures TakeV2(s) == Done(addr, rest) <==> exists h :: IsV2(h, addr) && s == h + rest
  {
    hide V2Source, BigEndian, HasBytes;
    if TakeV2(s) == Done(addr, rest) {
      var h := V2Read(s, addr, rest);
      assert IsV2(h, addr) && s == h + rest;
    }
    if h :| IsV2(h, addr) && s == h + rest {
      var b :| SourceBlock(b, addr) && h == V2Text(b);
      V2Written(s, b, addr, rest);
    }
  }

  lemma V2Read(s: seq<byte>, addr: Addr, rest: seq<byte>) returns (h: seq<byte>)
    requires TakeV2(s) == Done(addr, rest)
    ensures IsV2(h, addr) && s == h + rest
  {
    var length := BigEndian(s[14..16]);
    var payload := s[16..16 + length];
    assert V2Source(s[13], payload) == Some(addr) && length <= 512;
    h := s[..16 + length];
    assert s == h + rest;
    var b := BlockRead(s[13], payload, addr);
    hide V2Source, BigEndian, SourceBlock, BlockBytes, TakeV2, V2Text;
    V2TextOf(s, b, length);
  }

  lemma BlockRead(family: byte, payload: seq<byte>, addr: Addr) returns (b: Block)
    requires V2Source(family, payload) == Some(addr) && |payload| <= 512
    ensures SourceBlock(b, addr) && BlockBytes(b) == payload && b.family == family
  {
    var size := if family == 0x11 then 4 else 16;
    b := Block(family, payload[..size], payload[size..2 * size], payload[2 * size..]);
    assert BlockBytes(b) == payload;
    V2SourceIff(b, addr);
    hide V2Source, HasBytes;
  }

  lemma V2TextOf(s: seq<byte>, b: Block, length: nat)
    requires |s| >= 16 + length && length <= 512 && s[..12] == V2_SIGNATURE && s[12] == 0x21
    requires BigEndian(s[14..16]) == length && s[13] == b.family && BlockBytes(b) == s[16..16 + length]
    ensures s[..16 + length] == V2Text(b)
  {
    TwoBytes(s[14..16]);
    hide BigEndian, BlockBytes;
    assert s[..16 + length] == s[..12] + [s[12], s[13], s[14], s[15]] + s[16..16 + length];
  }

  lemma V2Written(s: seq<byte>, b: Block, addr: Addr, rest: seq<byte>)
    requires SourceBlock(b, addr) && s == V2Text(b) + rest
    ensures TakeV2(s) == Done(addr, rest)
  {
    var h, payload := V2Text(b), BlockBytes(b);
    assert s[..12] == V2_SIGNATURE && s[12] == 0x21 && s[13] == b.family;
    assert s[14..16] == [|payload| / 256, |payload| % 256];
    TwoBytes(s[14..16]);
    assert s[16..16 + |payload|] == payload && s[16 + |payload|..] == rest;
    V2SourceIff(b, addr);
    hide V2Source, BigEndian, HasBytes;
  }

  /** Reading succeeds with an address and a rest exactly when the stream is one well-formed
      header for that address followed by that rest. */
  lemma HeaderExact(parse: AddrParser, s: seq<byte>, addr: Addr, rest: seq<byte>)
    ensures TakeHeader(parse, s) == Done(addr, rest) <==> exists h :: IsHeader(parse, h, addr) && s == h + rest
  {
    hide TakeV1, TakeV2, V1Source, V2Source, BigEndian, SourceLine, LineText, HasBytes;
    if s != [] {
      if s[0] == LETTER_P {
        V1Exact(parse, s, addr, rest);
      } else {
        V2Exact(s, addr, rest);
      }
    }
    if TakeHeader(parse, s) == Done(addr, rest) {
      if s[0] == LETTER_P {
        var h :| IsV1(parse, h, addr) && s == h + rest;
        assert IsHeader(parse, h, addr);
      } else {
        var h :| IsV2(h, addr) && s == h + rest;
        assert IsHeader(parse, h, addr);
      }
    }
    if h :| IsHeader(parse, h, addr) && s == h + rest {
      if IsV2(h, addr) {
        assert h[0] == 13 && s[0] == h[0];
        assert IsV2(h, addr) && s == h + rest;
      } else {
        V1Starts(parse, h, addr);
        assert s[0] == h[0];
        assert IsV1(parse, h, addr) && s == h + rest;
      }
    }
  }
}
