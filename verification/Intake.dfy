/** internal/proxy: what a connection's first bytes become, from the client to the backend. */
module Intake {
  import opened GoText
  import opened HostAddr
  import opened VarInt
  import opened Framing
  import opened ProxyHeader
  import opened Routing

  /** A connection that may take any part of what is written to it. */
  class Conn {
    var sent: seq<byte>

    constructor ()
      ensures sent == []
    {
      sent := [];
    }

    method Write(data: seq<byte>) returns (n: nat, failed: bool)
      modifies this
      ensures n <= |data| && sent == old(sent) + data[..n]
    {
      n :| 0 <= n <= |data|;
      failed := *;
      sent := sent + data[..n];
    }
  }

  /** writeAll: in order, complete on success, a prefix on failure, whatever each write takes. */
  method WriteAll(conn: Conn, data: seq<byte>) returns (ok: bool)
    modifies conn
    ensures ok ==> conn.sent == old(conn.sent) + data
    ensures !ok ==> exists k :: 0 <= k <= |data| && conn.sent == old(conn.sent) + data[..k]
  {
    var left := data;
    ghost var k := 0;
    while |left| > 0
      invariant 0 <= k <= |data| && left == data[k..]
      invariant conn.sent == old(conn.sent) + data[..k]
      decreases |left|
    {
      var n, failed := conn.Write(left);
      assert data[..k] + left[..n] == data[..k + n];
      k := k + n;
      assert conn.sent == old(conn.sent) + data[..k];
      if failed {
        return false;
      }
      if n == 0 {
        return false;
      }
      left := left[n..];
    }
    assert data[..k] == data;
    ok := true;
  }

  /** RouteAddress: the normalised address, or nothing. */
  function RouteAddress(p: Platform, h: Handshake): string {
    var n := Normalize(p, h.serverAddress);
    if n.Ok? then n.value else ""
  }

  /** What a peer may put in front of its handshake: one header if it is trusted, else nothing. */
  ghost predicate HeaderOf(parse: AddrParser, trusted: bool, header: seq<byte>) {
    if trusted then exists addr :: IsHeader(parse, header, addr) else header == []
  }

  /** What is left of the stream for the handshake, unless a header is due and malformed. */
  function AfterHeader(parse: AddrParser, trusted: bool, s: seq<byte>): Option<seq<byte>> {
    if !trusted then Some(s)
    else match TakeHeader(parse, s)
      case Done(_, rest) => Some(rest)
      case Failed => None
  }

  /** How a connection's intake ends: the stage that stopped it, or the handshake passed on. */
  datatype Outcome = HeaderRejected | ClientDenied | HandshakeRejected | WriteFailed | Forwarded(handshake: Handshake)

  /** A connection up to the point where proxying starts: a header is read from trusted peers
      only, the client policy and the limiter have their say, then comes the handshake, which goes
      to the backend as it came. Each stage fails exactly when its input is malformed. The bytes
      consumed are one header, if one is due, and the raw handshake, so that what the backend has
      been sent together with what is unread is the client's stream without the header. */
  method Forward(p: Platform, parse: AddrParser, trusted: bool, admitted: bool, client: Reader, backend: Conn)
    returns (r: Outcome)
    requires client as object != backend
    modifies client, backend
    ensures r.HeaderRejected? <==> AfterHeader(parse, trusted, old(client.rest)).None?
    ensures r.ClientDenied? <==> AfterHeader(parse, trusted, old(client.rest)).Some? && !admitted
    ensures r.HandshakeRejected? <==>
      var stream := AfterHeader(parse, trusted, old(client.rest));
      stream.Some? && admitted && TakeHandshake(p, stream.value, DEFAULT_LIMITS).Failed?
    ensures r.HeaderRejected? || r.ClientDenied? || r.HandshakeRejected? ==> backend.sent == old(backend.sent)
    ensures r.WriteFailed? || r.Forwarded? ==> exists header, h, raw ::
      && HeaderOf(parse, trusted, header)
      && old(client.rest) == header + raw + client.rest
      && TakeHandshake(p, raw + client.rest, DEFAULT_LIMITS) == Done((h, raw), client.rest)
      && (r.Forwarded? ==> r.handshake == h && backend.sent == old(backend.sent) + raw)
      && (r.WriteFailed? ==> exists k :: 0 <= k <= |raw| && backend.sent == old(backend.sent) + raw[..k])
    ensures r.Forwarded? ==> Normalize(p, r.handshake.serverAddress).Ok?
  {
    hide IsHeader, TakeHeader, TakeHandshake, Normalize;
    ghost var stream, before := client.rest, backend.sent;
    ghost var header: seq<byte> := [];
    if trusted {
      var addr := ReadHeader(parse, client);
      if addr.None? {
        return HeaderRejected;
      }
      HeaderExact(parse, stream, addr.value, client.rest);
      header :| IsHeader(parse, header, addr.value) && stream == header + client.rest;
    }
    ghost var afterHeader := client.rest;
    assert AfterHeader(parse, trusted, stream) == Some(afterHeader);
    assert HeaderOf(parse, trusted, header) && stream == header + afterHeader;
    if !admitted {
      return ClientDenied;
    }
    var h, raw := ReadHandshake(p, client, DEFAULT_LIMITS);
    if h.None? {
      return HandshakeRejected;
    }
    HandshakeAddress(p, afterHeader, DEFAULT_LIMITS);
    var ok := WriteAll(backend, raw);
    assert raw + client.rest == afterHeader && stream == header + raw + client.rest;
    return if ok then Forwarded(h.value) else WriteFailed;
  }

  lemma HandshakeAddress(p: Platform, s: seq<byte>, limits: Framing.Limits)
    requires TakeHandshake(p, s, limits).Done?
    ensures Normalize(p, TakeHandshake(p, s, limits).value.0.serverAddress).Ok?
  {
    hide ParseHandshakePayload, Normalize;
    ParsedAddress(p, TakeFrame(s, limits.maxPacketLength).value, limits.maxServerAddressBytes);
  }

  /** After a successful handshake the route address is not empty, selects what the raw address
      selects, and is never rejected as invalid. */
  lemma RouteAddressSelects(p: Platform, s: seq<byte>, limits: Framing.Limits, router: Router)
    requires TakeHandshake(p, s, limits).Done?
    ensures var h := TakeHandshake(p, s, limits).value.0;
      && RouteAddress(p, h) != ""
      && Select(p, router, RouteAddress(p, h)) == Select(p, router, h.serverAddress)
      && Select(p, router, RouteAddress(p, h)) != InvalidAddress
  {
    hide TakeHandshake, Normalize;
    var h := TakeHandshake(p, s, limits).value.0;
    HandshakeAddress(p, s, limits);
    OutputCanonical(p, h.serverAddress);
    SelectNormalized(p, router, h.serverAddress);
  }
}
