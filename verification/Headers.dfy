/** Header rewriting (src/proxy.rs). A header map takes each field name, in lower case, to its values in order; a value is a
    sequence of bytes, written as the characters with those codes. */
module Headers {
  import opened Clock
  import opened Strings
  import Plist

  type HeaderMap = map<string, seq<string>>

  const MAX_HEADER_NAME_LENGTH: nat := 0xFFFF

  const CONNECTION: string := "connection"
  const UPGRADE: string := "upgrade"
  const HOST: string := "host"
  const CONTENT_LENGTH: string := "content-length"
  const TRANSFER_ENCODING: string := "transfer-encoding"
  const PROXY_AUTHORIZATION: string := "proxy-authorization"

  const BOUNDED_NAMES: seq<string> :=
    ["proxy-connection", "keep-alive", "proxy-authenticate", "te", "trailer", "transfer-encoding"]

  const FORWARDING_NAMES: seq<string> :=
    ["forwarded", "x-forwarded-for", "x-forwarded-host", "x-forwarded-port", "x-forwarded-prefix", "x-forwarded-proto",
     "x-real-ip"]

  // ---- Bytes ----

  predicate IsAsciiWhitespace(ch: char) {
    ch == ' ' || ch == '\t' || ch == '\n' || ch == '\r' || ch == 0xC as char
  }

  /** The characters of a token (section 5.6.2 of RFC 9110). */
  predicate IsTokenCharacter(ch: char) {
    || 'a' <= ch <= 'z' || 'A' <= ch <= 'Z' || '0' <= ch <= '9'
    || ch == '!' || ch == '#' || ch == '$' || ch == '%' || ch == '&' || ch == '\'' || ch == '*' || ch == '+'
    || ch == '-' || ch == '.' || ch == '^' || ch == '_' || ch == '`' || ch == '|' || ch == '~'
  }

  predicate IsHeaderName(s: string) {
    0 < |s| <= MAX_HEADER_NAME_LENGTH && forall i :: 0 <= i < |s| ==> IsTokenCharacter(s[i])
  }

  /** A field name from bytes, in lower case; None for what is no field name. */
  function HeaderName(s: string): Option<string> {
    if IsHeaderName(s) then Some(Lower(s)) else None
  }

  function TrimStart(s: string): string {
    if s != "" && IsAsciiWhitespace(s[0]) then TrimStart(s[1..]) else s
  }

  function TrimEnd(s: string): string {
    if s != "" && IsAsciiWhitespace(s[|s| - 1]) then TrimEnd(s[..|s| - 1]) else s
  }

  function Trim(s: string): string {
    TrimEnd(TrimStart(s))
  }

  method TrimAsciiWhitespace(value: string) returns (trimmed: string)
    ensures trimmed == Trim(value)
  {
    trimmed := value;
    while trimmed != "" && IsAsciiWhitespace(trimmed[0])
      invariant TrimStart(trimmed) == TrimStart(value)
      decreases |trimmed|
    {
      trimmed := trimmed[1..];
    }
    while trimmed != "" && IsAsciiWhitespace(trimmed[|trimmed| - 1])
      invariant TrimEnd(trimmed) == Trim(value)
      decreases |trimmed|
    {
      trimmed := trimmed[..|trimmed| - 1];
    }
  }

  // ---- Lists in field values ----

  function Values(h: HeaderMap, name: string): seq<string> {
    if name in h then h[name] else []
  }

  predicate ValueHasToken(value: string, expected: string) {
    var pieces := Pieces(value, ',');
    exists i :: 0 <= i < |pieces| && EqualIgnoringCase(Trim(pieces[i]), expected)
  }

  predicate HeaderContainsToken(h: HeaderMap, name: string, expected: string) {
    var values := Values(h, name);
    exists i :: 0 <= i < |values| && ValueHasToken(values[i], expected)
  }

  predicate HasWebsocketUpgrade(h: HeaderMap) {
    var values := Values(h, UPGRADE);
    exists i :: 0 <= i < |values| && EqualIgnoringCase(values[i], "websocket")
  }

  predicate IsValidWebsocketRequest(http11: bool, h: HeaderMap) {
    http11 && HasWebsocketUpgrade(h) && HeaderContainsToken(h, CONNECTION, UPGRADE)
  }

  predicate IsValidWebsocketResponse(status: nat, h: HeaderMap) {
    status == 101 && HasWebsocketUpgrade(h) && HeaderContainsToken(h, CONNECTION, UPGRADE)
  }

  /** The field names among the pieces of one value. */
  function NamesOf(pieces: seq<string>): seq<string> {
    if pieces == [] then []
    else
      match HeaderName(Trim(pieces[0]))
      case None => NamesOf(pieces[1..])
      case Some(name) => [name] + NamesOf(pieces[1..])
  }

  function NamesIn(values: seq<string>): seq<string> {
    if values == [] then [] else NamesOf(Pieces(values[0], ',')) + NamesIn(values[1..])
  }

  function ConnectionHeaderNames(h: HeaderMap): seq<string> {
    NamesIn(Values(h, CONNECTION))
  }

  // ---- The rewriting, as functions of the header map ----

  function Elements(s: seq<string>): set<string> {
    set x | x in s
  }

  function Without(h: HeaderMap, names: set<string>): HeaderMap {
    map n | n in h && n !in names :: h[n]
  }

  /** The fields that a request loses. */
  function RequestHopNames(h: HeaderMap, retainUpgrade: bool): set<string> {
    ResponseHopNames(h, retainUpgrade) + {PROXY_AUTHORIZATION}
  }

  /** The fields that a response loses. */
  function ResponseHopNames(h: HeaderMap, retainUpgrade: bool): set<string> {
    (Elements(ConnectionHeaderNames(h)) - if retainUpgrade then {UPGRADE} else {})
    + (if retainUpgrade then {} else {CONNECTION, UPGRADE})
    + Elements(BOUNDED_NAMES)
  }

  function WithUpgrade(h: HeaderMap, retainUpgrade: bool): HeaderMap {
    if retainUpgrade then h[CONNECTION := ["Upgrade"]][UPGRADE := ["websocket"]] else h
  }

  function StrippedRequest(h: HeaderMap, retainUpgrade: bool): HeaderMap {
    WithUpgrade(Without(h, RequestHopNames(h, retainUpgrade)), retainUpgrade)
  }

  function StrippedResponse(h: HeaderMap, retainUpgrade: bool): HeaderMap {
    WithUpgrade(Without(h, ResponseHopNames(h, retainUpgrade)), retainUpgrade)
  }

  /** What the request's connection says of itself. */
  datatype Transport = Transport(tls: bool, peerIp: Option<string>, listenerPort: nat)

  /** A value that is visible text; others count as absent. */
  predicate IsVisible(value: string) {
    forall i :: 0 <= i < |value| ==> ' ' <= value[i] < 0x7F as char || value[i] == '\t'
  }

  function HostText(h: HeaderMap): Option<string> {
    if Values(h, HOST) != [] && IsVisible(Values(h, HOST)[0]) then Some(Values(h, HOST)[0]) else None
  }

  function WithPeer(h: HeaderMap, peerIp: Option<string>): HeaderMap {
    if peerIp.Some? then h["x-forwarded-for" := [peerIp.value]]["x-real-ip" := [peerIp.value]] else h
  }

  function WithHost(h: HeaderMap): HeaderMap {
    if HostText(h).Some? then h["x-forwarded-host" := [HostText(h).value]] else h
  }

  function Forwarded(h: HeaderMap, t: Transport): HeaderMap {
    var stripped := Without(h, Elements(FORWARDING_NAMES));
    if !t.tls then stripped
    else
      WithHost(WithPeer(stripped["x-forwarded-proto" := ["https"]], t.peerIp))
        ["x-forwarded-port" := [Plist.Decimal(t.listenerPort)]]
  }

  function Framed(h: HeaderMap, bodyEmpty: bool): HeaderMap {
    if !bodyEmpty && CONTENT_LENGTH !in h then h[TRANSFER_ENCODING := ["chunked"]] else h
  }

  function UpstreamRequest(h: HeaderMap, websocket: bool, t: Transport, bodyEmpty: bool): HeaderMap {
    Framed(Forwarded(StrippedRequest(h, websocket), t), bodyEmpty)
  }

  // ---- The rewriting in place ----

  class Message {
    var headers: HeaderMap

    constructor (headers: HeaderMap)
      ensures this.headers == headers
    {
      this.headers := headers;
    }

    method RemoveHeader(name: string)
      modifies this
      ensures headers == Without(old(headers), {name})
    {
      headers := map n | n in headers && n != name :: headers[n];
    }

    method InsertHeader(name: string, value: string)
      modifies this
      ensures headers == old(headers)[name := [value]]
    {
      headers := headers[name := [value]];
    }

    method RemoveHeaders(names: seq<string>)
      modifies this
      ensures headers == Without(old(headers), Elements(names))
    {
      var i := 0;
      while i < |names|
        invariant 0 <= i <= |names|
        invariant headers == Without(old(headers), Elements(names[..i]))
      {
        assert names[..i + 1] == names[..i] + [names[i]];
        RemoveHeader(names[i]);
        i := i + 1;
      }
      assert names[..i] == names;
    }

    /** Removes the fields that the `Connection` field lists, but for `Upgrade` when it is retained. */
    method RemoveConnectionNamed(retainUpgrade: bool)
      modifies this
      ensures headers == Without(old(headers),
                                 Elements(ConnectionHeaderNames(old(headers))) - if retainUpgrade then {UPGRADE} else {})
    {
      var names := ConnectionHeaderNames(headers);
      ghost var kept := if retainUpgrade then {UPGRADE} else {};
      var i := 0;
      while i < |names|
        invariant 0 <= i <= |names|
        invariant headers == Without(old(headers), Elements(names[..i]) - kept)
      {
        assert names[..i + 1] == names[..i] + [names[i]];
        if !(retainUpgrade && names[i] == UPGRADE) {
          RemoveHeader(names[i]);
        }
        i := i + 1;
      }
      assert names[..i] == names;
    }

    method StripBoundedHeaders(retainUpgrade: bool)
      modifies this
      ensures headers == Without(old(headers), (if retainUpgrade then {} else {CONNECTION, UPGRADE}) + Elements(BOUNDED_NAMES))
    {
      if !retainUpgrade {
        RemoveHeader(CONNECTION);
        RemoveHeader(UPGRADE);
      }
      RemoveHeaders(BOUNDED_NAMES);
    }

    method RetainUpgrade(retainUpgrade: bool)
      modifies this
      ensures headers == WithUpgrade(old(headers), retainUpgrade)
    {
      if retainUpgrade {
        InsertHeader(CONNECTION, "Upgrade");
        InsertHeader(UPGRADE, "websocket");
      }
    }

    method StripRequestHopHeaders(retainUpgrade: bool)
      modifies this
      ensures headers == StrippedRequest(old(headers), retainUpgrade)
    {
      RemoveConnectionNamed(retainUpgrade);
      RemoveHeader(PROXY_AUTHORIZATION);
      StripBoundedHeaders(retainUpgrade);
      assert headers == Without(old(headers), RequestHopNames(old(headers), retainUpgrade));
      RetainUpgrade(retainUpgrade);
    }

    method StripResponseHopHeaders(retainUpgrade: bool)
      modifies this
      ensures headers == StrippedResponse(old(headers), retainUpgrade)
    {
      RemoveConnectionNamed(retainUpgrade);
      StripBoundedHeaders(retainUpgrade);
      assert headers == Without(old(headers), ResponseHopNames(old(headers), retainUpgrade));
      RetainUpgrade(retainUpgrade);
    }

    method ApplyForwardedHeaders(t: Transport)
      modifies this
      ensures headers == Forwarded(old(headers), t)
    {
      RemoveHeaders(FORWARDING_NAMES);
      if !t.tls {
        return;
      }
      InsertHeader("x-forwarded-proto", "https");
      if t.peerIp.Some? {
        InsertHeader("x-forwarded-for", t.peerIp.value);
        InsertHeader("x-real-ip", t.peerIp.value);
      }
      var host := HostText(headers);
      if host.Some? {
        InsertHeader("x-forwarded-host", host.value);
      }
      InsertHeader("x-forwarded-port", Plist.Decimal(t.listenerPort));
    }

    method UpstreamRequestFilter(websocket: bool, t: Transport, bodyEmpty: bool)
      modifies this
      ensures headers == UpstreamRequest(old(headers), websocket, t, bodyEmpty)
    {
      StripRequestHopHeaders(websocket);
      ApplyForwardedHeaders(t);
      if !bodyEmpty && CONTENT_LENGTH !in headers {
        InsertHeader(TRANSFER_ENCODING, "chunked");
      }
    }

    /** Whether the response upgrades the connection, and the response rewritten for that. */
    method UpstreamResponseFilter(websocket: bool, status: nat) returns (upgraded: bool)
      modifies this
      ensures upgraded <==> websocket && IsValidWebsocketResponse(status, old(headers))
      ensures headers == StrippedResponse(old(headers), upgraded)
    {
      upgraded := websocket && IsValidWebsocketResponse(status, headers);
      StripResponseHopHeaders(upgraded);
    }
  }
}
