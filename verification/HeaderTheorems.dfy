/** What the header rewriting does to every header map. */
module HeaderTheorems {
  import opened Clock
  import opened Headers
  import opened Strings
  import Plist

  // ---- The fields that `Connection` lists, read off the bytes ----

  predicate AllSpace(v: string, from: nat, to: nat)
    requires to <= |v|
  {
    forall m :: from <= m < to ==> IsAsciiWhitespace(v[m])
  }

  /** A list element starts at `k`, with only white space between there and position `a`. */
  predicate OpensAt(v: string, k: nat, a: nat)
    requires a <= |v|
  {
    k <= a && (k == 0 || v[k - 1] == ',') && AllSpace(v, k, a)
  }

  /** A list element ends at `k`, with only white space between position `b` and there. */
  predicate ClosesAt(v: string, b: nat, k: nat)
    requires k <= |v|
  {
    b <= k && (k == |v| || v[k] == ',') && AllSpace(v, b, k)
  }

  ghost predicate ElementOpens(v: string, a: nat)
    requires a <= |v|
  {
    exists k: nat :: OpensAt(v, k, a)
  }

  ghost predicate ElementCloses(v: string, b: nat)
    requires b <= |v|
  {
    exists k: nat :: k <= |v| && ClosesAt(v, b, k)
  }

  /** The value lists the field `name`: a field name that is `name` in lower case is an element of its comma-separated list
      (section 5.6.1 of RFC 9110), with optional white space around it. */
  ghost predicate Lists(v: string, name: string) {
    exists a: nat, b: nat {:trigger v[a..b]} ::
      a <= b <= |v| && HeaderName(v[a..b]) == Some(name) && ElementOpens(v, a) && ElementCloses(v, b)
  }

  /** The `Connection` field lists the field `name`. */
  ghost predicate ConnectionLists(h: HeaderMap, name: string) {
    exists i :: 0 <= i < |Values(h, CONNECTION)| && Lists(Values(h, CONNECTION)[i], name)
  }

  // ---- Trimming ----

  lemma {:induction false} TrimStartAt(s: string) returns (a: nat)
    ensures a <= |s| && TrimStart(s) == s[a..]
    ensures forall m :: 0 <= m < a ==> IsAsciiWhitespace(s[m])
    ensures a < |s| ==> !IsAsciiWhitespace(s[a])
  {
    if s != "" && IsAsciiWhitespace(s[0]) {
      var b := TrimStartAt(s[1..]);
      a := b + 1;
      assert s[1..][b..] == s[a..];
      assert forall m :: 1 <= m < a ==> s[m] == s[1..][m - 1];
    } else {
      a := 0;
      assert s[0..] == s;
    }
  }

  lemma {:induction false} TrimEndAt(s: string) returns (b: nat)
    ensures b <= |s| && TrimEnd(s) == s[..b]
    ensures forall m :: b <= m < |s| ==> IsAsciiWhitespace(s[m])
    ensures b > 0 ==> !IsAsciiWhitespace(s[b - 1])
  {
    b := |s|;
    if s != "" && IsAsciiWhitespace(s[|s| - 1]) {
      b := TrimEndAt(s[..|s| - 1]);
      assert s[..|s| - 1][..b] == s[..b];
    } else {
      assert s[..|s|] == s;
    }
  }

  lemma TrimAt(s: string) returns (a: nat, b: nat)
    ensures a <= b <= |s| && Trim(s) == s[a..b]
    ensures forall m :: 0 <= m < a || b <= m < |s| ==> IsAsciiWhitespace(s[m])
    ensures a < b ==> !IsAsciiWhitespace(s[a]) && !IsAsciiWhitespace(s[b - 1])
  {
    a := TrimStartAt(s);
    var c := TrimEndAt(s[a..]);
    b := a + c;
    assert s[a..][..c] == s[a..b];
    assert forall m :: a <= m < |s| ==> s[m] == s[a..][m - a];
  }

  /** A trimmed string is the only slice without white space at its ends and with nothing but white space around it. */
  lemma TrimUnique(s: string, a: nat, b: nat)
    requires a < b <= |s|
    requires forall m :: 0 <= m < a || b <= m < |s| ==> IsAsciiWhitespace(s[m])
    requires !IsAsciiWhitespace(s[a]) && !IsAsciiWhitespace(s[b - 1])
    ensures Trim(s) == s[a..b]
  {
    var c, d := TrimAt(s);
  }

  lemma NameHasNoSpace(s: string, i: nat)
    requires IsHeaderName(s) && i < |s|
    ensures !IsAsciiWhitespace(s[i]) && s[i] != ','
  {
  }

  // ---- The listed names ----

  lemma {:induction false} NamesOfMember(pieces: seq<string>, name: string)
    ensures name in NamesOf(pieces) <==> exists i :: 0 <= i < |pieces| && HeaderName(Trim(pieces[i])) == Some(name)
  {
    if pieces != [] {
      var tail := pieces[1..];
      NamesOfMember(tail, name);
      assert forall i :: 1 <= i < |pieces| ==> pieces[i] == tail[i - 1];
    }
  }

  lemma ListsFromPiece(v: string, name: string, x: string)
    requires x in Pieces(v, ',') && HeaderName(Trim(x)) == Some(name)
    ensures Lists(v, name)
  {
    var i, j := PieceFound(v, ',', 0, x);
    var a, b := TrimAt(x);
    assert forall m :: i <= m < j ==> v[m] == x[m - i];
    assert x[a..b] == v[i + a..i + b];
    assert OpensAt(v, i, i + a);
    assert ClosesAt(v, i + b, j);
  }

  lemma PieceAround(v: string, k: nat, a: nat, b: nat, l: nat)
    requires a < b <= l <= |v| && OpensAt(v, k, a) && ClosesAt(v, b, l) && IsHeaderName(v[a..b])
    ensures IsPiece(v, ',', k, l) && Trim(v[k..l]) == v[a..b]
  {
    forall m | a <= m < b
      ensures !IsAsciiWhitespace(v[m]) && v[m] != ','
    {
      NameHasNoSpace(v[a..b], m - a);
    }
    assert Free(v, ',', k, l) by {
      forall m | k <= m < l
        ensures v[m] != ','
      {
        assert m < a || m >= b ==> IsAsciiWhitespace(v[m]);
      }
    }
    var x := v[k..l];
    assert forall m :: 0 <= m < |x| ==> x[m] == v[m + k];
    TrimUnique(x, a - k, b - k);
    assert x[a - k..b - k] == v[a..b];
  }

  lemma PieceFromLists(v: string, name: string) returns (x: string)
    requires Lists(v, name)
    ensures x in Pieces(v, ',') && HeaderName(Trim(x)) == Some(name)
  {
    var a: nat, b: nat :|
      a <= b <= |v| && HeaderName(v[a..b]) == Some(name) && ElementOpens(v, a) && ElementCloses(v, b);
    var k: nat :| OpensAt(v, k, a);
    var l: nat :| l <= |v| && ClosesAt(v, b, l);
    PieceAround(v, k, a, b, l);
    PieceListed(v, ',', 0, k, l);
    x := v[k..l];
  }

  lemma NamesOfPieces(v: string, name: string)
    ensures name in NamesOf(Pieces(v, ',')) <==> Lists(v, name)
  {
    var pieces := Pieces(v, ',');
    NamesOfMember(pieces, name);
    if Lists(v, name) {
      var x := PieceFromLists(v, name);
    }
    if i :| 0 <= i < |pieces| && HeaderName(Trim(pieces[i])) == Some(name) {
      ListsFromPiece(v, name, pieces[i]);
    }
  }

  lemma {:induction false} NamesInMember(values: seq<string>, name: string)
    ensures name in NamesIn(values) <==> exists i :: 0 <= i < |values| && Lists(values[i], name)
  {
    if values != [] {
      var tail := values[1..];
      NamesOfPieces(values[0], name);
      NamesInMember(tail, name);
      assert forall i :: 1 <= i < |values| ==> values[i] == tail[i - 1];
    }
  }

  /** The names that the program collects are exactly the fields that `Connection` lists. */
  lemma ConnectionNamesAreListed(h: HeaderMap, name: string)
    ensures name in ConnectionHeaderNames(h) <==> ConnectionLists(h, name)
  {
    NamesInMember(Values(h, CONNECTION), name);
  }

  // ---- Hop-by-hop fields ----

  /** The fields dropped whatever `Connection` lists (section 7.6.1 of RFC 9110 and the code's own list). */
  ghost predicate AlwaysHop(name: string, retainUpgrade: bool, request: bool) {
    || name in BOUNDED_NAMES
    || (request && name == PROXY_AUTHORIZATION)
    || (!retainUpgrade && (name == CONNECTION || name == UPGRADE))
  }

  ghost predicate Dropped(h: HeaderMap, name: string, retainUpgrade: bool, request: bool) {
    AlwaysHop(name, retainUpgrade, request) || (ConnectionLists(h, name) && !(retainUpgrade && name == UPGRADE))
  }

  function Stripped(h: HeaderMap, retainUpgrade: bool, request: bool): HeaderMap {
    if request then StrippedRequest(h, retainUpgrade) else StrippedResponse(h, retainUpgrade)
  }

  /** Hop-by-hop rewriting of every header map: a field that is rewritten for an upgrade has its one fixed value; any other
      field survives, with all its values in order, exactly when it is neither always dropped nor listed by `Connection`. */
  lemma StripExactly(h: HeaderMap, retainUpgrade: bool, request: bool, name: string)
    ensures var r := Stripped(h, retainUpgrade, request);
            if retainUpgrade && name == CONNECTION then Values(r, name) == ["Upgrade"]
            else if retainUpgrade && name == UPGRADE then Values(r, name) == ["websocket"]
            else
              && (name in r <==> name in h && !Dropped(h, name, retainUpgrade, request))
              && (name in r ==> r[name] == h[name])
  {
    ConnectionNamesAreListed(h, name);
    assert name in Elements(ConnectionHeaderNames(h)) <==> ConnectionLists(h, name);
    assert name in Elements(BOUNDED_NAMES) <==> name in BOUNDED_NAMES;
    assert CONNECTION != UPGRADE;
  }

  lemma UpgradeListed()
    ensures Pieces("Upgrade", ',') == ["Upgrade"]
    ensures Trim("Upgrade") == "Upgrade" && HeaderName("Upgrade") == Some(UPGRADE) && Lower("Upgrade") == UPGRADE
    ensures NamesIn(["Upgrade"]) == [UPGRADE]
  {
    var s := "Upgrade";
    SolePiece(s, ',');
    TrimUnique(s, 0, |s|);
    assert s[0..|s|] == s;
    assert Lower(s) == UPGRADE;
    assert IsHeaderName(s);
    assert NamesOf([s]) == [UPGRADE] + NamesOf([s][1..]);
    assert NamesIn(["Upgrade"][1..]) == [];
    assert NamesIn(["Upgrade"]) == NamesOf(["Upgrade"]) + [];
  }

  /** After the rewriting, `Connection` lists `upgrade` when it was retained, and nothing else. */
  lemma ListedAfterStrip(h: HeaderMap, retainUpgrade: bool, request: bool, name: string)
    ensures ConnectionLists(Stripped(h, retainUpgrade, request), name) <==> retainUpgrade && name == UPGRADE
  {
    var once := Stripped(h, retainUpgrade, request);
    StripExactly(h, retainUpgrade, request, CONNECTION);
    UpgradeListed();
    assert Values(once, CONNECTION) == if retainUpgrade then ["Upgrade"] else [];
    ConnectionNamesAreListed(once, name);
  }

  lemma StripTwiceAt(h: HeaderMap, retainUpgrade: bool, request: bool, name: string)
    ensures var once := Stripped(h, retainUpgrade, request);
            var twice := Stripped(once, retainUpgrade, request);
            (name in twice <==> name in once) && Values(twice, name) == Values(once, name)
  {
    var once := Stripped(h, retainUpgrade, request);
    StripExactly(h, retainUpgrade, request, name);
    StripExactly(once, retainUpgrade, request, name);
    ListedAfterStrip(h, retainUpgrade, request, name);
  }

  /** Rewriting twice is rewriting once. */
  lemma StripIdempotent(h: HeaderMap, retainUpgrade: bool, request: bool)
    ensures Stripped(Stripped(h, retainUpgrade, request), retainUpgrade, request) == Stripped(h, retainUpgrade, request)
  {
    var once := Stripped(h, retainUpgrade, request);
    var twice := Stripped(once, retainUpgrade, request);
    forall name
      ensures (name in twice <==> name in once) && Values(twice, name) == Values(once, name)
    {
      StripTwiceAt(h, retainUpgrade, request, name);
    }
    assert forall name :: name in twice ==> twice[name] == Values(twice, name) && once[name] == Values(once, name);
  }

  /** A header map rewritten for an upgrade still asks for a WebSocket upgrade, whatever it held before, so a valid request,
      or a valid 101 response, stays valid. */
  lemma UpgradeStaysValid(h: HeaderMap, request: bool, http11: bool, status: nat)
    ensures var r := Stripped(h, true, request);
            && (IsValidWebsocketRequest(http11, r) <==> http11)
            && (IsValidWebsocketResponse(status, r) <==> status == 101)
  {
    var r := Stripped(h, true, request);
    UpgradeListed();
    LowerFixed(UPGRADE);
    StripExactly(h, true, request, CONNECTION);
    StripExactly(h, true, request, UPGRADE);
    assert Pieces(Values(r, CONNECTION)[0], ',')[0] == "Upgrade";
    assert EqualIgnoringCase(Trim("Upgrade"), UPGRADE);
    assert ValueHasToken(Values(r, CONNECTION)[0], UPGRADE);
    assert HeaderContainsToken(r, CONNECTION, UPGRADE);
    assert EqualIgnoringCase(Values(r, UPGRADE)[0], "websocket");
    assert HasWebsocketUpgrade(r);
  }

  // ---- Forwarding fields and framing ----

  /** The values of a forwarding field after the filter. Nothing of the client's own fields is in them. */
  ghost function ForwardingValues(host: Option<string>, t: Transport, name: string): seq<string> {
    if !t.tls then []
    else if name == "x-forwarded-proto" then ["https"]
    else if name == "x-forwarded-port" then [Plist.Decimal(t.listenerPort)]
    else if name == "x-forwarded-for" || name == "x-real-ip" then (if t.peerIp.Some? then [t.peerIp.value] else [])
    else if name == "x-forwarded-host" then (if host.Some? then [host.value] else [])
    else []
  }

  lemma ForwardingNamesDistinct()
    ensures HOST !in FORWARDING_NAMES && CONTENT_LENGTH !in FORWARDING_NAMES && TRANSFER_ENCODING !in FORWARDING_NAMES
    ensures "x-forwarded-proto" in FORWARDING_NAMES && "x-forwarded-port" in FORWARDING_NAMES
    ensures "x-forwarded-for" in FORWARDING_NAMES && "x-real-ip" in FORWARDING_NAMES && "x-forwarded-host" in FORWARDING_NAMES
  {
    assert FORWARDING_NAMES[5] == "x-forwarded-proto" && FORWARDING_NAMES[3] == "x-forwarded-port";
    assert FORWARDING_NAMES[1] == "x-forwarded-for" && FORWARDING_NAMES[6] == "x-real-ip";
    assert FORWARDING_NAMES[2] == "x-forwarded-host";
  }

  /** What the forwarding filter writes over TLS, on fields already stripped. */
  lemma ForwardedOverTls(stripped: HeaderMap, t: Transport, name: string)
    requires forall n :: n in FORWARDING_NAMES ==> n !in stripped
    ensures var r := WithHost(WithPeer(stripped["x-forwarded-proto" := ["https"]], t.peerIp))
                       ["x-forwarded-port" := [Plist.Decimal(t.listenerPort)]];
            if name in FORWARDING_NAMES then
              Values(r, name) == ForwardingValues(HostText(stripped), t.(tls := true), name)
              && (name in r <==> Values(r, name) != [])
            else
              (name in r <==> name in stripped) && (name in r ==> r[name] == stripped[name])
  {
    ForwardingNamesDistinct();
    var peer := WithPeer(stripped["x-forwarded-proto" := ["https"]], t.peerIp);
    assert HostText(peer) == HostText(stripped);
  }

  /** After the forwarding filter each forwarding field holds exactly what the connection says, and every other field is
      untouched. */
  lemma ForwardedExactly(h: HeaderMap, t: Transport, name: string)
    ensures var r := Forwarded(h, t);
            if ForwardingName(name) then
              Values(r, name) == ForwardingValues(HostText(h), t, name) && (name in r <==> Values(r, name) != [])
            else
              (name in r <==> name in h) && (name in r ==> r[name] == h[name])
  {
    ForwardingNamesAre(name);
    ForwardingNamesDistinct();
    var stripped := Without(h, Elements(FORWARDING_NAMES));
    assert HostText(stripped) == HostText(h);
    assert name in Elements(FORWARDING_NAMES) <==> name in FORWARDING_NAMES;
    if t.tls {
      ForwardedOverTls(stripped, t, name);
    }
  }

  /** After the whole request filter, Content-Length and Transfer-Encoding never come together, and a request with a body
      has one of them. */
  lemma FramingExclusive(h: HeaderMap, websocket: bool, t: Transport, bodyEmpty: bool)
    ensures var r := UpstreamRequest(h, websocket, t, bodyEmpty);
            && !(CONTENT_LENGTH in r && TRANSFER_ENCODING in r)
            && (!bodyEmpty ==> CONTENT_LENGTH in r || Values(r, TRANSFER_ENCODING) == ["chunked"])
            && (bodyEmpty ==> TRANSFER_ENCODING !in r)
  {
    ForwardingNamesDistinct();
    var stripped := StrippedRequest(h, websocket);
    StripExactly(h, websocket, true, TRANSFER_ENCODING);
    assert BOUNDED_NAMES[5] == TRANSFER_ENCODING;
    ForwardedExactly(stripped, t, TRANSFER_ENCODING);
    ForwardedExactly(stripped, t, CONTENT_LENGTH);
    assert CONTENT_LENGTH != TRANSFER_ENCODING;
  }

  /** The host that the upstream sees: the client's first, if it is visible text and `Connection` does not list `Host`. */
  ghost function ForwardedHost(h: HeaderMap): Option<string> {
    if "host" !in h || h["host"] == [] || ConnectionLists(h, "host") then None
    else if exists i :: 0 <= i < |h["host"][0]| && !VisibleByte(h["host"][0][i]) then None
    else Some(h["host"][0])
  }

  /** The forwarding fields, one by one. */
  predicate ForwardingName(name: string) {
    || name == "forwarded" || name == "x-forwarded-for" || name == "x-forwarded-host" || name == "x-forwarded-port"
    || name == "x-forwarded-prefix" || name == "x-forwarded-proto" || name == "x-real-ip"
  }

  lemma ForwardingNamesAre(name: string)
    ensures name in FORWARDING_NAMES <==> ForwardingName(name)
  {
    assert FORWARDING_NAMES[0] == "forwarded" && FORWARDING_NAMES[4] == "x-forwarded-prefix";
    ForwardingNamesDistinct();
  }

  /** After the whole request filter every forwarding field holds exactly what the connection and that host say; over plain
      HTTP there is none. */
  lemma ClientForwardingGone(h: HeaderMap, websocket: bool, t: Transport, bodyEmpty: bool, name: string)
    requires ForwardingName(name)
    ensures var r := UpstreamRequest(h, websocket, t, bodyEmpty);
            && Values(r, name) == ForwardingValues(ForwardedHost(h), t, name)
            && (name in r <==> Values(r, name) != [])
  {
    ForwardingNamesAre(name);
    ForwardedInFull(StrippedRequest(h, websocket), t, bodyEmpty, name);
    HostAfterStrip(h, websocket);
  }

  lemma ForwardedInFull(stripped: HeaderMap, t: Transport, bodyEmpty: bool, name: string)
    requires name in FORWARDING_NAMES
    ensures var r := Framed(Forwarded(stripped, t), bodyEmpty);
            && Values(r, name) == ForwardingValues(HostText(stripped), t, name)
            && (name in r <==> Values(r, name) != [])
  {
    ForwardingNamesDistinct();
    ForwardedExactly(stripped, t, name);
    FramingElsewhere(Forwarded(stripped, t), bodyEmpty, name);
  }

  lemma HostAfterStrip(h: HeaderMap, websocket: bool)
    ensures HostText(StrippedRequest(h, websocket)) == ForwardedHost(h)
  {
    StripExactly(h, websocket, true, HOST);
    assert HOST != CONNECTION && HOST != UPGRADE && !AlwaysHop(HOST, websocket, true);
    VisibleText(h);
  }

  /** A byte of visible text: a printable ASCII byte or a tab. */
  predicate VisibleByte(ch: char) {
    0x20 <= ch as int <= 0x7E || ch as int == 0x9
  }

  lemma VisibleText(h: HeaderMap)
    ensures HostText(h) == if "host" !in h || h["host"] == [] then None
                           else if exists i :: 0 <= i < |h["host"][0]| && !VisibleByte(h["host"][0][i]) then None
                           else Some(h["host"][0])
  {
  }

  lemma FramingElsewhere(h: HeaderMap, bodyEmpty: bool, name: string)
    requires name != TRANSFER_ENCODING
    ensures (name in Framed(h, bodyEmpty) <==> name in h) && Values(Framed(h, bodyEmpty), name) == Values(h, name)
  {
  }

  /** The whole request filter keeps a WebSocket request valid, and lets no upgrade through for any other request. */
  lemma UpgradeReachesUpstream(h: HeaderMap, websocket: bool, t: Transport, bodyEmpty: bool)
    ensures var r := UpstreamRequest(h, websocket, t, bodyEmpty);
            && (IsValidWebsocketRequest(true, r) <==> websocket)
            && (!websocket ==> CONNECTION !in r && UPGRADE !in r)
  {
    var stripped := StrippedRequest(h, websocket);
    UpgradeNamesDistinct();
    StripExactly(h, websocket, true, CONNECTION);
    StripExactly(h, websocket, true, UPGRADE);
    ForwardedExactly(stripped, t, CONNECTION);
    ForwardedExactly(stripped, t, UPGRADE);
    var r := UpstreamRequest(h, websocket, t, bodyEmpty);
    assert Values(r, CONNECTION) == Values(stripped, CONNECTION);
    assert Values(r, UPGRADE) == Values(stripped, UPGRADE);
    if websocket {
      UpgradeStaysValid(h, true, true, 0);
      SameUpgrade(stripped, r);
    }
  }

  /** Only the `Connection` and `Upgrade` fields say whether an upgrade is asked for. */
  lemma SameUpgrade(h: HeaderMap, other: HeaderMap)
    requires Values(h, CONNECTION) == Values(other, CONNECTION) && Values(h, UPGRADE) == Values(other, UPGRADE)
    ensures IsValidWebsocketRequest(true, h) <==> IsValidWebsocketRequest(true, other)
  {
  }

  lemma UpgradeNamesDistinct()
    ensures CONNECTION !in FORWARDING_NAMES && UPGRADE !in FORWARDING_NAMES
    ensures CONNECTION != TRANSFER_ENCODING && UPGRADE != TRANSFER_ENCODING
  {
  }

  /** The whole request filter on a field that it neither writes nor always drops: the field reaches the upstream, with all
      its values in order, exactly when `Connection` does not list it. */
  lemma EndToEndFieldKept(h: HeaderMap, websocket: bool, t: Transport, bodyEmpty: bool, name: string)
    requires name in h && name !in FORWARDING_NAMES && !AlwaysHop(name, websocket, true)
    requires name != CONNECTION && name != UPGRADE
    ensures var r := UpstreamRequest(h, websocket, t, bodyEmpty);
            (name in r && r[name] == h[name]) <==> !ConnectionLists(h, name)
  {
    StripExactly(h, websocket, true, name);
    ForwardedExactly(StrippedRequest(h, websocket), t, name);
    assert BOUNDED_NAMES[5] == TRANSFER_ENCODING;
  }

  /** The original `Host` is promised to reach the upstream. It does so unless the client's `Connection` field lists it:
      then it is dropped like any listed field. */
  lemma HostKeptUnlessListed(h: HeaderMap, websocket: bool, t: Transport, bodyEmpty: bool)
    requires HOST in h
    ensures var r := UpstreamRequest(h, websocket, t, bodyEmpty);
            (HOST in r && r[HOST] == h[HOST]) <==> !ConnectionLists(h, HOST)
  {
    ForwardingNamesDistinct();
    EndToEndFieldKept(h, websocket, t, bodyEmpty, HOST);
  }

  lemma OnlyElement(name: string)
    ensures HeaderName(name).Some? ==> Lists(name, HeaderName(name).value)
  {
    assert name[0..|name|] == name;
    assert OpensAt(name, 0, 0) && ClosesAt(name, |name|, |name|);
  }

  lemma HostNamed()
    ensures HeaderName("Host") == Some(HOST)
  {
    var s := "Host";
    assert IsHeaderName(s);
    assert Lower(s) == HOST;
  }

  /** A request, as a client may send it, on which `Connection` lists `Host`: no `Host` reaches the upstream. */
  lemma HostDropped(websocket: bool, t: Transport, bodyEmpty: bool)
    ensures var h := map[CONNECTION := ["Host"], HOST := ["a.test"]];
            ConnectionLists(h, HOST) && HOST !in UpstreamRequest(h, websocket, t, bodyEmpty)
  {
    var h: HeaderMap := map[CONNECTION := ["Host"], HOST := ["a.test"]];
    HostNamed();
    OnlyElement("Host");
    assert Lists(Values(h, CONNECTION)[0], HOST);
    ForwardingNamesDistinct();
    StripExactly(h, websocket, true, HOST);
    ForwardedExactly(StrippedRequest(h, websocket), t, HOST);
    assert HOST != CONNECTION && HOST != UPGRADE && HOST != TRANSFER_ENCODING;
  }

  // ---- The whole filters, name by name ----

  /** The fields that are dropped from every message. */
  predicate AlwaysDropped(name: string) {
    || name == "proxy-connection" || name == "keep-alive" || name == "proxy-authenticate" || name == "te"
    || name == "trailer" || name == "transfer-encoding"
  }

  lemma HopNamesAre(name: string, retainUpgrade: bool, request: bool)
    ensures AlwaysHop(name, retainUpgrade, request) <==>
              || AlwaysDropped(name)
              || (request && name == "proxy-authorization")
              || (!retainUpgrade && (name == "connection" || name == "upgrade"))
  {
    assert BOUNDED_NAMES[0] == "proxy-connection" && BOUNDED_NAMES[1] == "keep-alive" && BOUNDED_NAMES[2] == "proxy-authenticate";
    assert BOUNDED_NAMES[3] == "te" && BOUNDED_NAMES[4] == "trailer" && BOUNDED_NAMES[5] == "transfer-encoding";
  }

  /** The values of a field after the rewriting of a request or a response. */
  ghost function StrippedValues(h: HeaderMap, retainUpgrade: bool, request: bool, name: string): seq<string> {
    if name == "connection" then (if retainUpgrade then ["Upgrade"] else [])
    else if name == "upgrade" then (if retainUpgrade then ["websocket"] else [])
    else if AlwaysDropped(name) || (request && name == "proxy-authorization") || ConnectionLists(h, name) then []
    else Values(h, name)
  }

  /** What is left of every field, with all names written out. */
  lemma StrippedNames(h: HeaderMap, retainUpgrade: bool, request: bool, name: string)
    ensures Values(Stripped(h, retainUpgrade, request), name) == StrippedValues(h, retainUpgrade, request, name)
  {
    HopNamesAre(name, retainUpgrade, request);
    StripExactly(h, retainUpgrade, request, name);
  }

  /** The request has a body length of its own that reaches the upstream. */
  ghost predicate LengthKept(h: HeaderMap) {
    "content-length" in h && !ConnectionLists(h, "content-length")
  }

  /** The values of a field that the upstream sees. */
  ghost function UpstreamValues(h: HeaderMap, websocket: bool, t: Transport, bodyEmpty: bool, name: string): seq<string> {
    if name == "transfer-encoding" then (if bodyEmpty || LengthKept(h) then [] else ["chunked"])
    else if ForwardingName(name) then ForwardingValues(ForwardedHost(h), t, name)
    else StrippedValues(h, websocket, true, name)
  }

  lemma LengthStripped(h: HeaderMap, websocket: bool, t: Transport)
    ensures "content-length" in Forwarded(StrippedRequest(h, websocket), t) <==> LengthKept(h)
  {
    HopNamesAre(CONTENT_LENGTH, websocket, true);
    StripExactly(h, websocket, true, CONTENT_LENGTH);
    ForwardedExactly(StrippedRequest(h, websocket), t, CONTENT_LENGTH);
    assert CONTENT_LENGTH != CONNECTION && CONTENT_LENGTH != UPGRADE;
  }

  /** The whole request filter on every field name, with all names and values written out: nothing else is kept, dropped or
      added. */
  lemma UpstreamExactly(h: HeaderMap, websocket: bool, t: Transport, bodyEmpty: bool, name: string)
    ensures Values(UpstreamRequest(h, websocket, t, bodyEmpty), name) == UpstreamValues(h, websocket, t, bodyEmpty, name)
  {
    var stripped := StrippedRequest(h, websocket);
    if name == TRANSFER_ENCODING {
      LengthStripped(h, websocket, t);
      FramingExclusive(h, websocket, t, bodyEmpty);
    } else if ForwardingName(name) {
      ClientForwardingGone(h, websocket, t, bodyEmpty, name);
    } else {
      StrippedNames(h, websocket, true, name);
      ForwardedExactly(stripped, t, name);
      FramingElsewhere(Forwarded(stripped, t), bodyEmpty, name);
    }
  }

  // ---- The test for an upgrade, read off the bytes ----

  lemma TokenIsName(s: string)
    ensures EqualIgnoringCase(s, "upgrade") <==> HeaderName(s) == Some("upgrade")
  {
    LowerFixed("upgrade");
    if Lower(s) == "upgrade" {
      forall i | 0 <= i < |s|
        ensures IsTokenCharacter(s[i])
      {
        assert LowerCharacter(s[i]) == "upgrade"[i];
      }
    }
  }

  lemma ValueTokenIsListed(value: string)
    ensures ValueHasToken(value, "upgrade") <==> Lists(value, "upgrade")
  {
    var pieces := Pieces(value, ',');
    NamesOfPieces(value, "upgrade");
    NamesOfMember(pieces, "upgrade");
    forall i | 0 <= i < |pieces|
      ensures EqualIgnoringCase(Trim(pieces[i]), "upgrade") <==> HeaderName(Trim(pieces[i])) == Some("upgrade")
    {
      TokenIsName(Trim(pieces[i]));
    }
  }

  /** The `Connection` field has the token `upgrade` exactly when it lists it, anywhere in any of its values. */
  lemma UpgradeTokenIsListed(h: HeaderMap)
    ensures HeaderContainsToken(h, "connection", "upgrade") <==> ConnectionLists(h, "upgrade")
  {
    var values := Values(h, "connection");
    forall i | 0 <= i < |values|
      ensures ValueHasToken(values[i], "upgrade") <==> Lists(values[i], "upgrade")
    {
      ValueTokenIsListed(values[i]);
    }
  }

  /** The headers ask for a WebSocket upgrade: some `Upgrade` value is "websocket" in any letter case, and some `Connection`
      value lists `upgrade`. */
  ghost predicate AsksForWebsocket(h: HeaderMap) {
    && (exists i :: 0 <= i < |Values(h, "upgrade")| && Lower(Values(h, "upgrade")[i]) == "websocket")
    && ConnectionLists(h, "upgrade")
  }

  /** A request or response is taken for a WebSocket upgrade exactly when it is HTTP/1.1, or has status 101, and its headers
      ask for one. */
  lemma WebsocketExactly(h: HeaderMap, http11: bool, status: nat)
    ensures IsValidWebsocketRequest(http11, h) <==> http11 && AsksForWebsocket(h)
    ensures IsValidWebsocketResponse(status, h) <==> status == 101 && AsksForWebsocket(h)
  {
    UpgradeTokenIsListed(h);
    LowerFixed("websocket");
    assert HasWebsocketUpgrade(h) <==>
           exists i :: 0 <= i < |Values(h, "upgrade")| && Lower(Values(h, "upgrade")[i]) == "websocket";
  }

  lemma UpgradeNamed()
    ensures HeaderName("Upgrade") == Some("upgrade")
  {
    UpgradeListed();
  }

  lemma SecondElement(first: string, name: string)
    ensures HeaderName(name).Some? ==> Lists(first + ", " + name, HeaderName(name).value)
  {
    var v := first + ", " + name;
    var a := |first| + 2;
    assert v[a..|v|] == name;
    assert OpensAt(v, |first| + 1, a) && ClosesAt(v, |v|, |v|);
  }

  /** An upgrade listed behind anything else counts. */
  lemma UpgradeListedSecond(first: string)
    ensures IsValidWebsocketRequest(true, map["connection" := [first + ", " + "Upgrade"], "upgrade" := ["websocket"]])
  {
    var h: HeaderMap := map["connection" := [first + ", " + "Upgrade"], "upgrade" := ["websocket"]];
    SecondElement(first, "Upgrade");
    UpgradeNamed();
    LowerFixed("websocket");
    assert Lists(Values(h, "connection")[0], "upgrade");
    assert Lower(Values(h, "upgrade")[0]) == "websocket";
    WebsocketExactly(h, true, 101);
  }

  // ---- Character classes ----

  /** The characters that the header code tells apart, by their codes: the white space that it trims, and the characters of a
      field name, which are all visible ones but the delimiters of section 5.6.2 of RFC 9110. */
  lemma HeaderCharacters(ch: char)
    ensures IsAsciiWhitespace(ch) <==> ch as int in {9, 10, 12, 13, 32}
    ensures IsTokenCharacter(ch) <==> 0x21 <= ch as int <= 0x7E && ch !in "\"(),/:;<=>?@[\\]{}"
    ensures LowerCharacter(ch) as int == if 65 <= ch as int <= 90 then ch as int + 32 else ch as int
  {
  }

  lemma HeaderNamesAre(s: string)
    ensures HeaderName(s).Some? <==> 1 <= |s| <= 65_535 && forall i :: 0 <= i < |s| ==> IsTokenCharacter(s[i])
    ensures HeaderName(s).Some? ==> HeaderName(s).value == Lower(s)
  {
  }
}
