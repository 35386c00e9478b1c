/** Host names and routing (src/config.rs). */
module Routing {
  import opened Clock
  import opened Strings
  import Plist

  const MAX_HOST_LENGTH: nat := 253
  const MAX_LABEL_LENGTH: nat := 63

  // ---- Numbers ----

  predicate IsDigit(ch: char) {
    '0' <= ch <= '9'
  }

  predicate AllDigits(s: string) {
    s != "" && forall i :: 0 <= i < |s| ==> IsDigit(s[i])
  }

  function DecimalValue(s: string): nat
    requires forall i :: 0 <= i < |s| ==> IsDigit(s[i])
  {
    if s == "" then 0
    else
      assert IsDigit(s[|s| - 1]);
      10 * DecimalValue(s[..|s| - 1]) + (s[|s| - 1] as int - '0' as int)
  }

  /** A port number as the standard library parses it: decimal digits, with an optional plus sign and leading zeros. */
  function ParsePort(s: string): Option<nat> {
    var digits := if s != "" && s[0] == '+' then s[1..] else s;
    if AllDigits(digits) && DecimalValue(digits) < 0x1_0000 then Some(DecimalValue(digits)) else None
  }

  // ---- Host names ----

  predicate IsLabelCharacter(ch: char) {
    'a' <= ch <= 'z' || 'A' <= ch <= 'Z' || IsDigit(ch) || ch == '-'
  }

  predicate IsLabel(s: string) {
    && 0 < |s| <= MAX_LABEL_LENGTH
    && (forall i :: 0 <= i < |s| ==> IsLabelCharacter(s[i]))
    && s[0] != '-' && s[|s| - 1] != '-'
  }

  predicate IsOctet(s: string) {
    && |s| <= 3 && AllDigits(s)
    && (|s| > 1 ==> s[0] != '0')
    && DecimalValue(s) <= 255
  }

  /** A literal IPv4 address. A literal IPv6 address holds a colon, which no host name does. */
  predicate IsIpv4(s: string) {
    var pieces := Pieces(s, '.');
    |pieces| == 4 && forall i :: 0 <= i < 4 ==> IsOctet(pieces[i])
  }

  predicate LabelsValid(s: string) {
    var pieces := Pieces(s, '.');
    forall i :: 0 <= i < |pieces| ==> IsLabel(pieces[i])
  }

  function WithoutTerminalDot(s: string): string {
    if s != "" && s[|s| - 1] == '.' then s[..|s| - 1] else s
  }

  function NormalizeDnsName(host: string): Option<string> {
    var name := WithoutTerminalDot(host);
    if name == "" || |name| > MAX_HOST_LENGTH || IsIpv4(name) then None
    else if LabelsValid(name) then Some(Lower(name))
    else None
  }

  // ---- Authorities ----

  predicate IsAscii(s: string) {
    forall i :: 0 <= i < |s| ==> s[i] < 0x80 as char
  }

  /** The characters that the modelled authority grammar admits: unreserved, sub-delimiters and the colon (section 3.2 of
      RFC 3986). */
  predicate IsAuthorityCharacter(ch: char) {
    || 'a' <= ch <= 'z' || 'A' <= ch <= 'Z' || IsDigit(ch)
    || ch == '-' || ch == '.' || ch == '_' || ch == '~' || ch == '!' || ch == '$' || ch == '&' || ch == '\''
    || ch == '(' || ch == ')' || ch == '*' || ch == '+' || ch == ',' || ch == ';' || ch == '=' || ch == ':'
  }

  datatype Authority = Authority(host: string, portText: Option<string>)

  /** An authority without user information: a host, and at most one colon with a port behind it. */
  function ParseAuthority(s: string): Option<Authority> {
    var colon := PieceEnd(s, ':', 0);
    if s == "" || !(forall i :: 0 <= i < |s| ==> IsAuthorityCharacter(s[i])) then None
    else if colon == |s| then Some(Authority(s, None))
    else if PieceEnd(s, ':', colon + 1) < |s| then None
    else Some(Authority(s[..colon], Some(s[colon + 1..])))
  }

  /** `allowedPort` is the listener's port for a request and none for the configuration. */
  function NormalizeAuthority(raw: string, allowedPort: Option<nat>): Option<string> {
    if raw == "" || !IsAscii(raw) || '@' in raw then None
    else
      match ParseAuthority(raw)
      case None => None
      case Some(Authority(host, portText)) =>
        if raw[|raw| - 1] == ':' then None
        else if portText.Some? && ParsePort(portText.value).None? then None
        else if portText.Some? && (allowedPort.None? || ParsePort(portText.value).value != allowedPort.value) then None
        else NormalizeDnsName(host)
  }

  function NormalizeConfigHost(host: string): Option<string> {
    NormalizeAuthority(host, None)
  }

  function NormalizeRequestHost(host: string, listenerPort: nat): Option<string> {
    NormalizeAuthority(host, Some(listenerPort))
  }

  // ---- The language, stated on its own ----

  /** A canonical host name: lower-case labels of letters, digits and inner hyphens between single dots, within the length
      limits (compare section 2.3.4 of RFC 1035), and no IPv4 address. */
  ghost predicate Canonical(c: string) {
    && 1 <= |c| <= 253
    && !DottedQuad(c)
    && (forall i :: 0 <= i < |c| ==> !(65 <= c[i] as int <= 90))
    && (forall i: nat, j: nat {:trigger c[i..j]} :: IsPiece(c, '.', i, j) ==> HostLabel(c[i..j]))
  }

  /** One to 63 letters, digits and hyphens, with no hyphen at either end. */
  predicate HostLabel(s: string) {
    && 1 <= |s| <= 63
    && (forall i :: 0 <= i < |s| ==>
          var n := s[i] as int; n == 45 || 48 <= n <= 57 || 65 <= n <= 90 || 97 <= n <= 122)
    && s[0] != '-' && s[|s| - 1] != '-'
  }

  /** A literal IPv4 address: four numbers up to 255 in decimal, with single dots between them. */
  ghost predicate DottedQuad(s: string) {
    exists a: nat, b: nat, c: nat, d: nat :: QuadOf(s, a, b, c, d)
  }

  predicate QuadOf(s: string, a: nat, b: nat, c: nat, d: nat) {
    && a <= 255 && b <= 255 && c <= 255 && d <= 255
    && s == Plist.Decimal(a) + ("." + (Plist.Decimal(b) + ("." + (Plist.Decimal(c) + ("." + Plist.Decimal(d))))))
  }

  predicate AllZeros(s: string) {
    forall i :: 0 <= i < |s| ==> s[i] == '0'
  }

  predicate WritesWith(s: string, zeros: string, n: nat) {
    AllZeros(zeros) && s == zeros + Plist.Decimal(n)
  }

  /** The text writes a number in decimal, with any zeros in front. */
  ghost predicate Writes(s: string, n: nat) {
    exists zeros: string :: WritesWith(s, zeros, n)
  }

  /** The text writes a port: in decimal, with any zeros in front, and at most one plus sign before them. */
  ghost predicate WritesPort(s: string, port: nat) {
    port <= 65_535 && (Writes(s, port) || (s != "" && s[0] == '+' && Writes(s[1..], port)))
  }

  ghost predicate PortSuffix(s: string, allowedPort: Option<nat>) {
    s == "" || (allowedPort.Some? && s[0] == ':' && WritesPort(s[1..], allowedPort.value))
  }

  ghost predicate SpelledAs(raw: string, v: string, dot: string, suffix: string, c: string, allowedPort: Option<nat>) {
    && raw == v + dot + suffix
    && EqualIgnoringCase(v, c)
    && (dot == "" || dot == ".")
    && PortSuffix(suffix, allowedPort)
  }

  /** The spelling `raw` of the host `c`: a case variant of it, at most one terminal dot, and at most one port, which must be
      the allowed one. */
  ghost predicate Spells(raw: string, c: string, allowedPort: Option<nat>) {
    exists v: string, dot: string, suffix: string :: SpelledAs(raw, v, dot, suffix, c, allowedPort)
  }

  // ---- What numbers a text denotes ----

  lemma DigitOf(d: nat)
    requires d < 10
    ensures IsDigit(Plist.Digit(d)) && Plist.Digit(d) as int == '0' as int + d
  {
  }

  lemma DecimalValueOfLast(s: string)
    requires AllDigits(s)
    ensures IsDigit(s[|s| - 1])
    ensures |s| == 1 ==> DecimalValue(s) == s[0] as int - '0' as int
    ensures |s| > 1 ==>
              && AllDigits(s[..|s| - 1])
              && DecimalValue(s) == 10 * DecimalValue(s[..|s| - 1]) + (s[|s| - 1] as int - '0' as int)
  {
    if |s| == 1 {
      assert DecimalValue(s[..0]) == 0;
    }
  }

  /** One more digit behind a number that is not zero. */
  lemma DecimalAppend(n: nat, d: nat)
    requires n > 0 && d < 10
    ensures Plist.Decimal(10 * n + d) == Plist.Decimal(n) + [Plist.Digit(d)]
  {
    assert (10 * n + d) / 10 == n && (10 * n + d) % 10 == d;
  }

  /** What the printer writes for a number is its value, whatever zeros stand in front. */
  lemma {:induction false} WrittenValue(zeros: string, n: nat)
    requires AllZeros(zeros)
    ensures var s := zeros + Plist.Decimal(n); AllDigits(s) && DecimalValue(s) == n
    decreases n
  {
    var s := zeros + Plist.Decimal(n);
    DigitOf(n % 10);
    if n < 10 {
      assert s[..|s| - 1] == zeros;
      ZerosAreZero(zeros);
    } else {
      WrittenValue(zeros, n / 10);
      assert s == zeros + Plist.Decimal(n / 10) + [Plist.Digit(n % 10)];
      assert s[..|s| - 1] == zeros + Plist.Decimal(n / 10);
    }
  }

  lemma {:induction false} ZerosAreZero(zeros: string)
    requires AllZeros(zeros)
    ensures forall i :: 0 <= i < |zeros| ==> IsDigit(zeros[i])
    ensures DecimalValue(zeros) == 0
  {
    if zeros != "" {
      ZerosAreZero(zeros[..|zeros| - 1]);
    }
  }

  /** One more digit behind any written number. */
  lemma DigitBehind(t: string, before: string, n: nat, d: nat) returns (zeros: string)
    requires d < 10 && WritesWith(t, before, n)
    ensures WritesWith(t + [Plist.Digit(d)], zeros, 10 * n + d)
  {
    if n == 0 {
      zeros := before + "0";
    } else {
      zeros := before;
      DecimalAppend(n, d);
      assert t + [Plist.Digit(d)] == zeros + (Plist.Decimal(n) + [Plist.Digit(d)]);
    }
  }

  /** A text of digits writes its value. */
  lemma {:induction false} ValueWritten(s: string) returns (zeros: string)
    requires AllDigits(s)
    ensures WritesWith(s, zeros, DecimalValue(s))
  {
    DecimalValueOfLast(s);
    var d := s[|s| - 1] as int - '0' as int;
    DigitOf(d);
    if |s| == 1 {
      zeros := "";
    } else {
      var t := s[..|s| - 1];
      var before := ValueWritten(t);
      zeros := DigitBehind(t, before, DecimalValue(t), d);
      assert s == t + [Plist.Digit(d)];
    }
  }

  lemma DigitsExact(s: string, n: nat)
    ensures AllDigits(s) && DecimalValue(s) == n <==> Writes(s, n)
  {
    if AllDigits(s) {
      var zeros := ValueWritten(s);
    }
    if zeros: string :| WritesWith(s, zeros, n) {
      WrittenValue(zeros, n);
    }
  }

  /** A port text parses to exactly the port that it writes. */
  lemma ParsePortExact(s: string, port: nat)
    ensures ParsePort(s) == Some(port) <==> WritesPort(s, port)
  {
    DigitsExact(s, port);
    if s != "" {
      DigitsExact(s[1..], port);
      assert AllDigits(s) ==> IsDigit(s[0]);
    }
  }

  lemma DecimalShape(n: nat)
    requires n <= 255
    ensures AllDigits(Plist.Decimal(n)) && DecimalValue(Plist.Decimal(n)) == n
    ensures 1 <= |Plist.Decimal(n)| <= 3
    ensures |Plist.Decimal(n)| > 1 ==> Plist.Decimal(n)[0] != '0'
  {
    WrittenValue("", n);
    assert "" + Plist.Decimal(n) == Plist.Decimal(n);
    if n >= 10 {
      ShortDecimal(n / 10);
    }
  }

  lemma ShortDecimal(n: nat)
    requires 0 < n < 100
    ensures |Plist.Decimal(n)| == (if n < 10 then 1 else 2) && Plist.Decimal(n)[0] != '0'
  {
    DigitOf(n % 10);
    if n >= 10 {
      DigitOf(n / 10);
    }
  }

  lemma ZeroInFront(zeros: string, t: string)
    requires AllZeros(zeros) && zeros != "" && t != ""
    ensures |zeros + t| > 1 && (zeros + t)[0] == '0'
  {
  }

  lemma OctetWritten(s: string) returns (n: nat)
    requires IsOctet(s)
    ensures n <= 255 && s == Plist.Decimal(n)
  {
    n := DecimalValue(s);
    var zeros := ValueWritten(s);
    if zeros != "" {
      ZeroInFront(zeros, Plist.Decimal(n));
    }
  }

  lemma WrittenOctet(n: nat)
    requires n <= 255
    ensures IsOctet(Plist.Decimal(n)) && Free(Plist.Decimal(n), '.', 0, |Plist.Decimal(n)|)
  {
    DecimalShape(n);
  }

  lemma {:induction false} PiecesShift(p: string, t: string, i: nat)
    requires i <= |t|
    ensures PiecesFrom(p + t, '.', |p| + i) == PiecesFrom(t, '.', i)
    decreases |t| - i
  {
    var s := p + t;
    var n := PieceEnd(t, '.', i);
    assert forall m :: i <= m < |t| ==> s[|p| + m] == t[m];
    PieceEndIs(s, '.', |p| + i, |p| + n);
    assert s[|p| + i..|p| + n] == t[i..n];
    if n < |t| {
      PiecesShift(p, t, n + 1);
    }
  }

  /** The first piece, the dot behind it, and the pieces of the rest. */
  lemma PiecesOfJoin(x: string, y: string)
    requires Free(x, '.', 0, |x|)
    ensures Pieces(x + ("." + y), '.') == [x] + Pieces(y, '.')
  {
    var s := x + ("." + y);
    assert forall m :: 0 <= m < |x| ==> s[m] == x[m];
    PieceEndIs(s, '.', 0, |x|);
    assert s[0..|x|] == x;
    assert s == (x + ".") + y;
    PiecesShift(x + ".", y, 0);
  }

  lemma FirstPiece(s: string) returns (x: string, y: string)
    requires |Pieces(s, '.')| > 1
    ensures s == x + ("." + y) && Free(x, '.', 0, |x|) && Pieces(s, '.') == [x] + Pieces(y, '.')
  {
    var n := PieceEnd(s, '.', 0);
    x, y := s[..n], s[n + 1..];
    assert s[n] == '.';
    assert s == x + ("." + y);
    PiecesOfJoin(x, y);
  }

  lemma SomePiece(s: string, i: nat)
    requires i <= |s|
    ensures |PiecesFrom(s, '.', i)| > 0
  {
  }

  lemma OnlyPiece(s: string)
    requires |Pieces(s, '.')| == 1
    ensures Pieces(s, '.') == [s]
  {
    var n := PieceEnd(s, '.', 0);
    assert s[0..|s|] == s;
    if n < |s| {
      SomePiece(s, n + 1);
    }
  }

  lemma QuadFromPieces(s: string)
    requires IsIpv4(s)
    ensures DottedQuad(s)
  {
    var x0, y0 := FirstPiece(s);
    var x1, y1 := FirstPiece(y0);
    var x2, y2 := FirstPiece(y1);
    OnlyPiece(y2);
    var pieces := Pieces(s, '.');
    assert pieces == [x0] + ([x1] + ([x2] + [y2]));
    assert pieces[0] == x0 && pieces[1] == x1 && pieces[2] == x2 && pieces[3] == y2;
    var a := OctetWritten(x0);
    var b := OctetWritten(x1);
    var c := OctetWritten(x2);
    var d := OctetWritten(y2);
    assert QuadOf(s, a, b, c, d);
  }

  lemma PiecesFromQuad(s: string, a: nat, b: nat, c: nat, d: nat)
    requires QuadOf(s, a, b, c, d)
    ensures IsIpv4(s)
  {
    WrittenOctet(a);
    WrittenOctet(b);
    WrittenOctet(c);
    WrittenOctet(d);
    var y2 := Plist.Decimal(d);
    var y1 := Plist.Decimal(c) + ("." + y2);
    var y0 := Plist.Decimal(b) + ("." + y1);
    PiecesOfJoin(Plist.Decimal(a), y0);
    PiecesOfJoin(Plist.Decimal(b), y1);
    PiecesOfJoin(Plist.Decimal(c), y2);
    SolePiece(y2, '.');
    var pieces := Pieces(s, '.');
    assert pieces == [Plist.Decimal(a)] + ([Plist.Decimal(b)] + ([Plist.Decimal(c)] + [y2]));
    assert pieces[0] == Plist.Decimal(a) && pieces[1] == Plist.Decimal(b) && pieces[2] == Plist.Decimal(c) && pieces[3] == y2;
  }

  /** The test for a literal IPv4 address meets exactly the dotted quads. */
  lemma Ipv4Exact(s: string)
    ensures IsIpv4(s) <==> DottedQuad(s)
  {
    if IsIpv4(s) {
      QuadFromPieces(s);
    }
    if a: nat, b: nat, c: nat, d: nat :| QuadOf(s, a, b, c, d) {
      PiecesFromQuad(s, a, b, c, d);
    }
  }

  lemma LabelIsHostLabel(s: string)
    ensures IsLabel(s) <==> HostLabel(s)
  {
  }

  // ---- Letter case changes neither pieces nor labels ----

  lemma {:induction false} PieceEndLower(s: string, i: nat)
    requires i <= |s|
    ensures PieceEnd(Lower(s), '.', i) == PieceEnd(s, '.', i)
    decreases |s| - i
  {
    if i < |s| && s[i] != '.' {
      PieceEndLower(s, i + 1);
    }
  }

  predicate LowerEach(p: seq<string>, q: seq<string>) {
    |p| == |q| && forall k :: 0 <= k < |p| ==> q[k] == Lower(p[k])
  }

  lemma LowerEachCons(head: string, p: seq<string>, q: seq<string>)
    requires LowerEach(p, q)
    ensures LowerEach([head] + p, [Lower(head)] + q)
  {
  }

  lemma LowerSlice(s: string, i: nat, j: nat)
    requires i <= j <= |s|
    ensures Lower(s)[i..j] == Lower(s[i..j])
  {
  }

  lemma {:induction false} PiecesLower(s: string, i: nat)
    requires i <= |s|
    ensures LowerEach(PiecesFrom(s, '.', i), PiecesFrom(Lower(s), '.', i))
    decreases |s| - i
  {
    PieceEndLower(s, i);
    var n := PieceEnd(s, '.', i);
    LowerSlice(s, i, n);
    if n < |s| {
      PiecesLower(s, n + 1);
      var p, q := PiecesFrom(s, '.', n + 1), PiecesFrom(Lower(s), '.', n + 1);
      LowerEachCons(s[i..n], p, q);
      assert PiecesFrom(s, '.', i) == [s[i..n]] + p;
      assert PiecesFrom(Lower(s), '.', i) == [Lower(s)[i..n]] + q;
    } else {
      assert PiecesFrom(s, '.', i) == [s[i..n]];
      assert PiecesFrom(Lower(s), '.', i) == [Lower(s)[i..n]];
    }
  }

  lemma LabelLower(s: string)
    ensures IsLabel(Lower(s)) <==> IsLabel(s)
  {
    if IsLabel(Lower(s)) {
      assert forall i :: 0 <= i < |s| ==> IsLabelCharacter(Lower(s)[i]);
    }
  }

  lemma OctetLower(s: string)
    ensures IsOctet(Lower(s)) <==> IsOctet(s)
  {
    if AllDigits(s) {
      LowerFixed(s);
    }
    if AllDigits(Lower(s)) {
      forall i | 0 <= i < |s|
        ensures IsDigit(s[i])
      {
        assert IsDigit(Lower(s)[i]);
      }
      LowerFixed(s);
    }
  }

  lemma HostLower(s: string)
    ensures IsIpv4(Lower(s)) <==> IsIpv4(s)
    ensures LabelsValid(Lower(s)) <==> LabelsValid(s)
  {
    PiecesLower(s, 0);
    var p, q := Pieces(s, '.'), Pieces(Lower(s), '.');
    forall k | 0 <= k < |p|
      ensures IsOctet(q[k]) <==> IsOctet(p[k])
      ensures IsLabel(q[k]) <==> IsLabel(p[k])
    {
      OctetLower(p[k]);
      LabelLower(p[k]);
    }
  }

  lemma LowerTwice(s: string)
    ensures Lower(Lower(s)) == Lower(s)
  {
  }

  // ---- Valid labels and canonical names ----

  lemma LabelsArePieces(s: string)
    ensures LabelsValid(s) <==> forall i: nat, j: nat {:trigger s[i..j]} :: IsPiece(s, '.', i, j) ==> IsLabel(s[i..j])
  {
    var pieces := Pieces(s, '.');
    if LabelsValid(s) {
      forall i: nat, j: nat {:trigger s[i..j]} | IsPiece(s, '.', i, j)
        ensures IsLabel(s[i..j])
      {
        PieceListed(s, '.', 0, i, j);
      }
    }
    if forall i: nat, j: nat {:trigger s[i..j]} :: IsPiece(s, '.', i, j) ==> IsLabel(s[i..j]) {
      forall k | 0 <= k < |pieces|
        ensures IsLabel(pieces[k])
      {
        var i, j := PieceFound(s, '.', 0, pieces[k]);
      }
    }
  }

  lemma CanonicalIff(c: string)
    ensures Canonical(c) <==> 0 < |c| <= MAX_HOST_LENGTH && !IsIpv4(c) && LabelsValid(c) && Lower(c) == c
  {
    LabelsArePieces(c);
    Ipv4Exact(c);
    forall i: nat, j: nat {:trigger c[i..j]} | IsPiece(c, '.', i, j)
      ensures IsLabel(c[i..j]) <==> HostLabel(c[i..j])
    {
      LabelIsHostLabel(c[i..j]);
    }
    if Lower(c) == c {
      forall i | 0 <= i < |c|
        ensures !('A' <= c[i] <= 'Z')
      {
        assert Lower(c)[i] == c[i];
      }
    }
  }

  /** The piece around any position. */
  lemma {:induction false} PieceAround(s: string, i: nat) returns (a: nat)
    requires i < |s| && s[i] != '.'
    ensures a <= i && IsPiece(s, '.', a, PieceEnd(s, '.', i))
  {
    a := i;
    while a > 0 && s[a - 1] != '.'
      invariant a <= i && Free(s, '.', a, i + 1)
    {
      a := a - 1;
    }
  }

  lemma LastPiece(s: string) returns (a: nat)
    ensures a <= |s| && IsPiece(s, '.', a, |s|)
  {
    a := |s|;
    while a > 0 && s[a - 1] != '.'
      invariant a <= |s| && Free(s, '.', a, |s|)
    {
      a := a - 1;
    }
  }

  /** Every character of a valid name is a label character or a dot, and the last one is no dot. */
  lemma ValidNameCharacters(s: string)
    requires LabelsValid(s) && s != ""
    ensures forall i :: 0 <= i < |s| ==> IsLabelCharacter(s[i]) || s[i] == '.'
    ensures s[|s| - 1] != '.'
  {
    LabelsArePieces(s);
    forall i | 0 <= i < |s|
      ensures IsLabelCharacter(s[i]) || s[i] == '.'
    {
      if s[i] != '.' {
        var a := PieceAround(s, i);
        var b := PieceEnd(s, '.', i);
        assert IsLabel(s[a..b]);
        assert s[a..b][i - a] == s[i];
      }
    }
    var a := LastPiece(s);
    assert IsLabel(s[a..|s|]);
  }

  lemma NormalizeDnsNameExact(host: string, c: string)
    ensures NormalizeDnsName(host) == Some(c) <==>
              Canonical(c) && (Lower(host) == c || Lower(host) == c + ".")
  {
    CanonicalIff(c);
    var name := WithoutTerminalDot(host);
    HostLower(name);
    LowerTwice(name);
    if NormalizeDnsName(host) == Some(c) {
      assert name != host ==> Lower(host) == Lower(name) + ".";
    }
    if Canonical(c) && (Lower(host) == c || Lower(host) == c + ".") {
      ValidNameCharacters(c);
      TerminalDot(host, c);
    }
  }

  /** The name that is left when a terminal dot is taken off a case variant of `c` or of `c` with a dot. */
  lemma TerminalDot(host: string, c: string)
    requires c != "" && c[|c| - 1] != '.' && (Lower(host) == c || Lower(host) == c + ".")
    ensures Lower(WithoutTerminalDot(host)) == c
  {
    if Lower(host) == c {
      assert Lower(host)[|host| - 1] == c[|c| - 1];
    } else {
      assert Lower(host)[|c|] == '.';
      assert Lower(host[..|c|]) == Lower(host)[..|c|];
    }
  }

  // ---- Authorities ----

  lemma PieceEndIs(s: string, sep: char, i: nat, n: nat)
    requires i <= n <= |s| && Free(s, sep, i, n) && (n == |s| || s[n] == sep)
    ensures PieceEnd(s, sep, i) == n
  {
  }

  lemma PortCharacters(s: string)
    requires ParsePort(s).Some?
    ensures s != "" && forall i :: 0 <= i < |s| ==> IsDigit(s[i]) || s[i] == '+'
  {
    var digits := if s[0] == '+' then s[1..] else s;
    forall i | 0 <= i < |s|
      ensures IsDigit(s[i]) || s[i] == '+'
    {
      if s[0] == '+' {
        if i > 0 {
          assert IsDigit(digits[i - 1]);
        }
      } else {
        assert IsDigit(digits[i]);
      }
    }
  }

  /** The parts of an authority put together again. */
  lemma AuthorityParts(raw: string) returns (suffix: string)
    requires ParseAuthority(raw).Some?
    ensures var a := ParseAuthority(raw).value;
            && raw == a.host + suffix
            && suffix == (if a.portText.None? then "" else ":" + a.portText.value)
  {
    var colon := PieceEnd(raw, ':', 0);
    suffix := raw[colon..];
    if colon < |raw| {
      assert suffix == [':'] + raw[colon + 1..];
    } else {
      assert suffix == "";
    }
  }

  /** The parts of a host that is a case variant of `c`, with or without a terminal dot. */
  lemma HostParts(host: string, c: string) returns (v: string, dot: string)
    requires Canonical(c) && (Lower(host) == c || Lower(host) == c + ".")
    ensures host == v + dot && (dot == "" || dot == ".") && EqualIgnoringCase(v, c)
  {
    CanonicalIff(c);
    if Lower(host) == c {
      v, dot := host, "";
    } else {
      v, dot := host[..|c|], ".";
      assert Lower(host)[|c|] == '.';
      assert Lower(v) == Lower(host)[..|c|];
    }
  }

  lemma AuthoritySpells(raw: string, c: string, allowedPort: Option<nat>)
    requires NormalizeAuthority(raw, allowedPort) == Some(c)
    ensures Canonical(c) && Spells(raw, c, allowedPort)
  {
    var authority := ParseAuthority(raw).value;
    var suffix := AuthorityParts(raw);
    NormalizeDnsNameExact(authority.host, c);
    var v, dot := HostParts(authority.host, c);
    if authority.portText.Some? {
      assert suffix[1..] == authority.portText.value;
      ParsePortExact(suffix[1..], allowedPort.value);
    }
    assert SpelledAs(raw, v, dot, suffix, c, allowedPort);
  }

  lemma VariantCharacters(v: string, c: string)
    requires Canonical(c) && EqualIgnoringCase(v, c)
    ensures |v| == |c| && Lower(v) == c
    ensures forall i :: 0 <= i < |v| ==> IsLabelCharacter(v[i]) || v[i] == '.'
  {
    CanonicalIff(c);
    ValidNameCharacters(c);
    forall i | 0 <= i < |v|
      ensures IsLabelCharacter(v[i]) || v[i] == '.'
    {
      assert Lower(v)[i] == c[i];
    }
  }

  predicate NameCharacters(s: string) {
    forall i :: 0 <= i < |s| ==> IsLabelCharacter(s[i]) || s[i] == '.'
  }

  predicate AuthorityText(s: string) {
    forall i :: 0 <= i < |s| ==> IsAuthorityCharacter(s[i]) && s[i] < 0x80 as char
  }

  lemma NameIsAuthorityText(s: string)
    requires NameCharacters(s)
    ensures AuthorityText(s) && Free(s, ':', 0, |s|)
  {
  }

  lemma SuffixIsAuthorityText(suffix: string, allowedPort: Option<nat>)
    requires PortSuffix(suffix, allowedPort)
    ensures AuthorityText(suffix)
    ensures suffix != "" ==> |suffix| > 1 && suffix[0] == ':' && Free(suffix, ':', 1, |suffix|)
  {
    if suffix != "" {
      ParsePortExact(suffix[1..], allowedPort.value);
      PortCharacters(suffix[1..]);
      assert forall i :: 1 <= i < |suffix| ==> suffix[i] == suffix[1..][i - 1];
    }
  }

  lemma AuthorityTextJoined(a: string, b: string)
    requires AuthorityText(a) && AuthorityText(b)
    ensures AuthorityText(a + b) && IsAscii(a + b) && '@' !in a + b
  {
    forall i | 0 <= i < |a + b|
      ensures IsAuthorityCharacter((a + b)[i]) && (a + b)[i] < 0x80 as char
    {
      assert (a + b)[i] == if i < |a| then a[i] else b[i - |a|];
    }
  }

  /** The host and the port of a spelling, found at its only colon. */
  lemma SpellingParses(host: string, suffix: string, allowedPort: Option<nat>)
    requires host != "" && NameCharacters(host) && PortSuffix(suffix, allowedPort)
    ensures var raw := host + suffix;
            && IsAscii(raw) && '@' !in raw && raw[|raw| - 1] != ':'
            && ParseAuthority(raw) == Some(Authority(host, if suffix == "" then None else Some(suffix[1..])))
  {
    var raw := host + suffix;
    NameIsAuthorityText(host);
    SuffixIsAuthorityText(suffix, allowedPort);
    AuthorityTextJoined(host, suffix);
    assert forall i :: 0 <= i < |host| ==> raw[i] == host[i];
    assert forall i :: |host| <= i < |raw| ==> raw[i] == suffix[i - |host|];
    PieceEndIs(raw, ':', 0, |host|);
    if suffix != "" {
      PieceEndIs(raw, ':', |host| + 1, |raw|);
      assert raw[..|host|] == host && raw[|host| + 1..] == suffix[1..];
    } else {
      assert raw == host;
    }
  }

  lemma LowerWithDot(v: string, dot: string, c: string)
    requires Lower(v) == c && (dot == "" || dot == ".")
    ensures Lower(v + dot) == if dot == "" then c else c + "."
  {
    assert dot == "" ==> v + dot == v;
  }

  /** A port allowed, or none, leaves the host to decide. */
  lemma HostOfSpelling(host: string, suffix: string, allowedPort: Option<nat>)
    requires host != "" && NameCharacters(host) && PortSuffix(suffix, allowedPort)
    ensures NormalizeAuthority(host + suffix, allowedPort) == NormalizeDnsName(host)
  {
    SpellingParses(host, suffix, allowedPort);
    if suffix != "" {
      ParsePortExact(suffix[1..], allowedPort.value);
    }
  }

  lemma SpellsNormalizes(raw: string, v: string, dot: string, suffix: string, c: string, allowedPort: Option<nat>)
    requires Canonical(c) && SpelledAs(raw, v, dot, suffix, c, allowedPort)
    ensures NormalizeAuthority(raw, allowedPort) == Some(c)
  {
    VariantCharacters(v, c);
    var host := v + dot;
    assert NameCharacters(host);
    assert raw == host + suffix;
    LowerWithDot(v, dot, c);
    NormalizeDnsNameExact(host, c);
    HostOfSpelling(host, suffix, allowedPort);
  }

  /** Exact language of routing: a request host, or a configured host when no port is allowed, normalises to `c` exactly
      when `c` is a canonical name and the host spells it. A port may be written with leading zeros or a plus sign. */
  lemma NormalizeExact(raw: string, c: string, allowedPort: Option<nat>)
    ensures NormalizeAuthority(raw, allowedPort) == Some(c) <==> Canonical(c) && Spells(raw, c, allowedPort)
  {
    if NormalizeAuthority(raw, allowedPort) == Some(c) {
      AuthoritySpells(raw, c, allowedPort);
    }
    if Canonical(c) && Spells(raw, c, allowedPort) {
      var v: string, dot: string, suffix: string :| SpelledAs(raw, v, dot, suffix, c, allowedPort);
      SpellsNormalizes(raw, v, dot, suffix, c, allowedPort);
    }
  }

  /** A spelling is printable ASCII with no space. */
  lemma SpellingCharacters(raw: string, c: string, allowedPort: Option<nat>)
    requires Canonical(c) && Spells(raw, c, allowedPort)
    ensures forall i :: 0 <= i < |raw| ==> 0x20 < raw[i] as int < 0x7F
  {
    NormalizeExact(raw, c, allowedPort);
    assert ParseAuthority(raw).Some?;
    forall i | 0 <= i < |raw|
      ensures 0x20 < raw[i] as int < 0x7F
    {
      assert IsAuthorityCharacter(raw[i]);
    }
  }

  lemma PlainPieces()
    ensures Pieces("a.test", '.') == ["a"] + ["test"]
  {
    SolePiece("test", '.');
    PiecesOfJoin("a", "test");
    assert "a.test" == "a" + ("." + "test");
  }

  /** A lower-case name of two labels is canonical. */
  lemma TwoLabels(c: string, first: string, last: string)
    requires Pieces(c, '.') == [first] + [last] && IsLabel(first) && IsLabel(last) && 0 < |c| <= MAX_HOST_LENGTH
    requires Lower(c) == c
    ensures Canonical(c)
  {
    CanonicalIff(c);
  }

  lemma PlainName()
    ensures Canonical("a.test")
  {
    PlainPieces();
    LowerFixed("a.test");
    TwoLabels("a.test", "a", "test");
  }

  lemma PlainPort()
    ensures WritesPort("8080", 8080)
  {
    DecimalAppend(8, 0);
    DecimalAppend(80, 8);
    DecimalAppend(808, 0);
    assert Plist.Decimal(8) == "8";
    assert WritesWith("8080", "", 8080);
  }

  /** A host with the listener's port behind it. */
  lemma HostWithPort()
    ensures NormalizeRequestHost("a.test:8080", 8080) == Some("a.test")
  {
    PlainName();
    PlainPort();
    assert ":8080"[1..] == "8080";
    assert "a.test" + "" + ":8080" == "a.test:8080";
    SpellsNormalizes("a.test:8080", "a.test", "", ":8080", "a.test", Some(8080));
  }

  /** Normalising a normal form gives it back, for the configuration and for every listener. */
  lemma NormalizeIdempotent(raw: string, allowedPort: Option<nat>, otherPort: Option<nat>)
    requires NormalizeAuthority(raw, allowedPort).Some?
    ensures var c := NormalizeAuthority(raw, allowedPort).value;
            Canonical(c) && NormalizeAuthority(c, otherPort) == Some(c)
  {
    var c := NormalizeAuthority(raw, allowedPort).value;
    NormalizeExact(raw, c, allowedPort);
    assert c == c + "" + "";
    SpellsNormalizes(c, c, "", "", c, otherPort);
  }
}
