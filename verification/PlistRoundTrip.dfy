/** Parsing what the printer wrote. */
module PlistRoundTrip {
  import opened Clock
  import opened Plist
  import opened PlistParser

  // ---- Trees that can be written, and what reading makes of them ----

  predicate ValidText(text: string) {
    forall i :: 0 <= i < |text| ==> IsXmlCharacter(text[i])
  }

  /** Every key and string of the tree passes the XML character check. */
  predicate Valid(v: Value) {
    match v
    case Dictionary(entries) => forall i :: 0 <= i < |entries| ==> ValidText(entries[i].key) && Valid(entries[i].value)
    case Array(values) => forall i :: 0 <= i < |values| ==> Valid(values[i])
    case Text(text) => ValidText(text)
    case _ => true
  }

  predicate ValidEntries(entries: seq<Entry>) {
    forall i :: 0 <= i < |entries| ==> ValidText(entries[i].key) && Valid(entries[i].value)
  }

  predicate ValidValues(values: seq<Value>) {
    forall i :: 0 <= i < |values| ==> Valid(values[i])
  }

  /** Line ends as an XML processor hands them on. */
  function NormalText(text: string): string {
    if text == "" then ""
    else if text[0] == '\r' then "\n" + NormalText(if |text| > 1 && text[1] == '\n' then text[2..] else text[1..])
    else [text[0]] + NormalText(text[1..])
  }

  function Normal(v: Value): Value {
    match v
    case Dictionary(entries) => Dictionary(NormalEntries(entries))
    case Array(values) => Array(NormalValues(values))
    case Text(text) => Text(NormalText(text))
    case _ => v
  }

  function NormalEntries(entries: seq<Entry>): seq<Entry> {
    if entries == [] then []
    else [Entry(NormalText(entries[0].key), Normal(entries[0].value))] + NormalEntries(entries[1..])
  }

  function NormalValues(values: seq<Value>): seq<Value> {
    if values == [] then [] else [Normal(values[0])] + NormalValues(values[1..])
  }

  /** The characters that XML 1.0 leaves out: the control characters but three, U+FFFE and U+FFFF. */
  lemma LeftOutCharacters(ch: char)
    ensures !IsXmlCharacter(ch) <==>
              (ch as int < 32 && ch as int !in {9, 10, 13}) || ch as int in {65534, 65535}
  {
  }

  // ---- What the text looks like ----

  lemma {:induction false} IndentationExact(depth: nat)
    ensures |Indentation(depth)| == 2 * depth && forall i :: 0 <= i < |Indentation(depth)| ==> Indentation(depth)[i] as int == 32
  {
    if depth > 0 {
      IndentationExact(depth - 1);
    }
  }

  /** The text starts with one of the five entities of XML (section 4.6). */
  predicate StartsEntity(s: string) {
    "&amp;" <= s || "&lt;" <= s || "&gt;" <= s || "&quot;" <= s || "&apos;" <= s
  }

  predicate SafeAt(s: string, i: nat)
    requires i < |s|
  {
    s[i] != '<' && s[i] != '>' && s[i] != '"' && s[i] != '\'' && (s[i] == '&' ==> StartsEntity(s[i..]))
  }

  /** Text in which no markup character stands by itself. */
  predicate Safe(s: string) {
    forall i :: 0 <= i < |s| ==> SafeAt(s, i)
  }

  lemma PrefixInFront(tag: string, a: string, b: string)
    requires tag <= a
    ensures tag <= a + b
  {
    assert (a + b)[..|tag|] == a[..|tag|];
  }

  lemma EntityInFront(a: string, b: string)
    requires StartsEntity(a)
    ensures StartsEntity(a + b)
  {
    if "&amp;" <= a {
      PrefixInFront("&amp;", a, b);
    } else if "&lt;" <= a {
      PrefixInFront("&lt;", a, b);
    } else if "&gt;" <= a {
      PrefixInFront("&gt;", a, b);
    } else if "&quot;" <= a {
      PrefixInFront("&quot;", a, b);
    } else {
      PrefixInFront("&apos;", a, b);
    }
  }

  lemma SafeConcat(a: string, b: string)
    requires Safe(a) && Safe(b)
    ensures Safe(a + b)
  {
    var s := a + b;
    forall i | 0 <= i < |s|
      ensures SafeAt(s, i)
    {
      if i < |a| {
        assert s[i] == a[i] && s[i..] == a[i..] + b && SafeAt(a, i);
        if a[i] == '&' {
          EntityInFront(a[i..], b);
        }
      } else {
        assert s[i] == b[i - |a|] && s[i..] == b[i - |a|..] && SafeAt(b, i - |a|);
      }
    }
  }

  lemma EscapeIsSafe(ch: char)
    ensures Safe(Escape(ch))
  {
    forall i | 0 <= i < |Escape(ch)|
      ensures SafeAt(Escape(ch), i)
    {
      assert Escape(ch)[0..] == Escape(ch);
    }
  }

  /** Escaped text holds no markup character but the ampersand of one of the five entities. */
  lemma {:induction false} EscapedIsSafe(text: string)
    ensures Safe(Escaped(text))
  {
    if text != "" {
      EscapeIsSafe(text[0]);
      EscapedIsSafe(text[1..]);
      SafeConcat(Escape(text[0]), Escaped(text[1..]));
    }
  }

  lemma LeafLayout()
    ensures Indentation(1) == "  " && Indentation(2) == "    "
    ensures Render(Text("a"), 2) == "    " + "<string>" + "a" + "</string>\n"
    ensures Render(Integer(30), 1) == "  " + "<integer>" + "30" + "</integer>\n"
  {
    assert Indentation(1) == "  " && Indentation(2) == "    ";
    assert Escaped("a") == "a" && Decimal(30) == "30";
  }

  /** One element a line, two spaces a level, and keys on lines of their own. */
  lemma RenderedLayout()
    ensures Render(Array([Text("a")]), 1)
              == "  " + "<array>\n" + ("    " + "<string>" + "a" + "</string>\n") + "  " + "</array>\n"
    ensures RenderEntries([Entry("k", Integer(30))], 1)
              == "  " + "<key>" + "k" + "</key>\n" + ("  " + "<integer>" + "30" + "</integer>\n")
    ensures Render(Dictionary([]), 1) == "  " + "<dict>\n" + "  " + "</dict>\n"
  {
    LeafLayout();
    assert Escaped("k") == "k";
    assert RenderValues([Text("a")], 2) == Render(Text("a"), 2);
    assert RenderEntries([Entry("k", Integer(30))], 1)
        == Indentation(1) + "<key>" + Escaped("k") + "</key>\n" + Render(Integer(30), 1);
    var open := "  " + "<dict>\n";
    assert open + "" == open;
  }

  // ---- Lexical steps ----

  lemma StripAppended(tag: string, x: string)
    ensures Strip(tag + x, tag) == Some(x)
  {
    assert (tag + x)[|tag|..] == x;
  }

  lemma {:induction false} SkipIndentation(depth: nat, x: string)
    requires x != "" && !IsSpace(x[0])
    ensures SkipSpace(Indentation(depth) + x) == x
  {
    if depth == 0 {
      assert "" + x == x;
    } else {
      var inner := Indentation(depth - 1) + x;
      assert Indentation(depth) + x == [' '] + ([' '] + inner);
      assert ([' '] + ([' '] + inner))[1..] == [' '] + inner;
      assert ([' '] + inner)[1..] == inner;
      SkipIndentation(depth - 1, x);
    }
  }

  /** The text that stands for one character, in front of more text or of markup, reads back as that character. */
  lemma ReadEscape(ch: char, x: string)
    requires IsXmlCharacter(ch) && ch != '\r'
    ensures ReadCharacter(Escape(ch) + x) == Parsed(ch, x)
  {
    var s := Escape(ch) + x;
    assert s[|Escape(ch)|..] == x;
    match ch {
      case '&' => assert s[1] == 'a' && s[2] == 'm';
      case '<' => assert s[1] == 'l';
      case '>' => assert s[1] == 'g';
      case '"' => assert s[1] == 'q';
      case '\'' => assert s[1] == 'a' && s[2] == 'p';
      case _ =>
    }
  }

  lemma ReadEscapeInvalid(ch: char, x: string)
    requires !IsXmlCharacter(ch)
    ensures ReadCharacter(Escape(ch) + x).NoParse?
  {
  }

  lemma EscapedHead(text: string, x: string)
    requires text != ""
    ensures Escaped(text) + x == Escape(text[0]) + (Escaped(text[1..]) + x)
    ensures Escape(text[0]) != "" && (Escaped(text) + x)[0] == Escape(text[0])[0]
  {
    var head, tail := Escape(text[0]), Escaped(text[1..]);
    assert Escaped(text) == head + tail;
    assert head != "";
    assert head + tail + x == head + (tail + x);
  }

  /** Reading an escaped text before markup: it reads exactly when every character is admitted, and gives back the text
      with its line ends normalised. */
  lemma {:induction false} ReadEscaped(text: string, x: string)
    requires x != "" && x[0] == '<'
    ensures ReadText(Escaped(text) + x) == if ValidText(text) then Parsed(NormalText(text), x) else NoParse
    decreases |text|
  {
    if text == "" {
      assert Escaped(text) + x == x;
    } else {
      var ch, tail := text[0], text[1..];
      EscapedHead(text, x);
      ValidTail(text);
      if !IsXmlCharacter(ch) {
        ReadEscapeInvalid(ch, Escaped(tail) + x);
      } else if ch == '\r' {
        ReadLineEnd(text, x);
      } else {
        ReadEscape(ch, Escaped(tail) + x);
        ReadEscaped(tail, x);
      }
    }
  }

  function AfterReturn(w: string): string {
    if w != "" && w[0] == '\n' then w[1..] else w
  }

  lemma ReadReturn(w: string)
    ensures ReadText(['\r'] + w) == match ReadText(AfterReturn(w))
                                     case NoParse => NoParse
                                     case Parsed(text, rest) => Parsed(['\n'] + text, rest)
  {
    var s := ['\r'] + w;
    assert s[1..] == w;
    if w != "" {
      assert s[2..] == w[1..];
    }
    assert ReadCharacter(s) == Parsed('\n', AfterReturn(w));
  }

  lemma ValidTail(text: string)
    requires text != ""
    ensures ValidText(text) <==> IsXmlCharacter(text[0]) && ValidText(text[1..])
  {
    assert forall i :: 1 <= i < |text| ==> text[i] == text[1..][i - 1];
  }

  lemma {:induction false} ReadLineEnd(text: string, x: string)
    requires x != "" && x[0] == '<'
    requires text != "" && text[0] == '\r'
    ensures ReadText(Escaped(text) + x) == if ValidText(text[1..]) then Parsed(NormalText(text), x) else NoParse
    decreases |text|, 0
  {
    var tail := text[1..];
    var w := Escaped(tail) + x;
    EscapedHead(text, x);
    assert Escaped(text) + x == ['\r'] + w;
    ReadReturn(w);
    ReturnTail(text, x);
    var after := if |text| > 1 && text[1] == '\n' then text[2..] else tail;
    ReadEscaped(after, x);
    assert NormalText(text) == ['\n'] + NormalText(after);
  }

  /** After a carriage return, the escaped text goes on after the line feed that may follow it. */
  lemma ReturnTail(text: string, x: string)
    requires x != "" && x[0] == '<'
    requires text != ""
    ensures var after := if |text| > 1 && text[1] == '\n' then text[2..] else text[1..];
            AfterReturn(Escaped(text[1..]) + x) == Escaped(after) + x && (ValidText(after) <==> ValidText(text[1..]))
  {
    var tail := text[1..];
    if tail == "" {
      assert Escaped("") + x == x;
    } else {
      EscapedHead(tail, x);
      assert tail[0] == text[1];
      if text[1] == '\n' {
        AfterLineFeed(text, x);
        ValidTail(tail);
      } else {
        EscapeKeepsNewline(text[1]);
      }
    }
  }

  lemma EscapeKeepsNewline(ch: char)
    requires ch != '\n'
    ensures Escape(ch)[0] != '\n'
  {
  }

  lemma AfterLineFeed(text: string, x: string)
    requires |text| > 1 && text[1] == '\n'
    ensures (Escaped(text[1..]) + x)[1..] == Escaped(text[1..][1..]) + x
    ensures text[1..][1..] == text[2..]
  {
    EscapedHead(text[1..], x);
    assert Escape('\n') == ['\n'];
  }

  lemma DigitValue(d: nat)
    requires d < 10
    ensures IsDigit(Digit(d)) && Digit(d) as int - '0' as int == d
  {
  }

  lemma {:induction false} ReadDecimal(n: nat, x: string)
    ensures ReadDigits(Decimal(n) + x, 0) == ReadDigits(x, n)
    ensures Decimal(n) != "" && IsDigit(Decimal(n)[0])
  {
    DigitValue(n % 10);
    if n < 10 {
      assert (Decimal(n) + x)[1..] == x;
    } else {
      var last := [Digit(n % 10)];
      assert Decimal(n) + x == Decimal(n / 10) + (last + x);
      ReadDecimal(n / 10, last + x);
      assert (last + x)[1..] == x;
    }
  }

  lemma ElementText(text: string, close: string, x: string)
    requires close != "" && close[0] == '<'
    ensures ReadElementText(Escaped(text) + (close + x), close)
            == if ValidText(text) then Parsed(NormalText(text), x) else NoParse
  {
    ReadEscaped(text, close + x);
    StripAppended(close, x);
  }

  // ---- Trees ----

  lemma SkipLineEnd(x: string)
    ensures SkipSpace("\n" + x) == SkipSpace(x)
  {
    assert ("\n" + x)[1..] == x;
  }

  lemma Regroup3(a: string, b: string, c: string)
    ensures a + b + c == a + (b + c)
  {
  }

  /** An element with its own lines for the tags, followed by `x`, read from its head. */
  lemma RegroupBlock(i: string, open: string, body: string, close: string, nl: string, x: string)
    ensures i + (open + nl) + body + i + (close + nl) + x == i + (open + (nl + (body + (i + (close + (nl + x))))))
  {
    Regroup3(i, open + nl, body);
    Regroup3(i, open + nl + body, i);
    Regroup3(open + nl, body, i);
    var inner := i + (close + nl) + x;
    assert inner == i + (close + (nl + x));
    assert i + (open + nl) + body + i + (close + nl) + x == i + (open + nl) + body + inner;
    assert i + (open + nl) + body + inner == i + (open + nl) + (body + inner);
    assert i + (open + nl) + (body + inner) == i + (open + (nl + (body + inner)));
  }

  /** An element on one line, followed by `x`, read from its head. */
  lemma RegroupLine(i: string, open: string, body: string, close: string, nl: string, x: string)
    ensures i + open + body + (close + nl) + x == i + (open + (body + (close + (nl + x))))
  {
    assert (close + nl) + x == close + (nl + x);
    assert i + open + body + (close + nl) + x == i + open + body + (close + (nl + x));
    assert i + open + body + (close + (nl + x)) == i + open + (body + (close + (nl + x)));
  }

  /** An entry and what follows it, read from its head. */
  lemma RegroupEntry(i: string, open: string, key: string, close: string, nl: string, value: string, more: string, end: string)
    ensures i + open + key + (close + nl) + value + more + end
            == i + (open + (key + (close + (nl + (value + (more + end))))))
  {
    RegroupLine(i, open, key, close, nl, value);
    Regroup3(i + open + key + (close + nl), value, more);
    Regroup3(i + open + key + (close + nl), value + more, end);
    Regroup3(value, more, end);
    RegroupLine(i, open, key, close, nl, value + (more + end));
  }

  lemma ParseStringElement(depth: nat, body: string)
    ensures ParseValue(Indentation(depth) + ("<string>" + body)) ==
            match ReadElementText(body, "</string>") case NoParse => NoParse case Parsed(text, rest) => Parsed(Text(text), rest)
  {
    var s := "<string>" + body;
    SkipIndentation(depth, s);
    StripAppended("<string>", body);
    assert s[1] == 's';
  }

  lemma ParseText(text: string, depth: nat, x: string)
    ensures ParseValue(Render(Text(text), depth) + x)
            == if ValidText(text) then Parsed(Text(NormalText(text)), "\n" + x) else NoParse
  {
    assert "</string>\n" == "</string>" + "\n";
    RegroupLine(Indentation(depth), "<string>", Escaped(text), "</string>", "\n", x);
    ParseStringElement(depth, Escaped(text) + ("</string>" + ("\n" + x)));
    ElementText(text, "</string>", "\n" + x);
  }

  lemma ParseBool(flag: bool, depth: nat, x: string)
    ensures ParseValue(Render(Bool(flag), depth) + x) == Parsed(Bool(flag), "\n" + x)
  {
    var tag := if flag then "<true/>" else "<false/>";
    var s := tag + ("\n" + x);
    assert Render(Bool(flag), depth) + x == Indentation(depth) + s;
    SkipIndentation(depth, s);
    StripAppended(tag, "\n" + x);
    assert s[1] == if flag then 't' else 'f';
  }

  lemma ParseIntegerElement(depth: nat, body: string)
    ensures ParseValue(Indentation(depth) + ("<integer>" + body)) == ParseInteger(body)
  {
    var s := "<integer>" + body;
    SkipIndentation(depth, s);
    StripAppended("<integer>", body);
    assert s[1] == 'i';
  }

  lemma ParseNumber(number: U64, depth: nat, x: string)
    ensures ParseValue(Render(Integer(number), depth) + x) == Parsed(Integer(number), "\n" + x)
  {
    var close := "</integer>" + ("\n" + x);
    var body := Decimal(number) + close;
    assert "</integer>\n" == "</integer>" + "\n";
    RegroupLine(Indentation(depth), "<integer>", Decimal(number), "</integer>", "\n", x);
    ParseIntegerElement(depth, body);
    ReadDecimal(number, close);
    assert body[0] == Decimal(number)[0];
    StripAppended("</integer>", "\n" + x);
  }

  lemma ValidEntriesTail(entries: seq<Entry>)
    requires entries != []
    ensures ValidEntries(entries) <==>
              ValidText(entries[0].key) && Valid(entries[0].value) && ValidEntries(entries[1..])
  {
    assert forall i :: 1 <= i < |entries| ==> entries[i] == entries[1..][i - 1];
  }

  lemma ValidValuesTail(values: seq<Value>)
    requires values != []
    ensures ValidValues(values) <==> Valid(values[0]) && ValidValues(values[1..])
  {
    assert forall i :: 1 <= i < |values| ==> values[i] == values[1..][i - 1];
  }

  lemma ParseDictionaryElement(depth: nat, body: string)
    ensures ParseValue(Indentation(depth) + ("<dict>" + ("\n" + body))) ==
            match ParseEntries(body) case NoParse => NoParse case Parsed(entries, rest) => Parsed(Dictionary(entries), rest)
  {
    var s := "<dict>" + ("\n" + body);
    SkipIndentation(depth, s);
    StripAppended("<dict>", "\n" + body);
    EntriesAfterLineEnd(body);
    assert s[1] == 'd';
  }

  lemma EntriesAfterLineEnd(s: string)
    ensures ParseEntries("\n" + s) == ParseEntries(s)
  {
    SkipLineEnd(s);
  }

  lemma ParseArrayElement(depth: nat, body: string)
    ensures ParseValue(Indentation(depth) + ("<array>" + ("\n" + body))) ==
            match ParseValues(body) case NoParse => NoParse case Parsed(values, rest) => Parsed(Array(values), rest)
  {
    var s := "<array>" + ("\n" + body);
    SkipIndentation(depth, s);
    StripAppended("<array>", "\n" + body);
    ValuesAfterLineEnd(body);
    assert s[1] == 'a';
  }

  lemma ValuesAfterLineEnd(s: string)
    ensures ParseValues("\n" + s) == ParseValues(s)
  {
    SkipLineEnd(s);
  }

  lemma ValueAfterLineEnd(s: string)
    ensures ParseValue("\n" + s) == ParseValue(s)
  {
    SkipLineEnd(s);
  }

  /** The end of a list of entries or values. */
  lemma ParseEntriesEnd(depth: nat, x: string)
    ensures ParseEntries(Indentation(depth) + ("</dict>" + x)) == Parsed([], x)
  {
    var s := "</dict>" + x;
    SkipIndentation(depth, s);
    StripAppended("</dict>", x);
    assert s[1] == '/';
  }

  lemma ParseValuesEnd(depth: nat, x: string)
    ensures ParseValues(Indentation(depth) + ("</array>" + x)) == Parsed([], x)
  {
    var s := "</array>" + x;
    SkipIndentation(depth, s);
    StripAppended("</array>", x);
    assert s[1] == '/';
  }

  /** An entry: its key, its value, and the entries after it. */
  lemma ParseEntry(depth: nat, key: string, value: string)
    ensures ParseEntries(Indentation(depth) + ("<key>" + (Escaped(key) + ("</key>" + ("\n" + value))))) ==
            if !ValidText(key) then NoParse
            else
              match ParseValue(value)
              case NoParse => NoParse
              case Parsed(v, more) =>
                match ParseEntries(more)
                case NoParse => NoParse
                case Parsed(entries, rest) => Parsed([Entry(NormalText(key), v)] + entries, rest)
  {
    var body := Escaped(key) + ("</key>" + ("\n" + value));
    var s := "<key>" + body;
    SkipIndentation(depth, s);
    StripAppended("<key>", body);
    ElementText(key, "</key>", "\n" + value);
    ValueAfterLineEnd(value);
    assert s[1] == 'k';
  }

  /** A value in a list opens with no slash, and the list goes on behind it. */
  lemma ParseListed(s: string)
    requires |SkipSpace(s)| >= 2 && SkipSpace(s)[0] == '<' && SkipSpace(s)[1] != '/'
    ensures ParseValues(s) ==
            match ParseValue(s)
            case NoParse => NoParse
            case Parsed(v, more) =>
              match ParseValues(more)
              case NoParse => NoParse
              case Parsed(values, rest) => Parsed([v] + values, rest)
  {
  }

  function OpenTag(v: Value): string {
    match v
    case Dictionary(_) => "<dict>"
    case Array(_) => "<array>"
    case Text(_) => "<string>"
    case Bool(flag) => if flag then "<true/>" else "<false/>"
    case Integer(_) => "<integer>"
  }

  /** What the printer writes for a value opens with the value's tag. */
  lemma RenderHead(v: Value, depth: nat, x: string)
    ensures var s := SkipSpace(Render(v, depth) + x); |s| >= 2 && s[0] == '<' && s[1] != '/'
  {
    var tag := OpenTag(v);
    var body := RenderOpens(v, depth);
    assert Indentation(depth) + (tag + body) + x == Indentation(depth) + (tag + body + x);
    SkipIndentation(depth, tag + body + x);
    assert (tag + body + x)[0] == tag[0] && (tag + body + x)[1] == tag[1];
  }

  lemma RenderOpens(v: Value, depth: nat) returns (body: string)
    ensures Render(v, depth) == Indentation(depth) + (OpenTag(v) + body)
  {
    var i := Indentation(depth);
    match v {
      case Dictionary(entries) =>
        body := OpensBlock(i, "<dict>", RenderEntries(entries, depth + 1), "</dict>\n");
      case Array(values) =>
        body := OpensBlock(i, "<array>", RenderValues(values, depth + 1), "</array>\n");
      case Text(text) =>
        body := OpensLine(i, "<string>", Escaped(text), "</string>\n");
      case Bool(flag) =>
        body := "\n";
        assert OpenTag(v) + body == if flag then "<true/>\n" else "<false/>\n";
      case Integer(number) =>
        body := OpensLine(i, "<integer>", Decimal(number), "</integer>\n");
    }
  }

  lemma OpensBlock(i: string, open: string, inner: string, close: string) returns (body: string)
    ensures i + (open + "\n") + inner + i + close == i + (open + body)
  {
    body := "\n" + inner + i + close;
    Append4(i, open + "\n", inner, i, close);
    Append4(open, "\n", inner, i, close);
  }

  lemma OpensLine(i: string, open: string, inner: string, close: string) returns (body: string)
    ensures i + open + inner + close == i + (open + body)
  {
    body := inner + close;
    Append3(i, open, inner, close);
    Append2(open, inner, close);
  }

  /** Plist round trip: for every tree, at every indentation and before any text, the parser reads what the printer wrote
      exactly when every key and string of the tree passes the printer's character check, and then gives back the tree
      with its line ends normalised, stopping right behind its last tag. */
  lemma {:induction false} ParseRender(v: Value, depth: nat, x: string)
    ensures ParseValue(Render(v, depth) + x) == if Valid(v) then Parsed(Normal(v), "\n" + x) else NoParse
    decreases v, 2
  {
    match v
    case Dictionary(entries) => ParseDictionary(entries, depth, x);
    case Array(values) => ParseArray(values, depth, x);
    case Text(text) => ParseText(text, depth, x);
    case Bool(flag) => ParseBool(flag, depth, x);
    case Integer(number) => ParseNumber(number, depth, x);
  }

  lemma RenderDictionary(entries: seq<Entry>, depth: nat, x: string)
    ensures var i := Indentation(depth);
            Render(Dictionary(entries), depth) + x
            == i + ("<dict>" + ("\n" + (RenderEntries(entries, depth + 1) + (i + ("</dict>" + ("\n" + x))))))
  {
    assert "<dict>\n" == "<dict>" + "\n" && "</dict>\n" == "</dict>" + "\n";
    RegroupBlock(Indentation(depth), "<dict>", RenderEntries(entries, depth + 1), "</dict>", "\n", x);
  }

  lemma RenderArray(values: seq<Value>, depth: nat, x: string)
    ensures var i := Indentation(depth);
            Render(Array(values), depth) + x
            == i + ("<array>" + ("\n" + (RenderValues(values, depth + 1) + (i + ("</array>" + ("\n" + x))))))
  {
    assert "<array>\n" == "<array>" + "\n" && "</array>\n" == "</array>" + "\n";
    RegroupBlock(Indentation(depth), "<array>", RenderValues(values, depth + 1), "</array>", "\n", x);
  }

  lemma {:induction false} ParseDictionary(entries: seq<Entry>, depth: nat, x: string)
    ensures ParseValue(Render(Dictionary(entries), depth) + x)
            == if ValidEntries(entries) then Parsed(Dictionary(NormalEntries(entries)), "\n" + x) else NoParse
    decreases entries, 1
  {
    var i := Indentation(depth);
    RenderDictionary(entries, depth, x);
    ParseDictionaryElement(depth, RenderEntries(entries, depth + 1) + (i + ("</dict>" + ("\n" + x))));
    ParseRenderEntries(entries, depth + 1, depth, "\n" + x);
  }

  lemma {:induction false} ParseArray(values: seq<Value>, depth: nat, x: string)
    ensures ParseValue(Render(Array(values), depth) + x)
            == if ValidValues(values) then Parsed(Array(NormalValues(values)), "\n" + x) else NoParse
    decreases values, 1
  {
    var i := Indentation(depth);
    RenderArray(values, depth, x);
    ParseArrayElement(depth, RenderValues(values, depth + 1) + (i + ("</array>" + ("\n" + x))));
    ParseRenderValues(values, depth + 1, depth, "\n" + x);
  }

  lemma {:induction false} ParseRenderEntries(entries: seq<Entry>, depth: nat, outer: nat, x: string)
    ensures ParseEntries(RenderEntries(entries, depth) + (Indentation(outer) + ("</dict>" + x)))
            == if ValidEntries(entries) then Parsed(NormalEntries(entries), x) else NoParse
    decreases entries, 0
  {
    var end := Indentation(outer) + ("</dict>" + x);
    if entries == [] {
      assert RenderEntries(entries, depth) + end == end;
      ParseEntriesEnd(outer, x);
    } else {
      var e := entries[0];
      var after := RenderEntries(entries[1..], depth);
      var value := Render(e.value, depth);
      assert "</key>\n" == "</key>" + "\n";
      RegroupEntry(Indentation(depth), "<key>", Escaped(e.key), "</key>", "\n", value, after, end);
      ParseEntry(depth, e.key, value + (after + end));
      ParseRender(e.value, depth, after + end);
      EntriesAfterLineEnd(after + end);
      ParseRenderEntries(entries[1..], depth, outer, x);
      ValidEntriesTail(entries);
    }
  }

  lemma {:induction false} ParseRenderValues(values: seq<Value>, depth: nat, outer: nat, x: string)
    ensures ParseValues(RenderValues(values, depth) + (Indentation(outer) + ("</array>" + x)))
            == if ValidValues(values) then Parsed(NormalValues(values), x) else NoParse
    decreases values, 0
  {
    var end := Indentation(outer) + ("</array>" + x);
    if values == [] {
      assert RenderValues(values, depth) + end == end;
      ParseValuesEnd(outer, x);
    } else {
      var after := RenderValues(values[1..], depth);
      Regroup3(Render(values[0], depth), after, end);
      RenderHead(values[0], depth, after + end);
      ParseListed(Render(values[0], depth) + (after + end));
      ParseRender(values[0], depth, after + end);
      ValuesAfterLineEnd(after + end);
      ParseRenderValues(values[1..], depth, outer, x);
      ValidValuesTail(values);
    }
  }

  // ---- When the round trip is exact ----

  predicate NoReturn(text: string) {
    forall i :: 0 <= i < |text| ==> text[i] != '\r'
  }

  /** No key and no string of the tree holds U+000D. */
  predicate NoReturns(v: Value) {
    match v
    case Dictionary(entries) => forall i :: 0 <= i < |entries| ==> NoReturn(entries[i].key) && NoReturns(entries[i].value)
    case Array(values) => forall i :: 0 <= i < |values| ==> NoReturns(values[i])
    case Text(text) => NoReturn(text)
    case _ => true
  }

  lemma {:induction false} NormalTextExact(text: string)
    ensures NoReturn(NormalText(text))
    ensures NormalText(text) == text <==> NoReturn(text)
    decreases |text|
  {
    if text != "" {
      if text[0] == '\r' {
        NormalTextExact(if |text| > 1 && text[1] == '\n' then text[2..] else text[1..]);
        assert NormalText(text)[0] == '\n';
      } else {
        var tail := text[1..];
        NormalTextExact(tail);
        assert forall i :: 1 <= i < |text| ==> text[i] == tail[i - 1];
        assert NormalText(text)[1..] == NormalText(tail);
        assert text == [text[0]] + tail;
      }
    }
  }

  lemma {:induction false} NormalExact(v: Value)
    ensures Normal(v) == v <==> NoReturns(v)
    decreases v, 1
  {
    match v
    case Dictionary(entries) => NormalEntriesExact(entries);
    case Array(values) => NormalValuesExact(values);
    case Text(text) => NormalTextExact(text);
    case _ =>
  }

  lemma ConsEqual<T>(x: T, xs: seq<T>, y: T, ys: seq<T>)
    ensures [x] + xs == [y] + ys <==> x == y && xs == ys
  {
    assert ([x] + xs)[0] == x && ([y] + ys)[0] == y;
    assert ([x] + xs)[1..] == xs && ([y] + ys)[1..] == ys;
  }

  predicate EntriesHaveNoReturn(entries: seq<Entry>) {
    forall i :: 0 <= i < |entries| ==> NoReturn(entries[i].key) && NoReturns(entries[i].value)
  }

  lemma EntriesTail(entries: seq<Entry>)
    requires entries != []
    ensures EntriesHaveNoReturn(entries) <==>
              NoReturn(entries[0].key) && NoReturns(entries[0].value) && EntriesHaveNoReturn(entries[1..])
  {
    assert forall i :: 1 <= i < |entries| ==> entries[i] == entries[1..][i - 1];
  }

  lemma {:induction false} NormalEntriesExact(entries: seq<Entry>)
    ensures NormalEntries(entries) == entries <==> EntriesHaveNoReturn(entries)
    decreases entries, 0
  {
    if entries != [] {
      var e, tail := entries[0], entries[1..];
      NormalTextExact(e.key);
      NormalExact(e.value);
      NormalEntriesExact(tail);
      EntriesTail(entries);
      assert entries == [e] + tail;
      ConsEqual(Entry(NormalText(e.key), Normal(e.value)), NormalEntries(tail), e, tail);
    }
  }

  predicate ValuesHaveNoReturn(values: seq<Value>) {
    forall i :: 0 <= i < |values| ==> NoReturns(values[i])
  }

  lemma ValuesTail(values: seq<Value>)
    requires values != []
    ensures ValuesHaveNoReturn(values) <==> NoReturns(values[0]) && ValuesHaveNoReturn(values[1..])
  {
    assert forall i :: 1 <= i < |values| ==> values[i] == values[1..][i - 1];
  }

  lemma {:induction false} NormalValuesExact(values: seq<Value>)
    ensures NormalValues(values) == values <==> ValuesHaveNoReturn(values)
    decreases values, 0
  {
    if values != [] {
      var head, tail := values[0], values[1..];
      NormalExact(head);
      NormalValuesExact(tail);
      ValuesTail(values);
      assert values == [head] + tail;
      ConsEqual(Normal(head), NormalValues(tail), head, tail);
    }
  }

  /** The parser gives back exactly the tree that was written if and only if every key and string passes the printer's
      character check and none holds U+000D, which the check admits but a parser turns into a line feed. */
  lemma RoundTripExact(v: Value, depth: nat, x: string)
    ensures ParseValue(Render(v, depth) + x) == Parsed(v, "\n" + x) <==> Valid(v) && NoReturns(v)
  {
    ParseRender(v, depth, x);
    NormalExact(v);
  }
}
