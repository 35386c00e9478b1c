/** The property-list printer (src/setup.rs): the rendering of a tree, and the methods that write it into one buffer. */
module Plist {
  import opened Clock

  datatype Value =
    | Dictionary(entries: seq<Entry>)
    | Array(values: seq<Value>)
    | Text(text: string)
    | Bool(flag: bool)
    | Integer(number: U64)

  datatype Entry = Entry(key: string, value: Value)

  /** Characters that XML 1.0 admits (section 2.2). */
  predicate IsXmlCharacter(ch: char) {
    var n := ch as int;
    n == 0x9 || n == 0xA || n == 0xD || 0x20 <= n <= 0xD7FF || 0xE000 <= n <= 0xFFFD || 0x1_0000 <= n <= 0x10_FFFF
  }

  function Escape(ch: char): string {
    match ch
    case '&' => "&amp;"
    case '<' => "&lt;"
    case '>' => "&gt;"
    case '"' => "&quot;"
    case '\'' => "&apos;"
    case _ => [ch]
  }

  function Escaped(text: string): string {
    if text == "" then "" else Escape(text[0]) + Escaped(text[1..])
  }

  function Indentation(depth: nat): string {
    if depth == 0 then "" else "  " + Indentation(depth - 1)
  }

  function Digit(d: nat): char
    requires d < 10
  {
    "0123456789"[d]
  }

  function Decimal(n: nat): string {
    if n < 10 then [Digit(n)] else Decimal(n / 10) + [Digit(n % 10)]
  }

  /** The text of a tree at an indentation. */
  function Render(v: Value, depth: nat): string {
    match v
    case Dictionary(entries) =>
      Indentation(depth) + "<dict>\n" + RenderEntries(entries, depth + 1) + Indentation(depth) + "</dict>\n"
    case Array(values) =>
      Indentation(depth) + "<array>\n" + RenderValues(values, depth + 1) + Indentation(depth) + "</array>\n"
    case Text(text) => Indentation(depth) + "<string>" + Escaped(text) + "</string>\n"
    case Bool(flag) => Indentation(depth) + (if flag then "<true/>\n" else "<false/>\n")
    case Integer(number) => Indentation(depth) + "<integer>" + Decimal(number) + "</integer>\n"
  }

  function RenderEntries(entries: seq<Entry>, depth: nat): string {
    if entries == [] then ""
    else
      Indentation(depth) + "<key>" + Escaped(entries[0].key) + "</key>\n" + Render(entries[0].value, depth)
      + RenderEntries(entries[1..], depth)
  }

  function RenderValues(values: seq<Value>, depth: nat): string {
    if values == [] then "" else Render(values[0], depth) + RenderValues(values[1..], depth)
  }

  // Appending piece by piece is appending the whole.

  lemma Append2(t: string, a: string, b: string)
    ensures t + a + b == t + (a + b)
  {
  }

  lemma Append3(t: string, a: string, b: string, c: string)
    ensures t + a + b + c == t + (a + b + c)
  {
  }

  lemma Append4(t: string, a: string, b: string, c: string, d: string)
    ensures t + a + b + c + d == t + (a + b + c + d)
  {
    Append3(t, a, b, c);
    Append2(t, a + b + c, d);
  }

  lemma Append5(t: string, a: string, b: string, c: string, d: string, e: string)
    ensures t + a + b + c + d + e == t + (a + b + c + d + e)
  {
    Append4(t, a, b, c, d);
    Append2(t, a + b + c + d, e);
  }

  lemma Append6(t: string, a: string, b: string, c: string, d: string, e: string, f: string)
    ensures t + a + b + c + d + e + f == t + (a + b + c + d + e + f)
  {
    Append5(t, a, b, c, d, e);
    Append2(t, a + b + c + d + e, f);
  }

  class Output {
    var text: string

    constructor (text: string)
      ensures this.text == text
    {
      this.text := text;
    }

    method Push(s: string)
      modifies this
      ensures text == old(text) + s
    {
      text := text + s;
    }

    method WriteIndentation(depth: nat)
      modifies this
      ensures text == old(text) + Indentation(depth)
    {
      var i := 0;
      while i < depth
        invariant i <= depth
        invariant text + Indentation(depth - i) == old(text) + Indentation(depth)
      {
        Append2(text, "  ", Indentation(depth - i - 1));
        Push("  ");
        i := i + 1;
      }
    }

    method WriteEscapedCharacter(ch: char)
      modifies this
      ensures text == old(text) + Escape(ch)
    {
      match ch {
        case '&' => Push("&amp;");
        case '<' => Push("&lt;");
        case '>' => Push("&gt;");
        case '"' => Push("&quot;");
        case '\'' => Push("&apos;");
        case _ => Push([ch]);
      }
    }

    method WriteEscapedXml(value: string)
      modifies this
      ensures text == old(text) + Escaped(value)
    {
      var i := 0;
      while i < |value|
        invariant i <= |value|
        invariant text + Escaped(value[i..]) == old(text) + Escaped(value)
      {
        assert value[i..][1..] == value[i + 1..];
        Append2(text, Escape(value[i]), Escaped(value[i + 1..]));
        WriteEscapedCharacter(value[i]);
        i := i + 1;
      }
    }

    method WriteXml(v: Value, depth: nat)
      modifies this
      ensures text == old(text) + Render(v, depth)
      decreases v, 1
    {
      ghost var before, indentation := text, Indentation(depth);
      WriteIndentation(depth);
      match v {
        case Dictionary(entries) =>
          Push("<dict>\n");
          WriteEntries(entries, depth + 1);
          WriteIndentation(depth);
          Push("</dict>\n");
          Append5(before, indentation, "<dict>\n", RenderEntries(entries, depth + 1), indentation, "</dict>\n");
        case Array(values) =>
          Push("<array>\n");
          WriteValues(values, depth + 1);
          WriteIndentation(depth);
          Push("</array>\n");
          Append5(before, indentation, "<array>\n", RenderValues(values, depth + 1), indentation, "</array>\n");
        case Text(value) =>
          Push("<string>");
          WriteEscapedXml(value);
          Push("</string>\n");
          Append4(before, indentation, "<string>", Escaped(value), "</string>\n");
        case Bool(flag) =>
          Push(if flag then "<true/>\n" else "<false/>\n");
          Append2(before, indentation, if flag then "<true/>\n" else "<false/>\n");
        case Integer(number) =>
          Push("<integer>");
          Push(Decimal(number));
          Push("</integer>\n");
          Append4(before, indentation, "<integer>", Decimal(number), "</integer>\n");
      }
    }

    method WriteEntries(entries: seq<Entry>, depth: nat)
      modifies this
      ensures text == old(text) + RenderEntries(entries, depth)
      decreases entries, 0
    {
      var i := 0;
      while i < |entries|
        invariant i <= |entries|
        invariant text + RenderEntries(entries[i..], depth) == old(text) + RenderEntries(entries, depth)
      {
        assert entries[i..][1..] == entries[i + 1..];
        Append6(text, Indentation(depth), "<key>", Escaped(entries[i].key), "</key>\n",
                Render(entries[i].value, depth), RenderEntries(entries[i + 1..], depth));
        WriteIndentation(depth);
        Push("<key>");
        WriteEscapedXml(entries[i].key);
        Push("</key>\n");
        WriteXml(entries[i].value, depth);
        i := i + 1;
      }
    }

    method WriteValues(values: seq<Value>, depth: nat)
      modifies this
      ensures text == old(text) + RenderValues(values, depth)
      decreases values, 0
    {
      var i := 0;
      while i < |values|
        invariant i <= |values|
        invariant text + RenderValues(values[i..], depth) == old(text) + RenderValues(values, depth)
      {
        assert values[i..][1..] == values[i + 1..];
        Append2(text, Render(values[i], depth), RenderValues(values[i + 1..], depth));
        WriteXml(values[i], depth);
        i := i + 1;
      }
    }
  }
}
