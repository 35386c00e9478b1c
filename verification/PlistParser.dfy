/** A parser of property lists, written from XML 1.0 and from the property-list element names, not from the printer. White
    space between elements is skipped, entities are decoded (section 4.6), line ends are normalised (section 2.11), and a
    character outside section 2.2 is an error. */
module PlistParser {
  import opened Clock
  import opened Plist

  datatype Parsed<+T> = NoParse | Parsed(value: T, rest: string)

  predicate IsSpace(ch: char) {
    ch == ' ' || ch == '\n' || ch == '\t' || ch == '\r'
  }

  function SkipSpace(s: string): (r: string)
    ensures |r| <= |s|
  {
    if s != "" && IsSpace(s[0]) then SkipSpace(s[1..]) else s
  }

  function Strip(s: string, tag: string): (r: Option<string>)
    ensures r.Some? ==> |r.value| == |s| - |tag|
  {
    if tag <= s then Some(s[|tag|..]) else None
  }

  /** One character of text: an entity, a line end, or a plain character. */
  function ReadCharacter(s: string): (r: Parsed<char>)
    requires s != ""
    ensures r.Parsed? ==> |r.rest| < |s|
  {
    if s[0] == '&' then
      if "&amp;" <= s then Parsed('&', s[5..])
      else if "&lt;" <= s then Parsed('<', s[4..])
      else if "&gt;" <= s then Parsed('>', s[4..])
      else if "&quot;" <= s then Parsed('"', s[6..])
      else if "&apos;" <= s then Parsed('\'', s[6..])
      else NoParse
    else if s[0] == '\r' then Parsed('\n', if |s| > 1 && s[1] == '\n' then s[2..] else s[1..])
    else if IsXmlCharacter(s[0]) then Parsed(s[0], s[1..])
    else NoParse
  }

  /** Text up to the next markup. */
  function ReadText(s: string): (r: Parsed<string>)
    ensures r.Parsed? ==> |r.rest| <= |s|
    decreases |s|
  {
    if s == "" then NoParse
    else if s[0] == '<' then Parsed("", s)
    else
      match ReadCharacter(s)
      case NoParse => NoParse
      case Parsed(ch, afterCharacter) =>
        match ReadText(afterCharacter)
        case NoParse => NoParse
        case Parsed(text, rest) => Parsed([ch] + text, rest)
  }

  predicate IsDigit(ch: char) {
    '0' <= ch <= '9'
  }

  /** The digits at the head of `s`, after digits worth `value`. */
  function ReadDigits(s: string, value: nat): (r: (nat, string))
    ensures |r.1| <= |s|
  {
    if s != "" && IsDigit(s[0]) then ReadDigits(s[1..], 10 * value + (s[0] as int - '0' as int)) else (value, s)
  }

  /** Text between an opening tag already read and its closing tag. */
  function ReadElementText(s: string, close: string): (r: Parsed<string>)
    ensures r.Parsed? ==> |r.rest| <= |s|
  {
    match ReadText(s)
    case NoParse => NoParse
    case Parsed(text, afterText) =>
      match Strip(afterText, close)
      case None => NoParse
      case Some(rest) => Parsed(text, rest)
  }

  function ParseInteger(s: string): (r: Parsed<Value>)
    ensures r.Parsed? ==> |r.rest| <= |s|
  {
    if s == "" || !IsDigit(s[0]) then NoParse
    else
      var (number, afterNumber) := ReadDigits(s, 0);
      match Strip(afterNumber, "</integer>")
      case None => NoParse
      case Some(rest) => if number < TWO_TO_THE_64 then Parsed(Integer(number), rest) else NoParse
  }

  function ParseValue(input: string): (r: Parsed<Value>)
    ensures r.Parsed? ==> |r.rest| < |input|
    decreases |input|, 0
  {
    var s := SkipSpace(input);
    if |s| < 2 || s[0] != '<' then NoParse
    else
      match s[1]
      case 'd' =>
        (match Strip(s, "<dict>")
         case None => NoParse
         case Some(body) =>
           match ParseEntries(body)
           case NoParse => NoParse
           case Parsed(entries, rest) => Parsed(Dictionary(entries), rest))
      case 'a' =>
        (match Strip(s, "<array>")
         case None => NoParse
         case Some(body) =>
           match ParseValues(body)
           case NoParse => NoParse
           case Parsed(values, rest) => Parsed(Array(values), rest))
      case 's' =>
        (match Strip(s, "<string>")
         case None => NoParse
         case Some(body) =>
           match ReadElementText(body, "</string>")
           case NoParse => NoParse
           case Parsed(text, rest) => Parsed(Text(text), rest))
      case 't' =>
        (match Strip(s, "<true/>")
         case None => NoParse
         case Some(rest) => Parsed(Bool(true), rest))
      case 'f' =>
        (match Strip(s, "<false/>")
         case None => NoParse
         case Some(rest) => Parsed(Bool(false), rest))
      case 'i' =>
        (match Strip(s, "<integer>")
         case None => NoParse
         case Some(body) => ParseInteger(body))
      case _ => NoParse
  }

  function ParseEntries(input: string): (r: Parsed<seq<Entry>>)
    ensures r.Parsed? ==> |r.rest| < |input|
    decreases |input|, 1
  {
    var s := SkipSpace(input);
    if |s| < 2 || s[0] != '<' then NoParse
    else if s[1] == '/' then
      match Strip(s, "</dict>")
      case None => NoParse
      case Some(rest) => Parsed([], rest)
    else
      match Strip(s, "<key>")
      case None => NoParse
      case Some(body) =>
        match ReadElementText(body, "</key>")
        case NoParse => NoParse
        case Parsed(key, afterKey) =>
          match ParseValue(afterKey)
          case NoParse => NoParse
          case Parsed(value, afterValue) =>
            match ParseEntries(afterValue)
            case NoParse => NoParse
            case Parsed(entries, rest) => Parsed([Entry(key, value)] + entries, rest)
  }

  function ParseValues(input: string): (r: Parsed<seq<Value>>)
    ensures r.Parsed? ==> |r.rest| < |input|
    decreases |input|, 1
  {
    var s := SkipSpace(input);
    if |s| < 2 || s[0] != '<' then NoParse
    else if s[1] == '/' then
      match Strip(s, "</array>")
      case None => NoParse
      case Some(rest) => Parsed([], rest)
    else
      match ParseValue(input)
      case NoParse => NoParse
      case Parsed(value, afterValue) =>
        match ParseValues(afterValue)
        case NoParse => NoParse
        case Parsed(values, rest) => Parsed([value] + values, rest)
  }
}
