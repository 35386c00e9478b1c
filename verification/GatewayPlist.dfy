/** The gateway's own property list (src/setup.rs, `gateway_plist_xml`). */
module GatewayPlist {
  import opened Clock
  import opened Names
  import opened Plist
  import opened PlistParser
  import opened PlistRoundTrip

  datatype DirectoryState = Unavailable | NotDirectory | IsDirectory

  datatype SetupError =
    | InvalidLabel
    | PathNotAbsolute(name: string)
    | InvalidXmlCharacter(name: string, character: char)
    | LogDirectoryUnavailable
    | LogDirectoryNotDirectory

  datatype Result<+T> = Ok(value: T) | Err(error: SetupError)

  const XML_PREFIX: string :=
    "<?xml version=\"1.0\" encoding=\"UTF-8\"?>\n<!DOCTYPE plist PUBLIC \"-//Apple//DTD PLIST 1.0//EN\" \"http://www.apple.com/DTDs/PropertyList-1.0.dtd\">\n<plist version=\"1.0\">\n"

  /** The first character that XML 1.0 does not admit. */
  function FirstInvalid(text: string): Option<char> {
    if text == "" then None
    else if !IsXmlCharacter(text[0]) then Some(text[0])
    else FirstInvalid(text[1..])
  }

  /** The check fails exactly on text with a character that XML 1.0 does not admit, and names the first such character. */
  lemma {:induction false} FirstInvalidIsFirst(text: string) returns (i: nat)
    ensures FirstInvalid(text).None? <==> ValidText(text)
    ensures FirstInvalid(text).Some? ==>
              i < |text| && FirstInvalid(text).value == text[i] && !IsXmlCharacter(text[i]) && ValidText(text[..i])
  {
    i := 0;
    if text != "" && IsXmlCharacter(text[0]) {
      ValidTail(text);
      var j := FirstInvalidIsFirst(text[1..]);
      i := j + 1;
      if FirstInvalid(text).Some? {
        assert text[..i][1..] == text[1..][..j];
        ValidTail(text[..i]);
      }
    }
  }

  function ValidateXmlString(name: string, value: string): Result<()> {
    match FirstInvalid(value)
    case Some(ch) => Err(InvalidXmlCharacter(name, ch))
    case None => Ok(())
  }

  function ValidatedPath(name: string, path: string): Result<()> {
    if !IsAbsolute(path) then Err(PathNotAbsolute(name)) else ValidateXmlString(name, path)
  }

  /** A file name joined to a directory path. */
  function Join(directory: string, name: string): string {
    if directory != "" && directory[|directory| - 1] == '/' then directory + name else directory + "/" + name
  }

  function GatewayTree(jobLabel: string, program: string, config: string, logDir: string): Value {
    Dictionary([
      Entry("Label", Text(jobLabel)),
      Entry("ProgramArguments", Array([Text(program), Text(config)])),
      Entry("RunAtLoad", Bool(true)),
      Entry("KeepAlive", Bool(true)),
      Entry("ExitTimeOut", Integer(30)),
      Entry("StandardOutPath", Text(Join(logDir, jobLabel + ".stdout.log"))),
      Entry("StandardErrorPath", Text(Join(logDir, jobLabel + ".stderr.log")))])
  }

  predicate Writable(path: string) {
    IsAbsolute(path) && ValidText(path)
  }

  function GatewayPlistXml(jobLabel: string, program: string, config: string, logDir: string, state: DirectoryState): Result<string> {
    if !ValidLaunchdLabel(jobLabel) then Err(InvalidLabel)
    else if ValidateXmlString("launchd label", jobLabel).Err? then Err(ValidateXmlString("launchd label", jobLabel).error)
    else if ValidatedPath("program", program).Err? then Err(ValidatedPath("program", program).error)
    else if ValidatedPath("configuration", config).Err? then Err(ValidatedPath("configuration", config).error)
    else if ValidatedPath("log directory", logDir).Err? then Err(ValidatedPath("log directory", logDir).error)
    else if state.Unavailable? then Err(LogDirectoryUnavailable)
    else if state.NotDirectory? then Err(LogDirectoryNotDirectory)
    else
      var stdout := ValidatedPath("standard output log", Join(logDir, jobLabel + ".stdout.log"));
      var stderr := ValidatedPath("standard error log", Join(logDir, jobLabel + ".stderr.log"));
      if stdout.Err? then Err(stdout.error)
      else if stderr.Err? then Err(stderr.error)
      else Ok(XML_PREFIX + Render(GatewayTree(jobLabel, program, config, logDir), 0) + "</plist>\n")
  }

  /** What stands before the value of every property list: the XML declaration, the document type and the opening tag. */
  const PROLOGUE: string :=
    "<?xml version=\"1.0\" encoding=\"UTF-8\"?>\n<!DOCTYPE plist PUBLIC \"-//Apple//DTD PLIST 1.0//EN\" \"http://www.apple.com/DTDs/PropertyList-1.0.dtd\">\n<plist version=\"1.0\">"

  /** A whole document: the prologue, one value, and the closing tag. */
  function ParseDocument(s: string): Parsed<Value> {
    match Strip(s, PROLOGUE)
    case None => NoParse
    case Some(body) =>
      match ParseValue(body)
      case NoParse => NoParse
      case Parsed(v, afterValue) =>
        match Strip(SkipSpace(afterValue), "</plist>")
        case None => NoParse
        case Some(rest) => if SkipSpace(rest) == "" then Parsed(v, "") else NoParse
  }

  lemma ValidConcat(a: string, b: string)
    ensures ValidText(a + b) <==> ValidText(a) && ValidText(b)
  {
    assert forall i :: 0 <= i < |a| ==> (a + b)[i] == a[i];
    assert forall i :: 0 <= i < |b| ==> (a + b)[|a| + i] == b[i];
  }

  lemma LogPathsWritable(jobLabel: string, logDir: string, suffix: string)
    requires ValidText(jobLabel) && Writable(logDir) && ValidText(suffix)
    ensures Writable(Join(logDir, jobLabel + suffix))
  {
    ValidConcat(jobLabel, suffix);
    ValidConcat(logDir, jobLabel + suffix);
    ValidConcat(logDir, "/");
    ValidConcat(logDir + "/", jobLabel + suffix);
  }

  lemma GatewayKeysValid()
    ensures ValidText("Label") && ValidText("ProgramArguments") && ValidText("RunAtLoad") && ValidText("KeepAlive")
    ensures ValidText("ExitTimeOut") && ValidText("StandardOutPath") && ValidText("StandardErrorPath")
    ensures ValidText(".stdout.log") && ValidText(".stderr.log")
  {
  }

  lemma ValidEntriesHead(e: Entry, entries: seq<Entry>)
    requires ValidText(e.key) && Valid(e.value) && Valid(Dictionary(entries))
    ensures Valid(Dictionary([e] + entries))
  {
  }

  lemma GatewayTreeValid(jobLabel: string, program: string, config: string, logDir: string)
    requires ValidText(jobLabel) && Writable(program) && Writable(config) && Writable(logDir)
    ensures Valid(GatewayTree(jobLabel, program, config, logDir))
  {
    GatewayKeysValid();
    LogPathsWritable(jobLabel, logDir, ".stdout.log");
    LogPathsWritable(jobLabel, logDir, ".stderr.log");
    var stdout, stderr := Join(logDir, jobLabel + ".stdout.log"), Join(logDir, jobLabel + ".stderr.log");
    ValidTreeOf(jobLabel, [program, config], stdout, stderr);
  }

  lemma ValidTreeOf(jobLabel: string, arguments: seq<string>, stdout: string, stderr: string)
    requires ValidText(jobLabel) && |arguments| == 2 && ValidText(arguments[0]) && ValidText(arguments[1])
    requires ValidText(stdout) && ValidText(stderr)
    ensures Valid(Dictionary([
      Entry("Label", Text(jobLabel)),
      Entry("ProgramArguments", Array([Text(arguments[0]), Text(arguments[1])])),
      Entry("RunAtLoad", Bool(true)),
      Entry("KeepAlive", Bool(true)),
      Entry("ExitTimeOut", Integer(30)),
      Entry("StandardOutPath", Text(stdout)),
      Entry("StandardErrorPath", Text(stderr))]))
  {
    GatewayKeysValid();
    var e6 := [Entry("StandardErrorPath", Text(stderr))];
    var e5 := [Entry("StandardOutPath", Text(stdout))] + e6;
    var e4 := [Entry("ExitTimeOut", Integer(30))] + e5;
    var e3 := [Entry("KeepAlive", Bool(true))] + e4;
    var e2 := [Entry("RunAtLoad", Bool(true))] + e3;
    var both := Array([Text(arguments[0]), Text(arguments[1])]);
    assert Valid(both);
    var e1 := [Entry("ProgramArguments", both)] + e2;
    ValidEntriesHead(e5[0], e6);
    ValidEntriesHead(e4[0], e5);
    ValidEntriesHead(e3[0], e4);
    ValidEntriesHead(e2[0], e3);
    ValidEntriesHead(e1[0], e2);
    ValidEntriesHead(Entry("Label", Text(jobLabel)), e1);
  }

  lemma PrefixIsPrologue(x: string)
    ensures XML_PREFIX + x == PROLOGUE + ("\n" + x)
  {
    assert XML_PREFIX == PROLOGUE + "\n";
  }

  lemma DocumentReads(v: Value)
    requires Valid(v)
    ensures ParseDocument(XML_PREFIX + Render(v, 0) + "</plist>\n") == Parsed(Normal(v), "")
  {
    var body := Render(v, 0) + "</plist>\n";
    PrefixIsPrologue(body);
    Regroup3(XML_PREFIX, Render(v, 0), "</plist>\n");
    StripAppended(PROLOGUE, "\n" + body);
    ValueAfterLineEnd(body);
    ParseRender(v, 0, "</plist>\n");
    SkipLineEnd("</plist>\n");
    assert "</plist>\n" == "</plist>" + "\n";
    StripAppended("</plist>", "\n");
    assert SkipSpace("\n") == SkipSpace("");
  }

  lemma CheckIsValidity(text: string)
    ensures FirstInvalid(text).None? <==> ValidText(text)
  {
    var i := FirstInvalidIsFirst(text);
  }

  lemma NoReturnConcat(a: string, b: string)
    ensures NoReturn(a + b) <==> NoReturn(a) && NoReturn(b)
  {
    assert forall i :: 0 <= i < |a| ==> (a + b)[i] == a[i];
    assert forall i :: 0 <= i < |b| ==> (a + b)[|a| + i] == b[i];
  }

  lemma LabelHasNoReturn(jobLabel: string)
    requires ValidLaunchdLabel(jobLabel)
    ensures NoReturn(jobLabel)
  {
    forall i | 0 <= i < |jobLabel|
      ensures jobLabel[i] != '\r'
    {
      assert !IsControl(jobLabel[i]);
    }
  }

  lemma JoinedHasNoReturn(logDir: string, jobLabel: string, suffix: string)
    requires NoReturn(jobLabel) && NoReturn(suffix)
    ensures NoReturn(Join(logDir, jobLabel + suffix)) <==> NoReturn(logDir)
  {
    NoReturnConcat(jobLabel, suffix);
    NoReturnConcat(logDir, jobLabel + suffix);
    NoReturnConcat(logDir, "/");
    NoReturnConcat(logDir + "/", jobLabel + suffix);
  }

  predicate EntryHasNoReturn(e: Entry) {
    NoReturn(e.key) && NoReturns(e.value)
  }

  lemma SevenEntries(entries: seq<Entry>)
    requires |entries| == 7
    ensures NoReturns(Dictionary(entries)) <==>
              && EntryHasNoReturn(entries[0]) && EntryHasNoReturn(entries[1]) && EntryHasNoReturn(entries[2])
              && EntryHasNoReturn(entries[3]) && EntryHasNoReturn(entries[4]) && EntryHasNoReturn(entries[5])
              && EntryHasNoReturn(entries[6])
  {
    assert NoReturns(Dictionary(entries)) <==> forall i :: 0 <= i < |entries| ==> EntryHasNoReturn(entries[i]);
  }

  lemma KeysHaveNoReturn()
    ensures NoReturn("Label") && NoReturn("ProgramArguments") && NoReturn("RunAtLoad") && NoReturn("KeepAlive")
    ensures NoReturn("ExitTimeOut") && NoReturn("StandardOutPath") && NoReturn("StandardErrorPath")
    ensures NoReturn(".stdout.log") && NoReturn(".stderr.log")
  {
  }

  lemma ArgumentsHaveNoReturn(program: string, config: string)
    ensures NoReturns(Array([Text(program), Text(config)])) <==> NoReturn(program) && NoReturn(config)
  {
    var values := [Text(program), Text(config)];
    assert values[0] == Text(program) && values[1] == Text(config);
  }

  /** No text of the gateway's tree holds U+000D exactly when none of the three paths does. */
  lemma TreeHasNoReturn(jobLabel: string, program: string, config: string, logDir: string)
    requires NoReturn(jobLabel)
    ensures NoReturns(GatewayTree(jobLabel, program, config, logDir)) <==>
              NoReturn(program) && NoReturn(config) && NoReturn(logDir)
  {
    KeysHaveNoReturn();
    JoinedHasNoReturn(logDir, jobLabel, ".stdout.log");
    JoinedHasNoReturn(logDir, jobLabel, ".stderr.log");
    ArgumentsHaveNoReturn(program, config);
    SevenEntries(GatewayTree(jobLabel, program, config, logDir).entries);
  }

  /** The gateway's property list is written exactly when the label is a valid launchd label, every path is absolute, all
      are XML text, and the log directory is a directory; the derived log paths never fail their own checks. What is
      written reads back as the intended tree with its line ends normalised. */
  lemma GatewayPlistReads(jobLabel: string, program: string, config: string, logDir: string, state: DirectoryState)
    ensures var r := GatewayPlistXml(jobLabel, program, config, logDir, state);
            && (r.Ok? <==>
                  && ValidLaunchdLabel(jobLabel) && ValidText(jobLabel)
                  && Writable(program) && Writable(config) && Writable(logDir)
                  && state.IsDirectory?)
            && (r.Ok? ==> ParseDocument(r.value) == Parsed(Normal(GatewayTree(jobLabel, program, config, logDir)), ""))
  {
    CheckIsValidity(jobLabel);
    CheckIsValidity(program);
    CheckIsValidity(config);
    CheckIsValidity(logDir);
    CheckIsValidity(Join(logDir, jobLabel + ".stdout.log"));
    CheckIsValidity(Join(logDir, jobLabel + ".stderr.log"));
    GatewayKeysValid();
    if ValidText(jobLabel) && Writable(program) && Writable(config) && Writable(logDir) {
      LogPathsWritable(jobLabel, logDir, ".stdout.log");
      LogPathsWritable(jobLabel, logDir, ".stderr.log");
      GatewayTreeValid(jobLabel, program, config, logDir);
      DocumentReads(GatewayTree(jobLabel, program, config, logDir));
    }
  }

  /** What is written reads back as exactly the intended tree if and only if no path holds U+000D, which the checks admit. */
  lemma GatewayPlistExact(jobLabel: string, program: string, config: string, logDir: string, state: DirectoryState)
    ensures var r := GatewayPlistXml(jobLabel, program, config, logDir, state);
            r.Ok? ==>
              (ParseDocument(r.value) == Parsed(GatewayTree(jobLabel, program, config, logDir), "") <==>
                 NoReturn(program) && NoReturn(config) && NoReturn(logDir))
  {
    var r := GatewayPlistXml(jobLabel, program, config, logDir, state);
    GatewayPlistReads(jobLabel, program, config, logDir, state);
    if r.Ok? {
      LabelHasNoReturn(jobLabel);
      TreeHasNoReturn(jobLabel, program, config, logDir);
      NormalExact(GatewayTree(jobLabel, program, config, logDir));
    }
  }

  /** A character of the text that XML 1.0 does not admit, with none before it. */
  ghost predicate Offends(text: string, ch: char) {
    exists i :: 0 <= i < |text| && text[i] == ch && !IsXmlCharacter(ch) && ValidText(text[..i])
  }

  /** What an error says of the inputs. */
  ghost predicate Explains(e: SetupError, jobLabel: string, program: string, config: string, logDir: string,
                           state: DirectoryState) {
    match e
    case InvalidLabel => !ValidLaunchdLabel(jobLabel)
    case PathNotAbsolute(name) =>
      || (name == "program" && !("/" <= program))
      || (name == "configuration" && !("/" <= config) && Writable(program))
      || (name == "log directory" && !("/" <= logDir) && Writable(program) && Writable(config))
    case InvalidXmlCharacter(name, ch) =>
      || (name == "launchd label" && Offends(jobLabel, ch))
      || (name == "program" && Offends(program, ch))
      || (name == "configuration" && Offends(config, ch) && Writable(program))
      || (name == "log directory" && Offends(logDir, ch) && Writable(program) && Writable(config))
    case LogDirectoryUnavailable => state.Unavailable? && Writable(program) && Writable(config) && Writable(logDir)
    case LogDirectoryNotDirectory => state.NotDirectory? && Writable(program) && Writable(config) && Writable(logDir)
  }

  lemma OffendsFirst(text: string)
    ensures FirstInvalid(text).Some? ==> Offends(text, FirstInvalid(text).value)
    ensures FirstInvalid(text).None? <==> ValidText(text)
  {
    var i := FirstInvalidIsFirst(text);
  }

  /** An error names what is wrong: which input, the first offending character, and only where the inputs checked before it
      are fine. */
  lemma GatewayPlistExplains(jobLabel: string, program: string, config: string, logDir: string, state: DirectoryState)
    ensures var r := GatewayPlistXml(jobLabel, program, config, logDir, state);
            r.Err? ==> Explains(r.error, jobLabel, program, config, logDir, state)
  {
    OffendsFirst(jobLabel);
    OffendsFirst(program);
    OffendsFirst(config);
    OffendsFirst(logDir);
    GatewayPlistReads(jobLabel, program, config, logDir, state);
  }

  ghost predicate Holds(v: Value, key: string, value: Value) {
    v.Dictionary? && exists k :: 0 <= k < |v.entries| && v.entries[k] == Entry(key, value)
  }

  /** The path of a file in a directory: the two with one slash between them, which the directory may have already. */
  ghost predicate InDirectory(path: string, directory: string, name: string) {
    exists base: string :: JoinedAt(path, base, directory, name)
  }

  predicate JoinedAt(path: string, base: string, directory: string, name: string) {
    path == base + ("/" + name) && (directory == base + "/" || (directory == base && !EndsInSlash(base)))
  }

  predicate EndsInSlash(path: string) {
    |path| > 0 && path[|path| - 1] as int == 47
  }

  lemma JoinIsInDirectory(directory: string, name: string)
    ensures InDirectory(Join(directory, name), directory, name)
  {
    if EndsInSlash(directory) {
      var base := directory[..|directory| - 1];
      assert directory == base + "/";
      assert JoinedAt(Join(directory, name), base, directory, name);
    } else {
      assert JoinedAt(Join(directory, name), directory, directory, name);
    }
  }

  lemma SevenHeld(v: Value, e: seq<Entry>)
    requires |e| == 7 && v == Dictionary(e)
    ensures Holds(v, e[0].key, e[0].value) && Holds(v, e[1].key, e[1].value) && Holds(v, e[2].key, e[2].value)
    ensures Holds(v, e[3].key, e[3].value) && Holds(v, e[4].key, e[4].value) && Holds(v, e[5].key, e[5].value)
    ensures Holds(v, e[6].key, e[6].value)
  {
    forall k | 0 <= k < 7
      ensures Holds(v, e[k].key, e[k].value)
    {
      assert v.entries[k] == Entry(e[k].key, e[k].value);
    }
  }

  /** What the list says of the job, with the paths that the files have. */
  ghost predicate Describes(v: Value, jobLabel: string, program: string, config: string, stdout: string, stderr: string) {
    && v.Dictionary? && |v.entries| == 7
    && Holds(v, "Label", Text(jobLabel))
    && Holds(v, "ProgramArguments", Array([Text(program), Text(config)]))
    && Holds(v, "RunAtLoad", Bool(true))
    && Holds(v, "KeepAlive", Bool(true))
    && Holds(v, "ExitTimeOut", Integer(30))
    && Holds(v, "StandardOutPath", Text(stdout))
    && Holds(v, "StandardErrorPath", Text(stderr))
  }

  lemma TreeDescribes(jobLabel: string, program: string, config: string, logDir: string)
    ensures Describes(GatewayTree(jobLabel, program, config, logDir), jobLabel, program, config,
                      Join(logDir, jobLabel + ".stdout.log"), Join(logDir, jobLabel + ".stderr.log"))
  {
    var v := GatewayTree(jobLabel, program, config, logDir);
    SevenHeld(v, v.entries);
  }

  /** A list written for paths without U+000D reads back as seven entries: the label, the program with the configuration as
      its one argument, both flags set, 30 seconds to exit, and two files in the log directory named after the label. */
  lemma GatewayPlistDescribes(jobLabel: string, program: string, config: string, logDir: string, state: DirectoryState)
    returns (stdout: string, stderr: string)
    ensures InDirectory(stdout, logDir, jobLabel + ".stdout.log") && InDirectory(stderr, logDir, jobLabel + ".stderr.log")
    ensures var r := GatewayPlistXml(jobLabel, program, config, logDir, state);
            r.Ok? && NoReturn(program) && NoReturn(config) && NoReturn(logDir) ==>
              && ParseDocument(r.value).Parsed?
              && Describes(ParseDocument(r.value).value, jobLabel, program, config, stdout, stderr)
  {
    stdout, stderr := Join(logDir, jobLabel + ".stdout.log"), Join(logDir, jobLabel + ".stderr.log");
    JoinIsInDirectory(logDir, jobLabel + ".stdout.log");
    JoinIsInDirectory(logDir, jobLabel + ".stderr.log");
    GatewayPlistExact(jobLabel, program, config, logDir, state);
    TreeDescribes(jobLabel, program, config, logDir);
  }

  /** A program path that the code accepts and whose written list reads back as another tree. */
  lemma ReturnInPath()
    ensures var r := GatewayPlistXml("l", "/a\rb", "/c", "/d", IsDirectory);
            r.Ok? && ParseDocument(r.value) != Parsed(GatewayTree("l", "/a\rb", "/c", "/d"), "")
  {
    assert "/a\rb"[2] == '\r';
    GatewayPlistReads("l", "/a\rb", "/c", "/d", IsDirectory);
    GatewayPlistExact("l", "/a\rb", "/c", "/d", IsDirectory);
  }
}
