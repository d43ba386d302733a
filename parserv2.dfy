/** src/parserv2.php: the stand-alone script for the trace format of
    LogTraceParser,

      [2015-07-02 05:28:16] FileExporterApp.INFO: > GET / [] #TRACE#{"token":"5594cbf031252fee5"}

    It reads the log file line by line, keeps the lines that are not
    ignored, and renders them with ScriptMarkup, a database call being a
    record whose `level` is "doctrine.DEBUG". Unlike LogTraceParser it only
    trims the statement: the empty context "[]" stays in the message. */
module ParserV2 {
  import opened Text
  import opened Values
  import opened Regex
  import opened LineFormat
  import opened Template
  import opened ScriptMarkup

  /** The service the script is configured with. */
  const SERVICE_NAME: string := "pages-api"

  /** The script's ignore list, which is empty. */
  const IGNORE_PATTERNS: seq<string -> bool> := []

  /** The field isDbInteraction reads. */
  const KIND: string := "level"

  /** json_decode succeeds on the trace of every line that is kept: PHP
      cannot unite an array with the null a failed decode returns. */
  predicate Decodes(line: string, patterns: seq<string -> bool>, decode: JsonDecoder) {
    match MatchTraceLine(line)
    case None => true
    case Some(m) => !AnyMatches(patterns, Trim(m.statement)) ==> decode(Drop(m.trace, |TRACE_MARKER|)).Some?
  }

  /** One pass of parse's loop: the marker for a line of the wrong shape,
      nothing for an ignored statement, the statement's fields and the trace
      otherwise. */
  function LineEntry(line: string, patterns: seq<string -> bool>, decode: JsonDecoder): Option<ParsedLine>
    requires Decodes(line, patterns, decode)
  {
    match MatchTraceLine(line)
    case None => Some(Unmatched(NO_MATCH + line))
    case Some(m) => StatementEntry(Trim(m.statement), m.trace, patterns, decode)
  }

  predicate AllDecode(lines: seq<string>, patterns: seq<string -> bool>, decode: JsonDecoder) {
    forall i :: 0 <= i < |lines| ==> Decodes(lines[i], patterns, decode)
  }

  /** parse's list: the entries of the lines, in order. */
  function Parsed(lines: seq<string>, patterns: seq<string -> bool>, decode: JsonDecoder): seq<ParsedLine>
    requires AllDecode(lines, patterns, decode)
    decreases |lines|
  {
    if lines == [] then []
    else Parsed(lines[..|lines| - 1], patterns, decode) + Kept(LineEntry(lines[|lines| - 1], patterns, decode))
  }

  /** Parsing two runs of lines is parsing each and appending: every line
      contributes its own entry, in input order. */
  lemma {:induction false} ParsedAppend(a: seq<string>, b: seq<string>, patterns: seq<string -> bool>, decode: JsonDecoder)
    requires AllDecode(a, patterns, decode) && AllDecode(b, patterns, decode)
    ensures AllDecode(a + b, patterns, decode)
    ensures Parsed(a + b, patterns, decode) == Parsed(a, patterns, decode) + Parsed(b, patterns, decode)
    decreases |b|
  {
    AllDecodeAppend(a, b, patterns, decode);
    if b == [] {
      assert a + b == a;
    } else {
      var init := b[..|b| - 1];
      InitOfAppend(a, b);
      ParsedAppend(a, init, patterns, decode);
    }
  }

  lemma {:induction false} AllDecodeAppend(a: seq<string>, b: seq<string>, patterns: seq<string -> bool>, decode: JsonDecoder)
    requires AllDecode(a, patterns, decode) && AllDecode(b, patterns, decode)
    ensures AllDecode(a + b, patterns, decode)
  {
    forall i | 0 <= i < |a + b| ensures Decodes((a + b)[i], patterns, decode) {
      if i < |a| {
        assert (a + b)[i] == a[i];
      } else {
        assert (a + b)[i] == b[i - |a|];
      }
    }
  }

  /** The entry of one line is what parsing it alone gives. */
  lemma {:induction false} ParsedOne(line: string, patterns: seq<string -> bool>, decode: JsonDecoder)
    requires Decodes(line, patterns, decode)
    ensures AllDecode([line], patterns, decode)
    ensures Parsed([line], patterns, decode) == Kept(LineEntry(line, patterns, decode))
  {
    assert [line][..0] == [];
  }

  /** A line of the wrong shape is kept as the marker followed by the line. */
  lemma {:induction false} UnmatchedKept(line: string, patterns: seq<string -> bool>, decode: JsonDecoder)
    requires MatchTraceLine(line).None?
    ensures Decodes(line, patterns, decode)
    ensures LineEntry(line, patterns, decode) == Some(Unmatched(NO_MATCH + line))
  {
  }

  /** A line of the right shape whose trimmed statement an ignore pattern
      matches is dropped. */
  lemma {:induction false} IgnoredDropped(line: string, m: TraceLineMatch, patterns: seq<string -> bool>, decode: JsonDecoder)
    requires MatchTraceLine(line) == Some(m) && AnyMatches(patterns, Trim(m.statement))
    ensures Decodes(line, patterns, decode)
    ensures LineEntry(line, patterns, decode) == None
  {
  }

  /** With the script's empty ignore list, every line gives exactly one
      entry. */
  lemma {:induction false} ConfiguredKeepsAll(lines: seq<string>, decode: JsonDecoder)
    requires AllDecode(lines, IGNORE_PATTERNS, decode)
    ensures |Parsed(lines, IGNORE_PATTERNS, decode)| == |lines|
    decreases |lines|
  {
    if lines != [] {
      var last := lines[|lines| - 1];
      ConfiguredKeepsAll(lines[..|lines| - 1], decode);
      match MatchTraceLine(last)
      case None =>
      case Some(m) =>
        assert !AnyMatches(IGNORE_PATTERNS, Trim(m.statement));
    }
  }

  /** A line of the documented shape, whose statement ends in the empty
      context " [] " and is not ignored, becomes its level, its message
      with " []" still at the end, and the decoded trace. */
  lemma {:induction false} DocumentedLineParsed(timestamp: string, gap: nat, level: string, gap2: nat, message: string,
                                               trace: string, patterns: seq<string -> bool>, decode: JsonDecoder,
                                               fields: Record, newline: bool)
    requires IsTimestamp(timestamp) && gap >= 1 && IsLevel(level) && gap2 >= 1
    requires message != [] && message[0] != ' ' && SingleLine(message)
    requires IsTraceGroup(trace) && decode(trace[|TRACE_MARKER|..]) == Some(fields)
    requires !AnyMatches(patterns, MessageShape(level, gap2, message + " []"))
    ensures Decodes(LineShape(timestamp, gap, MessageShape(level, gap2, message + " [] "), trace) + (if newline then "\n" else ""), patterns, decode)
    ensures LineEntry(LineShape(timestamp, gap, MessageShape(level, gap2, message + " [] "), trace) + (if newline then "\n" else ""), patterns, decode)
         == Some(Structured(Union(map["level" := Str(level), "message" := Str(message + " []")], fields)))
  {
    var statement := MessageShape(level, gap2, message + " [] ");
    StatementOfMessage(level, gap2, message);
    TraceLineAccepted(timestamp, gap, statement, trace, newline);
    TrimmedStatement(level, gap2, message);
    BracketedMessage(message);
    MessageMatchedOnce(level, gap2, message + " []");
    assert Drop(trace, |TRACE_MARKER|) == trace[|TRACE_MARKER|..];
  }

  /** The message with the empty context kept is still one `.*` can
      match. */
  lemma {:induction false} BracketedMessage(message: string)
    requires message != [] && message[0] != ' ' && SingleLine(message)
    ensures IsStatementText(message + " []")
  {
    assert SingleLine(" []");
    SingleLineAppend(message, " []");
  }

  /** Trimming removes only the final space. */
  lemma {:induction false} TrimmedStatement(level: string, gap: nat, message: string)
    requires IsLevel(level)
    ensures Trim(MessageShape(level, gap, message + " [] ")) == MessageShape(level, gap, message + " []")
  {
    var s := MessageShape(level, gap, message + " []");
    assert MessageShape(level, gap, message + " [] ") == s + " ";
    assert s[0] == level[0] && s[|s| - 1] == ']';
    TrimTrailingSpace(s);
  }

  /** Whether a line is kept does not depend on the order of the ignore
      patterns. */
  lemma {:induction false} IgnoreOrder(lines: seq<string>, p: seq<string -> bool>, q: seq<string -> bool>, decode: JsonDecoder)
    requires multiset(p) == multiset(q)
    requires AllDecode(lines, p, decode)
    ensures AllDecode(lines, q, decode)
    ensures Parsed(lines, p, decode) == Parsed(lines, q, decode)
    decreases |lines|
  {
    forall i | 0 <= i < |lines| ensures Decodes(lines[i], q, decode) {
      match MatchTraceLine(lines[i])
      case None =>
      case Some(m) =>
        IgnoreOrderIrrelevant(p, q, Trim(m.statement));
    }
    if lines != [] {
      var last := lines[|lines| - 1];
      IgnoreOrder(lines[..|lines| - 1], p, q, decode);
      match MatchTraceLine(last)
      case None =>
      case Some(m) =>
        IgnoreOrderIrrelevant(p, q, Trim(m.statement));
    }
  }

  /** When every line has the trace format, every entry is a record, as
      render needs. */
  lemma {:induction false} MatchedLinesStructured(lines: seq<string>, patterns: seq<string -> bool>, decode: JsonDecoder)
    requires AllDecode(lines, patterns, decode) && AllMatched(lines)
    ensures AllStructured(Parsed(lines, patterns, decode))
    decreases |lines|
  {
    if lines != [] {
      var init, last := lines[..|lines| - 1], lines[|lines| - 1];
      MatchedLinesStructured(init, patterns, decode);
      AllStructuredAppend(Parsed(init, patterns, decode), Kept(LineEntry(last, patterns, decode)));
    }
  }

  /** The entries of the first n lines. */
  function ParsedPrefix(lines: seq<string>, n: nat, patterns: seq<string -> bool>, decode: JsonDecoder): seq<ParsedLine>
    requires AllDecode(lines, patterns, decode) && n <= |lines|
  {
    Parsed(lines[..n], patterns, decode)
  }

  /** parse's loop, one line further. */
  lemma {:induction false} ParsedPrefixStep(lines: seq<string>, i: nat, patterns: seq<string -> bool>, decode: JsonDecoder)
    requires AllDecode(lines, patterns, decode) && i < |lines|
    ensures Decodes(lines[i], patterns, decode)
    ensures ParsedPrefix(lines, i + 1, patterns, decode)
         == ParsedPrefix(lines, i, patterns, decode) + Kept(LineEntry(lines[i], patterns, decode))
  {
    assert lines[..i + 1][..i] == lines[..i];
  }

  lemma {:induction false} ParsedWhole(lines: seq<string>, patterns: seq<string -> bool>, decode: JsonDecoder)
    requires AllDecode(lines, patterns, decode)
    ensures ParsedPrefix(lines, |lines|, patterns, decode) == Parsed(lines, patterns, decode)
  {
    WholePrefix(lines, |lines|);
  }

  /** The script's static state: its ignore list, and the renderer that
      holds the service name and the indentation depth. */
  class Parser {
    const statementIgnorePatterns: seq<string -> bool>
    const script: ScriptRenderer

    /** The renderer keys database calls on `level`. */
    predicate Valid() {
      script.kind == KIND
    }

    constructor(serviceName: string, statementIgnorePatterns: seq<string -> bool>)
      ensures Valid() && this.statementIgnorePatterns == statementIgnorePatterns
      ensures fresh(script) && script.serviceName == serviceName && script.indentCount == 1
    {
      this.statementIgnorePatterns := statementIgnorePatterns;
      script := new ScriptRenderer(serviceName, KIND);
    }

    /** The body of parse's loop for one line read. */
    method ParseLine(buffer: string, decode: JsonDecoder) returns (entry: Option<ParsedLine>)
      requires Decodes(buffer, statementIgnorePatterns, decode)
      ensures entry == LineEntry(buffer, statementIgnorePatterns, decode)
    {
      var matched := MatchTraceLine(buffer);
      if matched.None? {
        entry := Some(Unmatched(NO_MATCH + buffer));
      } else {
        var statement := Trim(matched.value.statement);
        var ignore := ScanIgnorePatterns(statementIgnorePatterns, statement);
        if ignore {
          entry := None;
        } else {
          entry := Some(Structured(Union(ParseStatement(statement), ParseTrace(matched.value.trace, decode))));
        }
      }
    }

    /** parse: the entries of the lines read, in order. */
    method Parse(lines: seq<string>, decode: JsonDecoder) returns (parsedLines: seq<ParsedLine>)
      requires AllDecode(lines, statementIgnorePatterns, decode)
      ensures parsedLines == Parsed(lines, statementIgnorePatterns, decode)
    {
      parsedLines := [];
      var i := 0;
      while i < |lines|
        invariant 0 <= i <= |lines|
        invariant parsedLines == ParsedPrefix(lines, i, statementIgnorePatterns, decode)
      {
        ParsedPrefixStep(lines, i, statementIgnorePatterns, decode);
        var entry := ParseLine(lines[i], decode);
        if entry.Some? {
          parsedLines := parsedLines + [entry.value];
        }
        i := i + 1;
      }
      ParsedWhole(lines, statementIgnorePatterns, decode);
    }

    /** run: parse the lines of the log file, then render them with the
        file's text as the raw logs. */
    method Run(lines: seq<string>, template: string, decode: JsonDecoder, dateR: string -> string) returns (rendered: string)
      requires Valid() && AllDecode(lines, statementIgnorePatterns, decode) && AllMatched(lines)
      modifies script
      ensures script.indentCount == old(script.indentCount) + 1
      ensures AllStructured(Parsed(lines, statementIgnorePatterns, decode))
      ensures rendered == Page(template, Concat(lines), Records(Parsed(lines, statementIgnorePatterns, decode)),
                               KIND, old(script.indentCount), script.serviceName, dateR)
    {
      var parsed := Parse(lines, decode);
      MatchedLinesStructured(lines, statementIgnorePatterns, decode);
      rendered := script.Render(parsed, Concat(lines), template, dateR);
    }
  }

  /** The script's top level: the parser is configured with the service
      name and the empty ignore list, then run once; its render starts at
      depth 1. */
  method RunScript(lines: seq<string>, template: string, decode: JsonDecoder, dateR: string -> string) returns (rendered: string)
    requires AllDecode(lines, IGNORE_PATTERNS, decode) && AllMatched(lines)
    ensures AllStructured(Parsed(lines, IGNORE_PATTERNS, decode))
    ensures |Parsed(lines, IGNORE_PATTERNS, decode)| == |lines|
    ensures rendered == Page(template, Concat(lines), Records(Parsed(lines, IGNORE_PATTERNS, decode)), KIND, 1, SERVICE_NAME, dateR)
  {
    var parser := new Parser(SERVICE_NAME, IGNORE_PATTERNS);
    rendered := parser.Run(lines, template, decode, dateR);
    ConfiguredKeepsAll(lines, decode);
  }
}
