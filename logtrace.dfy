/** LogTraceParser (Io/Samk/Logging/LogTraceParser.php): reads the log
    events of one request as CloudWatch returns them, keeps the lines of the
    trace format, and renders them as a Jumly sequence diagram inside an
    HTML template. The parser object keeps its service name, its ignore
    patterns and the current indentation depth, which render raises by one
    and never lowers again. */
module LogTrace {
  import opened Text
  import opened Values
  import opened Regex
  import opened LineFormat
  import opened TraceEvents
  import opened Jumly
  import opened Template
  import opened Route

  /** preg_replace('/(\[\])$/', '', s): "[]" at the very end, or just before
      a final "\n", is removed. */
  function StripEmptyBrackets(s: string): string {
    var n := |s|;
    if n >= 2 && s[n - 2] == '[' && s[n - 1] == ']' then s[..n - 2]
    else if n >= 3 && s[n - 3] == '[' && s[n - 2] == ']' && s[n - 1] == '\n' then s[..n - 3] + "\n"
    else s
  }

  /** The trailing empty context Monolog writes is removed... */
  lemma {:induction false} StripAppendedBrackets(s: string)
    ensures StripEmptyBrackets(s + "[]") == s
  {
    assert (s + "[]")[..|s|] == s;
  }

  /** ...and only once: a second pair before it stays. */
  lemma {:induction false} StripOnlyOnce(s: string)
    ensures StripEmptyBrackets(s + "[][]") == s + "[]"
  {
    assert s + "[][]" == (s + "[]") + "[]";
    StripAppendedBrackets(s + "[]");
  }

  /** Before a final line feed the pair is removed too. */
  lemma {:induction false} StripBeforeNewline(s: string)
    ensures StripEmptyBrackets(s + "[]\n") == s + "\n"
  {
    assert (s + "[]\n")[..|s|] == s;
  }

  /** A statement that does not end in "[]" is left as it is. */
  lemma {:induction false} StripKeepsOtherEndings(s: string)
    requires s == [] || (s[|s| - 1] != ']' && s[|s| - 1] != '\n')
    ensures StripEmptyBrackets(s) == s
  {
  }

  /** The statement matchLine passes on: trimmed, then stripped of a
      trailing "[]". */
  function CleanStatement(statement: string): string {
    StripEmptyBrackets(Trim(statement))
  }

  /** json_decode succeeds on the trace of every line that is kept. PHP
      cannot unite an array with the null a failed decode returns, so this
      is what matchLine needs of its input. */
  predicate Decodes(line: string, patterns: seq<string -> bool>, decode: JsonDecoder) {
    match MatchTraceLine(line)
    case None => true
    case Some(m) => !AnyMatches(patterns, CleanStatement(m.statement)) ==> decode(Drop(m.trace, |TRACE_MARKER|)).Some?
  }

  /** matchLine: the marker for a line of the wrong shape, nothing for an
      ignored statement, the statement's fields and the trace otherwise. */
  function LineEntry(line: string, patterns: seq<string -> bool>, decode: JsonDecoder): (r: Option<ParsedLine>)
    requires Decodes(line, patterns, decode)
  {
    match MatchTraceLine(line)
    case None => Some(Unmatched(NO_MATCH + line))
    case Some(m) => StatementEntry(CleanStatement(m.statement), m.trace, patterns, decode)
  }

  /** Every event decodes where it must (see Decodes). */
  predicate AllDecode(lines: seq<string>, patterns: seq<string -> bool>, decode: JsonDecoder)
    decreases |lines|
  {
    lines == [] || (AllDecode(lines[..|lines| - 1], patterns, decode) && Decodes(lines[|lines| - 1], patterns, decode))
  }


  lemma {:induction false} AllDecodePrefix(lines: seq<string>, n: nat, patterns: seq<string -> bool>, decode: JsonDecoder)
    requires AllDecode(lines, patterns, decode) && n <= |lines|
    ensures AllDecode(lines[..n], patterns, decode)
    ensures n < |lines| ==> Decodes(lines[n], patterns, decode)
    decreases |lines|
  {
    if n < |lines| {
      var init := lines[..|lines| - 1];
      assert init[..n] == lines[..n];
      if n < |init| {
        AllDecodePrefix(init, n, patterns, decode);
        assert init[n] == lines[n];
      }
    } else {
      assert lines[..n] == lines;
    }
  }

  /** parseCloudWatchFormat's list: the entries of the events that are not
      ignored, in order. */
  function Parsed(lines: seq<string>, patterns: seq<string -> bool>, decode: JsonDecoder): seq<ParsedLine>
    requires AllDecode(lines, patterns, decode)
    decreases |lines|
  {
    if lines == [] then []
    else Parsed(lines[..|lines| - 1], patterns, decode) + Kept(LineEntry(lines[|lines| - 1], patterns, decode))
  }

  /** A line of the documented shape, such as

        [2015-07-02 05:28:16] FileExporterApp.INFO: > GET / [] #TRACE#{"token":"5594cbf031252fee5"}

      whose statement ends in the empty context " [] " and is not ignored,
      becomes its level, its message with the space before "[]" kept, and
      the decoded trace. */
  lemma {:induction false} DocumentedLineParsed(timestamp: string, gap: nat, level: string, gap2: nat, message: string,
                                               trace: string, patterns: seq<string -> bool>, decode: JsonDecoder,
                                               fields: Record, newline: bool)
    requires IsTimestamp(timestamp) && gap >= 1 && IsLevel(level) && gap2 >= 1
    requires message != [] && message[0] != ' ' && SingleLine(message)
    requires IsTraceGroup(trace) && decode(trace[|TRACE_MARKER|..]) == Some(fields)
    requires !AnyMatches(patterns, MessageShape(level, gap2, message + " "))
    ensures Decodes(LineShape(timestamp, gap, MessageShape(level, gap2, message + " [] "), trace) + (if newline then "\n" else ""), patterns, decode)
    ensures LineEntry(LineShape(timestamp, gap, MessageShape(level, gap2, message + " [] "), trace) + (if newline then "\n" else ""), patterns, decode)
         == Some(Structured(Union(map["level" := Str(level), "message" := Str(message + " ")], fields)))
  {
    var statement := MessageShape(level, gap2, message + " [] ");
    StatementOfMessage(level, gap2, message);
    TraceLineAccepted(timestamp, gap, statement, trace, newline);
    CleanedStatement(level, gap2, message);
    MessageMatchedOnce(level, gap2, message + " ");
    assert Drop(trace, |TRACE_MARKER|) == trace[|TRACE_MARKER|..];
  }


  /** Trimming removes only the final space and the strip only the "[]". */
  lemma {:induction false} CleanedStatement(level: string, gap: nat, message: string)
    requires IsLevel(level) && message != []
    ensures CleanStatement(MessageShape(level, gap, message + " [] ")) == MessageShape(level, gap, message + " ")
  {
    var s := MessageShape(level, gap, message + " []");
    assert MessageShape(level, gap, message + " [] ") == s + " ";
    assert s == MessageShape(level, gap, message + " ") + "[]";
    assert s[0] == level[0];
    TrimTrailingSpace(s);
    StripAppendedBrackets(MessageShape(level, gap, message + " "));
  }



  /** With no ignore patterns, every event adds exactly one entry, in order. */
  lemma {:induction false} EveryLineKept(lines: seq<string>, decode: JsonDecoder)
    requires AllDecode(lines, [], decode)
    ensures |Parsed(lines, [], decode)| == |lines|
    ensures forall i :: 0 <= i < |lines| ==>
              Decodes(lines[i], [], decode) && Some(Parsed(lines, [], decode)[i]) == LineEntry(lines[i], [], decode)
    decreases |lines|
  {
    if lines != [] {
      var init, last := lines[..|lines| - 1], lines[|lines| - 1];
      EveryLineKept(init, decode);
      var entry := NothingIgnored(last, decode);
      SplitLast(lines);
      AppendOne(Parsed(init, [], decode), entry, init, last, lines, Parsed(lines, [], decode), decode);
    }
  }

  /** Without ignore patterns every line yields an entry. */
  lemma {:induction false} NothingIgnored(line: string, decode: JsonDecoder) returns (entry: ParsedLine)
    requires Decodes(line, [], decode)
    ensures LineEntry(line, [], decode) == Some(entry) && Kept(LineEntry(line, [], decode)) == [entry]
  {
    match MatchTraceLine(line)
    case None =>
      entry := Unmatched(NO_MATCH + line);
    case Some(m) =>
      assert !AnyMatches([], CleanStatement(m.statement));
      entry := LineEntry(line, [], decode).value;
  }

  lemma {:induction false} AppendOne(parsed: seq<ParsedLine>, entry: ParsedLine, init: seq<string>, last: string,
                                     lines: seq<string>, all: seq<ParsedLine>, decode: JsonDecoder)
    requires |parsed| == |init| && lines == init + [last] && all == parsed + [entry]
    requires forall i :: 0 <= i < |init| ==> Decodes(init[i], [], decode) && Some(parsed[i]) == LineEntry(init[i], [], decode)
    requires Decodes(last, [], decode) && Some(entry) == LineEntry(last, [], decode)
    ensures |all| == |lines|
    ensures forall i :: 0 <= i < |lines| ==> Decodes(lines[i], [], decode) && Some(all[i]) == LineEntry(lines[i], [], decode)
  {
    SnocPointwise(init, parsed, last, entry, (line, e) => Decodes(line, [], decode) && Some(e) == LineEntry(line, [], decode));
  }

  /** Whether a statement is kept does not depend on the order of the
      ignore patterns. */
  lemma {:induction false} IgnoreOrder(lines: seq<string>, p: seq<string -> bool>, q: seq<string -> bool>, decode: JsonDecoder)
    requires multiset(p) == multiset(q)
    requires AllDecode(lines, p, decode)
    ensures AllDecode(lines, q, decode)
    ensures Parsed(lines, p, decode) == Parsed(lines, q, decode)
    decreases |lines|
  {
    if lines != [] {
      var init, last := lines[..|lines| - 1], lines[|lines| - 1];
      IgnoreOrder(init, p, q, decode);
      match MatchTraceLine(last)
      case None =>
      case Some(m) =>
        IgnoreOrderIrrelevant(p, q, CleanStatement(m.statement));
    }
  }

  /** The lines render writes for one record after the route, at the given
      depth: a boundary entry becomes a call from the service to the
      event's context, named by its action, with the unescaped message as
      the note; a response send becomes a reply to the client carrying the
      unescaped message; every other record a note with its double quotes
      turned into single ones. */
  function Segment(record: Record, depth: nat, service: string): seq<Line> {
    var event := FromRecord(record);
    if IsBoundaryEntry(event) then
      CallBlock(depth, OrEmpty(event.eventAction), OrEmpty(event.eventContext), Get(record, "message"), service)
    else if IsResponseSend(event) then
      [Line(depth, Reply(Get(record, "message"), "Client"))]
    else
      [Line(depth, Note(ReplaceQuotes(Get(record, "message"))))]
  }

  /** The segments of the records, in order. */
  function Body(records: seq<Record>, depth: nat, service: string): seq<Line> {
    if records == [] then []
    else Body(records[..|records| - 1], depth, service) + Segment(records[|records| - 1], depth, service)
  }

  /** The body of two runs of records is the body of the first followed by
      that of the second. */
  lemma {:induction false} BodyAppend(a: seq<Record>, b: seq<Record>, depth: nat, service: string)
    ensures Body(a + b, depth, service) == Body(a, depth, service) + Body(b, depth, service)
    decreases |b|
  {
    if b == [] {
      assert a + b == a;
    } else {
      var init, last := b[..|b| - 1], b[|b| - 1];
      InitOfAppend(a, b);
      BodyAppend(a, init, depth, service);
      ConcatAssoc(Body(a, depth, service), Body(init, depth, service), Segment(last, depth, service));
    }
  }

  /** A body rendered one level deeper is the same body with every line
      one level deeper. */
  lemma {:induction false} BodyDeeper(records: seq<Record>, depth: nat, service: string)
    ensures Body(records, depth + 1, service) == Deeper(Body(records, depth, service))
  {
    if records != [] {
      var init := records[..|records| - 1];
      var last := records[|records| - 1];
      BodyDeeper(init, depth, service);
      DeeperAppend(Body(init, depth, service), Segment(last, depth, service));
      SegmentDeeper(last, depth, service);
    }
  }

  lemma {:induction false} SegmentDeeper(record: Record, depth: nat, service: string)
    ensures Segment(record, depth + 1, service) == Deeper(Segment(record, depth, service))
  {
    var event := FromRecord(record);
    var message := Get(record, "message");
    if IsBoundaryEntry(event) {
      CallBlockDeeper(depth, OrEmpty(event.eventAction), OrEmpty(event.eventContext), message, service);
    } else if IsResponseSend(event) {
      OneLineDeeper(depth, Reply(message, "Client"));
    } else {
      OneLineDeeper(depth, Note(ReplaceQuotes(message)));
    }
  }

  /** The first record, or the empty array PHP reads a missing one as. */
  function FirstRecord(records: seq<Record>): Record {
    if records == [] then map[] else records[0]
  }

  /** The records after the first. */
  function Rest(records: seq<Record>): seq<Record> {
    if records == [] then [] else records[1..]
  }

  /** The message the script opens with: the request's route, sent from
      the client to the service at the given depth. */
  function RouteLine(first: Record, depth: nat, service: string): Line {
    Line(depth, Message(ReplaceQuotes(RouteMessage(Get(first, "message"))), service))
  }

  /** The whole script: the client actor, the route message, then the
      records after the first one level deeper. */
  function ScriptLines(records: seq<Record>, depth: nat, service: string): seq<Line> {
    [Line(0, FOUND_CLIENT), RouteLine(FirstRecord(records), depth, service)] + Body(Rest(records), depth + 1, service)
  }

  const CONTACT_CAPTION: string := "Initialize Contact"

  /** The caption of the page: "Initialize Contact", followed by " @ " and
      the formatted start time when the first record has one. */
  function InitMessage(first: Record, dateR: string -> string): string {
    if IsSet(first, "time") then CONTACT_CAPTION + (" @ " + FormatMicrotime(Get(first, "time"), dateR))
    else CONTACT_CAPTION
  }

  /** With a start time "seconds.fraction" the caption shows the date with
      the fraction after the clock time; without one it is the bare
      caption. */
  lemma {:induction false} InitMessageOfTime(first: Record, seconds: string, fraction: string, dateR: string -> string,
                                            prefix: string, clock: string, zone: string)
    requires "time" in first && first["time"] == Str(seconds + "." + fraction)
    requires '.' !in seconds && '.' !in fraction
    requires dateR(seconds) == prefix + clock + zone
    requires ':' !in prefix && ':' !in zone && |clock| == 8 && ClockAt(clock, 0)
    ensures InitMessage(first, dateR) == "Initialize Contact" + (" @ " + (prefix + clock + "." + fraction + zone))
    ensures InitMessage(first - {"time"}, dateR) == "Initialize Contact"
  {
    FormatMicrotimeOfDate(seconds, fraction, dateR, prefix, clock, zone);
  }

  /** The page render returns: the template with the token, the caption,
      the script and the raw events joined by line feeds. */
  function Page(template: string, raw: seq<string>, records: seq<Record>, depth: nat, service: string,
                dateR: string -> string): string {
    var first := FirstRecord(records);
    FillTemplate(template, Get(first, "token"), InitMessage(first, dateR),
                 Layout(ScriptLines(records, depth, service)), Join(raw, "\n"))
  }

  /** A second render by the same parser draws the same script one level
      deeper, since render raises the depth and nothing lowers it. */
  lemma {:induction false} RenderAgainDeeper(records: seq<Record>, depth: nat, service: string)
    ensures ScriptLines(records, depth + 1, service)[1..] == Deeper(ScriptLines(records, depth, service)[1..])
  {
    var first, rest := FirstRecord(records), Rest(records);
    ScriptParts(records, depth, service);
    ScriptParts(records, depth + 1, service);
    BodyDeeper(rest, depth + 1, service);
    DeeperCons(RouteLine(first, depth, service), Body(rest, depth + 1, service),
               RouteLine(first, depth + 1, service), Body(rest, depth + 2, service));
  }

  lemma {:induction false} ScriptParts(records: seq<Record>, depth: nat, service: string)
    ensures ScriptLines(records, depth, service)[0] == Line(0, FOUND_CLIENT)
    ensures ScriptLines(records, depth, service)[1..]
         == [RouteLine(FirstRecord(records), depth, service)] + Body(Rest(records), depth + 1, service)
  {
    TwoThenRest(Line(0, FOUND_CLIENT), RouteLine(FirstRecord(records), depth, service), Body(Rest(records), depth + 1, service));
  }

  class LogTraceParser {
    const serviceName: string
    const statementIgnorePatterns: seq<string -> bool>
    var indentCount: nat

    constructor(serviceName: string, statementIgnorePatterns: seq<string -> bool>)
      ensures this.serviceName == serviceName && this.statementIgnorePatterns == statementIgnorePatterns
      ensures indentCount == 1
    {
      this.serviceName := serviceName;
      this.statementIgnorePatterns := statementIgnorePatterns;
      indentCount := 1;
    }

    /** matchLine: match the line, clean the statement, stop at the first
        ignore pattern that matches, and build the entry. */
    method MatchLine(line: string, decode: JsonDecoder) returns (entry: Option<ParsedLine>)
      requires Decodes(line, statementIgnorePatterns, decode)
      ensures entry == LineEntry(line, statementIgnorePatterns, decode)
    {
      var matched := MatchTraceLine(line);
      if matched.None? {
        entry := Some(Unmatched(NO_MATCH + line));
      } else {
        var statement := CleanStatement(matched.value.statement);
        var ignore := ScanIgnorePatterns(statementIgnorePatterns, statement);
        if ignore {
          entry := None;
        } else {
          var fields := Union(ParseStatement(statement), ParseTrace(matched.value.trace, decode));
          entry := Some(Structured(fields));
        }
      }
    }

    /** parseCloudWatchFormat: the message of every event as raw text, and
        the entries of those that are not ignored, in order. */
    method ParseCloudWatchFormat(events: seq<string>, decode: JsonDecoder) returns (raw: seq<string>, parsed: seq<ParsedLine>)
      requires AllDecode(events, statementIgnorePatterns, decode)
      ensures raw == events
      ensures parsed == Parsed(events, statementIgnorePatterns, decode)
    {
      raw := [];
      parsed := [];
      var i := 0;
      while i < |events|
        invariant 0 <= i <= |events|
        invariant raw == events[..i]
        invariant parsed == ParsedPrefix(events, i, statementIgnorePatterns, decode)
      {
        ParsedPrefixStep(events, i, statementIgnorePatterns, decode);
        raw := raw + [events[i]];
        var entry := MatchLine(events[i], decode);
        if entry.Some? {
          parsed := parsed + [entry.value];
        }
        i := i + 1;
      }
      ParsedWhole(events, statementIgnorePatterns, decode);
    }

    /** renderDbInteraction: the call to the event's context, its note and
        the service's reply one level deeper, the depth restored after. */
    method RenderDbInteraction(record: Record, event: TraceEvent) returns (markup: string)
      modifies this
      ensures indentCount == old(indentCount)
      ensures Jumly.Indent(indentCount) + markup + EOL
           == Layout(CallBlock(indentCount, OrEmpty(event.eventAction), OrEmpty(event.eventContext), Get(record, "message"), serviceName))
    {
      var caption, target, note := OrEmpty(event.eventAction), OrEmpty(event.eventContext), Get(record, "message");
      ghost var depth := indentCount;
      markup := Message(caption, target) + EOL;
      indentCount := indentCount + 1;
      markup := markup + Jumly.Indent(indentCount) + Note(note) + EOL;
      markup := markup + Jumly.Indent(indentCount) + Reply("", serviceName);
      indentCount := indentCount - 1;
      CallBlockAfterIndent(depth, caption, target, note, serviceName, markup);
    }

    /** render: the script from the parsed statements, at the parser's
        current depth, filled into the template with the raw events. The
        depth is one level higher afterwards. */
    method Render(raw: seq<string>, parsed: seq<ParsedLine>, template: string, dateR: string -> string) returns (rendered: string)
      requires AllStructured(parsed)
      modifies this
      ensures indentCount == old(indentCount) + 1
      ensures rendered == Page(template, raw, Records(parsed), old(indentCount), serviceName, dateR)
    {
      var records := Records(parsed);
      ghost var depth := indentCount;
      var head := RenderHead(FirstRecord(records));
      var body := RenderBody(Rest(records), depth);
      rendered := FillPage(template, raw, records, dateR, head, body, depth, serviceName);
    }

    /** Render's middle: one level deeper, the lines of the records after
        the first. */
    method RenderBody(rest: seq<Record>, ghost depth: nat) returns (body: string)
      requires indentCount == depth
      modifies this
      ensures indentCount == depth + 1
      ensures body == Layout(Body(rest, depth + 1, serviceName))
    {
      indentCount := indentCount + 1;
      body := RenderStatements(rest, depth + 1);
    }

    /** Render's last step: the template filled with the first record's
        token, the contact caption, the script and the raw events. */
    static method FillPage(template: string, raw: seq<string>, records: seq<Record>, dateR: string -> string,
                           head: string, body: string, ghost depth: nat, ghost service: string)
      returns (rendered: string)
      requires head == Layout([Line(0, FOUND_CLIENT), RouteLine(FirstRecord(records), depth, service)])
      requires body == Layout(Body(Rest(records), depth + 1, service))
      ensures rendered == Page(template, raw, records, depth, service, dateR)
    {
      var first := FirstRecord(records);
      var token := Get(first, "token");
      var initMessage := ContactCaption(first, dateR);
      var markup := head + body;
      rendered := FillTemplate(template, token, initMessage, markup, Join(raw, "\n"));
      PageOfParts(template, raw, records, depth, service, dateR, token, initMessage, markup, rendered);
    }

    /** Render's caption for the contact: its time, when the first record
        has one. */
    static method ContactCaption(first: Record, dateR: string -> string) returns (initMessage: string)
      ensures initMessage == InitMessage(first, dateR)
    {
      initMessage := "Initialize Contact";
      if IsSet(first, "time") {
        var initTime := FormatMicrotime(Get(first, "time"), dateR);
        initMessage := initMessage + (" @ " + initTime);
      }
    }

    /** Render's opening lines: the client found, then the request of the
        first record at the current depth. */
    method RenderHead(first: Record) returns (markup: string)
      ensures markup == Layout([Line(0, FOUND_CLIENT), RouteLine(first, indentCount, serviceName)])
    {
      markup := FOUND_CLIENT + EOL;
      var routeMessage := RouteMessage(Get(first, "message"));
      markup := markup + (Jumly.Indent(indentCount) + Message(ReplaceQuotes(routeMessage), serviceName) + EOL);
      HeadText(first, indentCount, serviceName, markup);
    }

    /** Render's loop over the records after the first: the lines of each,
        at the current depth, in order. */
    method RenderStatements(rest: seq<Record>, ghost depth: nat) returns (markup: string)
      requires indentCount == depth
      modifies this
      ensures indentCount == depth
      ensures markup == Layout(Body(rest, depth, serviceName))
    {
      markup := "";
      var i := 0;
      EmptyBody(rest, depth, serviceName, markup);
      while i < |rest|
        invariant 0 <= i <= |rest|
        invariant indentCount == depth
        invariant markup == Layout(Body(rest[..i], depth, serviceName))
      {
        var piece := RenderStatement(rest[i]);
        SegmentStep(rest, i, depth, serviceName, markup, piece);
        markup := markup + piece;
        i := i + 1;
      }
      WholePrefix(rest, i);
    }

    /** The body of render's loop: the lines of one record, each indented
        at the current depth and ended by PHP_EOL. */
    method RenderStatement(record: Record) returns (piece: string)
      modifies this
      ensures indentCount == old(indentCount)
      ensures piece == Layout(Segment(record, indentCount, serviceName))
    {
      var event := FromRecord(record);
      if IsBoundaryEntry(event) {
        var block := RenderDbInteraction(record, event);
        piece := Jumly.Indent(indentCount) + block + EOL;
      } else if IsResponseSend(event) {
        piece := Jumly.Indent(indentCount) + Reply(Get(record, "message"), "Client") + EOL;
        OneLineText(Line(indentCount, Reply(Get(record, "message"), "Client")));
      } else {
        piece := Jumly.Indent(indentCount) + Note(ReplaceQuotes(Get(record, "message"))) + EOL;
        OneLineText(Line(indentCount, Note(ReplaceQuotes(Get(record, "message")))));
      }
    }

    /** run: parse the events, then render them. */
    method Run(events: seq<string>, template: string, decode: JsonDecoder, dateR: string -> string) returns (rendered: string)
      requires AllDecode(events, statementIgnorePatterns, decode) && AllMatched(events)
      modifies this
      ensures indentCount == old(indentCount) + 1
      ensures AllStructured(Parsed(events, statementIgnorePatterns, decode))
      ensures rendered == Page(template, events, Records(Parsed(events, statementIgnorePatterns, decode)),
                               old(indentCount), serviceName, dateR)
    {
      var raw, parsed := ParseCloudWatchFormat(events, decode);
      MatchedLinesStructured(events, statementIgnorePatterns, decode);
      rendered := Render(raw, parsed, template, dateR);
    }
  }


  /** One pass of render's loop: the text appended is the layout of the
      next record's segment. */
  lemma {:induction false} SegmentStep(rest: seq<Record>, i: nat, depth: nat, service: string, before: string, piece: string)
    requires i < |rest|
    requires before == Layout(Body(rest[..i], depth, service))
    requires piece == Layout(Segment(rest[i], depth, service))
    ensures before + piece == Layout(Body(rest[..i + 1], depth, service))
  {
    BodyStep(rest, i, depth, service);
    LayoutAppend(Body(rest[..i], depth, service), Segment(rest[i], depth, service));
  }

  /** Before the loop there is no text. */
  lemma {:induction false} EmptyBody(rest: seq<Record>, depth: nat, service: string, markup: string)
    requires markup == ""
    ensures markup == Layout(Body(rest[..0], depth, service))
  {
    assert rest[..0] == [];
  }

  /** Once the loop has seen every record, the script and the caption are
      those of the page. */
  lemma {:induction false} PageOfParts(template: string, raw: seq<string>, records: seq<Record>, depth: nat, service: string,
                                       dateR: string -> string, token: string, initMessage: string, markup: string,
                                       rendered: string)
    requires token == Get(FirstRecord(records), "token")
    requires initMessage == InitMessage(FirstRecord(records), dateR)
    requires markup == Layout([Line(0, FOUND_CLIENT), RouteLine(FirstRecord(records), depth, service)])
                       + Layout(Body(Rest(records), depth + 1, service))
    requires rendered == FillTemplate(template, token, initMessage, markup, Join(raw, "\n"))
    ensures rendered == Page(template, raw, records, depth, service, dateR)
  {
    LayoutAppend([Line(0, FOUND_CLIENT), RouteLine(FirstRecord(records), depth, service)], Body(Rest(records), depth + 1, service));
  }

  /** Render's body grows by one segment per record. */
  lemma {:induction false} BodyStep(rest: seq<Record>, i: nat, depth: nat, service: string)
    requires i < |rest|
    ensures Body(rest[..i + 1], depth, service) == Body(rest[..i], depth, service) + Segment(rest[i], depth, service)
  {
    assert rest[..i + 1][..i] == rest[..i];
  }

  /** The text render starts the script with: the client actor at depth
      zero and the route message at the given depth. */
  lemma {:induction false} HeadText(first: Record, depth: nat, service: string, markup: string)
    requires markup == FOUND_CLIENT + EOL + (Jumly.Indent(depth) + Message(ReplaceQuotes(RouteMessage(Get(first, "message"))), service) + EOL)
    ensures markup == Layout([Line(0, FOUND_CLIENT), RouteLine(first, depth, service)])
  {
    TwoLines(Line(0, FOUND_CLIENT), RouteLine(first, depth, service));
    assert Jumly.Indent(0) == "";
  }

  /** One more event adds its entry, when it has one, after the others. */
  lemma {:induction false} ParsedStep(lines: seq<string>, i: nat, patterns: seq<string -> bool>, decode: JsonDecoder)
    requires i < |lines| && AllDecode(lines, patterns, decode)
    ensures AllDecode(lines[..i], patterns, decode) && AllDecode(lines[..i + 1], patterns, decode)
    ensures Decodes(lines[i], patterns, decode)
    ensures Parsed(lines[..i + 1], patterns, decode) == Parsed(lines[..i], patterns, decode) + Kept(LineEntry(lines[i], patterns, decode))
  {
    AllDecodePrefix(lines, i, patterns, decode);
    AllDecodePrefix(lines, i + 1, patterns, decode);
    assert lines[..i + 1][..i] == lines[..i];
  }

  /** The entries of the first n events. */
  function ParsedPrefix(lines: seq<string>, n: nat, patterns: seq<string -> bool>, decode: JsonDecoder): seq<ParsedLine>
    requires AllDecode(lines, patterns, decode) && n <= |lines|
  {
    AllDecodePrefix(lines, n, patterns, decode);
    Parsed(lines[..n], patterns, decode)
  }

  /** parseCloudWatchFormat's loop, one event further: the raw text and
      the entries cover one more event. */
  lemma {:induction false} ParsedPrefixStep(lines: seq<string>, i: nat, patterns: seq<string -> bool>, decode: JsonDecoder)
    requires AllDecode(lines, patterns, decode) && i < |lines|
    ensures Decodes(lines[i], patterns, decode)
    ensures lines[..i + 1] == lines[..i] + [lines[i]]
    ensures ParsedPrefix(lines, i + 1, patterns, decode)
         == ParsedPrefix(lines, i, patterns, decode) + Kept(LineEntry(lines[i], patterns, decode))
  {
    ParsedStep(lines, i, patterns, decode);
    PrefixStep(lines, i);
  }

  lemma {:induction false} ParsedWhole(lines: seq<string>, patterns: seq<string -> bool>, decode: JsonDecoder)
    requires AllDecode(lines, patterns, decode)
    ensures ParsedPrefix(lines, |lines|, patterns, decode) == Parsed(lines, patterns, decode)
  {
    WholePrefix(lines, |lines|);
  }

  /** When every event has the trace format, every entry is a record. */
  lemma {:induction false} MatchedLinesStructured(lines: seq<string>, patterns: seq<string -> bool>, decode: JsonDecoder)
    requires AllDecode(lines, patterns, decode) && AllMatched(lines)
    ensures AllStructured(Parsed(lines, patterns, decode))
    decreases |lines|
  {
    if lines != [] {
      var init, last := lines[..|lines| - 1], lines[|lines| - 1];
      MatchedLinesStructured(init, patterns, decode);
      MatchedLineStructured(last, patterns, decode);
      AllStructuredAppend(Parsed(init, patterns, decode), Kept(LineEntry(last, patterns, decode)));
    }
  }

  lemma {:induction false} MatchedLineStructured(line: string, patterns: seq<string -> bool>, decode: JsonDecoder)
    requires Decodes(line, patterns, decode) && MatchTraceLine(line).Some?
    ensures AllStructured(Kept(LineEntry(line, patterns, decode)))
  {
  }
}
