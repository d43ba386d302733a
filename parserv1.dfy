/** src/parserv1.php: the stand-alone script for the older line format,

      [2015-06-24 18:17:20] app.INFO: Matched route "home" {"token":"558af3","time":"1435169840.2131"}

    It reads the log file line by line, drops the statements its three
    ignore patterns match, and renders the rest with ScriptMarkup, a
    database call being a record whose `event` is "doctrine.DEBUG". The
    middle group is trimmed and split into `event` and `message`; the extra
    group is decoded whole. */
module ParserV1 {
  import opened Text
  import opened Values
  import opened Regex
  import opened LineFormat
  import opened LegacyFormat
  import opened Template
  import opened ScriptMarkup

  /** The service the script is configured with. */
  const SERVICE_NAME: string := "pages-api"

  /** The field isDbInteraction reads. */
  const KIND: string := "event"

  /** json_decode succeeds on the extra group of every line that is kept:
      PHP cannot unite an array with the null a failed decode returns. */
  predicate Decodes(line: string, patterns: seq<string -> bool>, decode: JsonDecoder) {
    match MatchLegacyLine(line)
    case None => true
    case Some(m) => !AnyMatches(patterns, Trim(m.middle)) ==> decode(m.extra).Some?
  }

  /** One pass of parse's loop: the marker for a line of the wrong shape,
      nothing for an ignored middle, the middle's fields united with the
      decoded extra group otherwise. */
  function LineEntry(line: string, patterns: seq<string -> bool>, decode: JsonDecoder): Option<ParsedLine>
    requires Decodes(line, patterns, decode)
  {
    match MatchLegacyLine(line)
    case None => Some(Unmatched(NO_MATCH + line))
    case Some(m) =>
      var middle := Trim(m.middle);
      if AnyMatches(patterns, middle) then None
      else Some(Structured(Union(ParseMiddle(middle), ParseExtra(m.extra, decode))))
  }

  /** The record of a kept line: `event` and `message` from the middle,
      which win over keys of the same name in the extra group, and every
      other key of the extra group. */
  lemma {:induction false} KeptFields(line: string, m: LegacyMatch, patterns: seq<string -> bool>, decode: JsonDecoder)
    returns (fields: Record)
    requires MatchLegacyLine(line) == Some(m) && !AnyMatches(patterns, Trim(m.middle)) && decode(m.extra).Some?
    ensures Decodes(line, patterns, decode)
    ensures LineEntry(line, patterns, decode) == Some(Structured(fields))
    ensures fields.Keys == {"event", "message"} + decode(m.extra).value.Keys
    ensures fields["event"] == ParseMiddle(Trim(m.middle))["event"]
    ensures fields["message"] == ParseMiddle(Trim(m.middle))["message"]
    ensures forall k :: k in decode(m.extra).value && k != "event" && k != "message" ==> fields[k] == decode(m.extra).value[k]
  {
    fields := Union(ParseMiddle(Trim(m.middle)), ParseExtra(m.extra, decode));
  }

  predicate AllDecode(lines: seq<string>, patterns: seq<string -> bool>, decode: JsonDecoder) {
    forall i :: 0 <= i < |lines| ==> Decodes(lines[i], patterns, decode)
  }

  /** parse's list: the entries of the lines, in order. */
  function Parsed(lines: seq<string>, patterns: seq<string -> bool>, decode: JsonDecoder): seq<ParsedLine>
    requires AllDecode(lines, patterns, decode)
    decreases |lines|
  {
    if lines == [] then []
    else Parsed(lines[..|lines| - 1], patterns, decode) + Kept(LineEntry(lines[|lines| - 1], patterns, decode))
  }

  /** Parsing two runs of lines is parsing each and appending: every line
      contributes its own entry, in input order. */
  lemma {:induction false} ParsedAppend(a: seq<string>, b: seq<string>, patterns: seq<string -> bool>, decode: JsonDecoder)
    requires AllDecode(a, patterns, decode) && AllDecode(b, patterns, decode)
    ensures AllDecode(a + b, patterns, decode)
    ensures Parsed(a + b, patterns, decode) == Parsed(a, patterns, decode) + Parsed(b, patterns, decode)
    decreases |b|
  {
    AllDecodeAppend(a, b, patterns, decode);
    if b == [] {
      assert a + b == a;
    } else {
      var init := b[..|b| - 1];
      InitOfAppend(a, b);
      ParsedAppend(a, init, patterns, decode);
    }
  }

  lemma {:induction false} AllDecodeAppend(a: seq<string>, b: seq<string>, patterns: seq<string -> bool>, decode: JsonDecoder)
    requires AllDecode(a, patterns, decode) && AllDecode(b, patterns, decode)
    ensures AllDecode(a + b, patterns, decode)
  {
    forall i | 0 <= i < |a + b| ensures Decodes((a + b)[i], patterns, decode) {
      if i < |a| {
        assert (a + b)[i] == a[i];
      } else {
        assert (a + b)[i] == b[i - |a|];
      }
    }
  }

  /** The entry of one line is what parsing it alone gives. */
  lemma {:induction false} ParsedOne(line: string, patterns: seq<string -> bool>, decode: JsonDecoder)
    requires Decodes(line, patterns, decode)
    ensures AllDecode([line], patterns, decode)
    ensures Parsed([line], patterns, decode) == Kept(LineEntry(line, patterns, decode))
  {
    assert [line][..0] == [];
  }

  /** A line of the wrong shape is kept as the marker followed by the line. */
  lemma {:induction false} UnmatchedKept(line: string, patterns: seq<string -> bool>, decode: JsonDecoder)
    requires MatchLegacyLine(line).None?
    ensures Decodes(line, patterns, decode)
    ensures LineEntry(line, patterns, decode) == Some(Unmatched(NO_MATCH + line))
  {
  }

  /** With the script's ignore list, a line of the right shape is dropped
      exactly when its trimmed middle reports a notified event, is the
      TraceRequest START marker, or reports a listener call. */
  lemma {:induction false} ConfiguredIgnores(line: string, m: LegacyMatch, decode: JsonDecoder)
    requires MatchLegacyLine(line) == Some(m) && Decodes(line, V1_IGNORE_PATTERNS, decode)
    ensures LineEntry(line, V1_IGNORE_PATTERNS, decode) == None
        <==> IsNotifiedEvent(Trim(m.middle)) || IsTraceRequestStart(Trim(m.middle)) || IsListenerCall(Trim(m.middle))
  {
    V1Ignores(Trim(m.middle));
  }

  /** A line of the documented shape whose middle is not ignored becomes
      its event name, its message without the space before the extra
      group, and the extra group decoded whole. */
  lemma {:induction false} DocumentedLineParsed(stamp: string, gap: nat, event: string, gap2: nat, message: string,
                                               extra: string, patterns: seq<string -> bool>, decode: JsonDecoder,
                                               fields: Record, newline: bool)
    requires SingleLine(stamp) && gap >= 1 && IsLevel(event) && gap2 >= 1
    requires message != [] && message[0] != ' ' && !IsTrimmable(message[|message| - 1]) && IsMiddleText(message + " ")
    requires IsExtraGroup(extra) && decode(extra) == Some(fields)
    requires !AnyMatches(patterns, MessageShape(event, gap2, message))
    ensures Decodes(LineShape(stamp, gap, MessageShape(event, gap2, message + " "), extra) + (if newline then "\n" else ""), patterns, decode)
    ensures LineEntry(LineShape(stamp, gap, MessageShape(event, gap2, message + " "), extra) + (if newline then "\n" else ""), patterns, decode)
         == Some(Structured(Union(map["event" := Str(event), "message" := Str(message)], fields)))
  {
    var middle := MessageShape(event, gap2, message + " ");
    MiddleOfMessage(event, gap2, message);
    LegacyLineAccepted(stamp, gap, middle, extra, newline);
    TrimmedMiddle(event, gap2, message);
    MessageOfMiddle(message);
    MiddleFields(event, gap2, message);
  }

  /** The middle group of the documented shape is one the line pattern
      leaves whole. */
  lemma {:induction false} MiddleOfMessage(event: string, gap: nat, message: string)
    requires IsLevel(event) && IsMiddleText(message + " ")
    ensures IsMiddleText(MessageShape(event, gap, message + " "))
  {
    var t := message + " ";
    var s := MessageShape(event, gap, t);
    var off := |event| + 1 + gap;
    assert s[0] == event[0];
    forall i | 0 <= i < |s| ensures s[i] != '\n' && !HasBracketGap(s, i) {
      if i < |event| {
        assert s[i] == event[i];
      } else if i == |event| {
        assert s[i] == ':';
      } else if i < off {
        assert s[i] == Spaces(gap)[i - |event| - 1];
      } else {
        assert s[i] == t[i - off];
        if i + 1 < |s| {
          assert s[i + 1] == t[i + 1 - off];
          assert !HasBracketGap(t, i - off);
        }
      }
    }
  }

  /** Trimming removes only the space before the extra group. */
  lemma {:induction false} TrimmedMiddle(event: string, gap: nat, message: string)
    requires IsLevel(event) && message != [] && !IsTrimmable(message[|message| - 1])
    ensures Trim(MessageShape(event, gap, message + " ")) == MessageShape(event, gap, message)
  {
    var s := MessageShape(event, gap, message);
    assert MessageShape(event, gap, message + " ") == s + " ";
    assert s[0] == event[0] && s[|s| - 1] == message[|message| - 1];
    TrimTrailingSpace(s);
  }

  /** A message the middle group leaves whole is one `.*` can match. */
  lemma {:induction false} MessageOfMiddle(message: string)
    requires message != [] && message[0] != ' ' && IsMiddleText(message + " ")
    ensures IsStatementText(message)
  {
    forall i | 0 <= i < |message| ensures message[i] != '\n' {
      assert (message + " ")[i] == message[i];
    }
  }

  /** Whether a line is kept does not depend on the order of the ignore
      patterns. */
  lemma {:induction false} IgnoreOrder(lines: seq<string>, p: seq<string -> bool>, q: seq<string -> bool>, decode: JsonDecoder)
    requires multiset(p) == multiset(q)
    requires AllDecode(lines, p, decode)
    ensures AllDecode(lines, q, decode)
    ensures Parsed(lines, p, decode) == Parsed(lines, q, decode)
    decreases |lines|
  {
    forall i | 0 <= i < |lines| ensures Decodes(lines[i], q, decode) {
      match MatchLegacyLine(lines[i])
      case None =>
      case Some(m) =>
        IgnoreOrderIrrelevant(p, q, Trim(m.middle));
    }
    if lines != [] {
      var last := lines[|lines| - 1];
      IgnoreOrder(lines[..|lines| - 1], p, q, decode);
      match MatchLegacyLine(last)
      case None =>
      case Some(m) =>
        IgnoreOrderIrrelevant(p, q, Trim(m.middle));
    }
  }

  /** Every line has the older format. */
  predicate AllLegacyMatched(lines: seq<string>) {
    forall i :: 0 <= i < |lines| ==> MatchLegacyLine(lines[i]).Some?
  }

  /** When every line has the format, every entry is a record, as render
      needs. */
  lemma {:induction false} MatchedLinesStructured(lines: seq<string>, patterns: seq<string -> bool>, decode: JsonDecoder)
    requires AllDecode(lines, patterns, decode) && AllLegacyMatched(lines)
    ensures AllStructured(Parsed(lines, patterns, decode))
    decreases |lines|
  {
    if lines != [] {
      var init, last := lines[..|lines| - 1], lines[|lines| - 1];
      MatchedLinesStructured(init, patterns, decode);
      AllStructuredAppend(Parsed(init, patterns, decode), Kept(LineEntry(last, patterns, decode)));
    }
  }

  /** The entries of the first n lines. */
  function ParsedPrefix(lines: seq<string>, n: nat, patterns: seq<string -> bool>, decode: JsonDecoder): seq<ParsedLine>
    requires AllDecode(lines, patterns, decode) && n <= |lines|
  {
    Parsed(lines[..n], patterns, decode)
  }

  /** parse's loop, one line further. */
  lemma {:induction false} ParsedPrefixStep(lines: seq<string>, i: nat, patterns: seq<string -> bool>, decode: JsonDecoder)
    requires AllDecode(lines, patterns, decode) && i < |lines|
    ensures Decodes(lines[i], patterns, decode)
    ensures ParsedPrefix(lines, i + 1, patterns, decode)
         == ParsedPrefix(lines, i, patterns, decode) + Kept(LineEntry(lines[i], patterns, decode))
  {
    assert lines[..i + 1][..i] == lines[..i];
  }

  lemma {:induction false} ParsedWhole(lines: seq<string>, patterns: seq<string -> bool>, decode: JsonDecoder)
    requires AllDecode(lines, patterns, decode)
    ensures ParsedPrefix(lines, |lines|, patterns, decode) == Parsed(lines, patterns, decode)
  {
    WholePrefix(lines, |lines|);
  }

  /** The script's static state: its ignore list, and the renderer that
      holds the service name and the indentation depth. */
  class Parser {
    const messageIgnorePatterns: seq<string -> bool>
    const script: ScriptRenderer

    /** The renderer keys database calls on `event`. */
    predicate Valid() {
      script.kind == KIND
    }

    constructor(serviceName: string, messageIgnorePatterns: seq<string -> bool>)
      ensures Valid() && this.messageIgnorePatterns == messageIgnorePatterns
      ensures fresh(script) && script.serviceName == serviceName && script.indentCount == 1
    {
      this.messageIgnorePatterns := messageIgnorePatterns;
      script := new ScriptRenderer(serviceName, KIND);
    }

    /** The body of parse's loop for one line read. */
    method ParseLine(buffer: string, decode: JsonDecoder) returns (entry: Option<ParsedLine>)
      requires Decodes(buffer, messageIgnorePatterns, decode)
      ensures entry == LineEntry(buffer, messageIgnorePatterns, decode)
    {
      var matched := MatchLegacyLine(buffer);
      if matched.None? {
        entry := Some(Unmatched(NO_MATCH + buffer));
      } else {
        var middle := Trim(matched.value.middle);
        var ignore := ScanIgnorePatterns(messageIgnorePatterns, middle);
        if ignore {
          entry := None;
        } else {
          entry := Some(Structured(Union(ParseMiddle(middle), ParseExtra(matched.value.extra, decode))));
        }
      }
    }

    /** parse: the entries of the lines read, in order. */
    method Parse(lines: seq<string>, decode: JsonDecoder) returns (parsedLines: seq<ParsedLine>)
      requires AllDecode(lines, messageIgnorePatterns, decode)
      ensures parsedLines == Parsed(lines, messageIgnorePatterns, decode)
    {
      parsedLines := [];
      var i := 0;
      while i < |lines|
        invariant 0 <= i <= |lines|
        invariant parsedLines == ParsedPrefix(lines, i, messageIgnorePatterns, decode)
      {
        ParsedPrefixStep(lines, i, messageIgnorePatterns, decode);
        var entry := ParseLine(lines[i], decode);
        if entry.Some? {
          parsedLines := parsedLines + [entry.value];
        }
        i := i + 1;
      }
      ParsedWhole(lines, messageIgnorePatterns, decode);
    }

    /** run: parse the lines of the log file, then render them with the
        file's text as the raw logs. */
    method Run(lines: seq<string>, template: string, decode: JsonDecoder, dateR: string -> string) returns (rendered: string)
      requires Valid() && AllDecode(lines, messageIgnorePatterns, decode) && AllLegacyMatched(lines)
      modifies script
      ensures script.indentCount == old(script.indentCount) + 1
      ensures AllStructured(Parsed(lines, messageIgnorePatterns, decode))
      ensures rendered == Page(template, Concat(lines), Records(Parsed(lines, messageIgnorePatterns, decode)),
                               KIND, old(script.indentCount), script.serviceName, dateR)
    {
      var parsed := Parse(lines, decode);
      MatchedLinesStructured(lines, messageIgnorePatterns, decode);
      rendered := script.Render(parsed, Concat(lines), template, dateR);
    }
  }

  /** The script's top level: the parser is configured with the service
      name and its three ignore patterns, then run once; its render starts at
      depth 1. */
  method RunScript(lines: seq<string>, template: string, decode: JsonDecoder, dateR: string -> string) returns (rendered: string)
    requires AllDecode(lines, V1_IGNORE_PATTERNS, decode) && AllLegacyMatched(lines)
    ensures AllStructured(Parsed(lines, V1_IGNORE_PATTERNS, decode))
    ensures rendered == Page(template, Concat(lines), Records(Parsed(lines, V1_IGNORE_PATTERNS, decode)), KIND, 1, SERVICE_NAME, dateR)
  {
    var parser := new Parser(SERVICE_NAME, V1_IGNORE_PATTERNS);
    rendered := parser.Run(lines, template, decode, dateR);
  }
}
