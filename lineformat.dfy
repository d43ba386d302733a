/** The line format shared by LogTraceParser and parserv2:

      [2015-07-02 05:28:16] FileExporterApp.INFO: > GET / [] #TRACE#{"token":"5594cbf031252fee5"}
      |----timestamp-----| |------------statement-----------||------------trace-------------|

    OVERALL_PATTERN  /^\[(?P<timestamp>[\d\s-:]+)\] +(?P<statement>.*)(?P<trace>#TRACE#{.*})$/
    MESSAGE_PATTERN  /^(?P<level>[\w\.]+): +(?P<message>.*)$/
    are written out here as functions that consume the line one part at a
    time, each with the shape it accepts. */
module LineFormat {
  import opened Text
  import opened Values
  import opened Regex

  const TRACE_MARKER: string := "#TRACE#"
  /** Where the trace group of OVERALL_PATTERN starts. */
  const TRACE_OPENING: string := "#TRACE#{"

  /** [\d\s-:], reading the '-' after \s as a literal as PCRE 8 does. */
  predicate IsTimestampChar(c: char) {
    IsDigit(c) || IsRegexSpace(c) || c == '-' || c == ':'
  }

  predicate IsTimestamp(ts: string) {
    |ts| > 0 && forall i :: 0 <= i < |ts| ==> IsTimestampChar(ts[i])
  }

  /** `.*` after ` +`: no newline, and not starting with a space, which the
      spaces before it would have taken. */
  predicate IsStatementText(st: string) {
    SingleLine(st) && (st == [] || st[0] != ' ')
  }

  /** A trace group: `#TRACE#{.*}` where no later `#TRACE#{` exists, since
      the greedy statement group ahead of it takes every earlier one. */
  predicate IsTraceGroup(tr: string) {
    |tr| > |TRACE_OPENING| && OccursAt(tr, TRACE_OPENING, 0) && tr[|tr| - 1] == '}'
    && SingleLine(tr) && forall q :: 0 < q <= |tr| - |TRACE_OPENING| ==> !OccursAt(tr, TRACE_OPENING, q)
  }

  /** A line of the documented shape, before any final "\n". */
  function LineShape(timestamp: string, gap: nat, statement: string, trace: string): string {
    "[" + (timestamp + ("]" + (Spaces(gap) + (statement + trace))))
  }

  /** The named groups of a successful OVERALL_PATTERN match. */
  datatype TraceLineMatch = TraceLineMatch(timestamp: string, statement: string, trace: string)

  /** preg_match(OVERALL_PATTERN, line): the groups, or None when the line
      does not have the format. `^\[` is matched here, the rest by the
      functions below. */
  function MatchTraceLine(line: string): Option<TraceLineMatch> {
    var b := BeforeFinalNewline(line);
    if b != [] && b[0] == '[' then MatchTimestamp(b[1..]) else None
  }

  /** `(?P<timestamp>[\d\s-:]+)\]`, then the rest of the line. */
  function MatchTimestamp(s: string): Option<TraceLineMatch> {
    var k := Span(s, IsTimestampChar);
    if 0 < k < |s| && s[k] == ']' then MatchGap(s[..k], s[k + 1..]) else None
  }

  /** ` +`, then the statement and trace groups. */
  function MatchGap(timestamp: string, s: string): Option<TraceLineMatch> {
    var gap := Span(s, IsBlank);
    if gap > 0 then
      var parts := SplitTrace(s[gap..]);
      if parts.Some? then Some(TraceLineMatch(timestamp, parts.value.0, parts.value.1)) else None
    else None
  }

  /** A matched line has the documented shape, and its groups are its
      parts. */
  lemma {:induction false} MatchTraceLineSound(line: string, m: TraceLineMatch)
    requires MatchTraceLine(line) == Some(m)
    ensures IsTimestamp(m.timestamp) && IsStatementText(m.statement) && IsTraceGroup(m.trace)
    ensures |m.timestamp| + |m.statement| + |m.trace| + 2 < |BeforeFinalNewline(line)|
    ensures BeforeFinalNewline(line)
            == LineShape(m.timestamp, |BeforeFinalNewline(line)| - |m.timestamp| - |m.statement| - |m.trace| - 2, m.statement, m.trace)
  {
    var b := BeforeFinalNewline(line);
    MatchTimestampSound(b[1..], m);
    BracketFound(b, m);
  }

  lemma {:induction false} BracketFound(b: string, m: TraceLineMatch)
    requires b != [] && b[0] == '['
    requires |m.timestamp| + |m.statement| + |m.trace| + 1 < |b[1..]|
    requires b[1..] == m.timestamp + ("]" + (Spaces(|b[1..]| - |m.timestamp| - |m.statement| - |m.trace| - 1) + (m.statement + m.trace)))
    ensures b == LineShape(m.timestamp, |b| - |m.timestamp| - |m.statement| - |m.trace| - 2, m.statement, m.trace)
  {
    assert b == [b[0]] + b[1..];
  }

  lemma {:induction false} MatchTimestampSound(s: string, m: TraceLineMatch)
    requires MatchTimestamp(s) == Some(m)
    ensures IsTimestamp(m.timestamp) && IsStatementText(m.statement) && IsTraceGroup(m.trace)
    ensures |m.timestamp| + |m.statement| + |m.trace| + 1 < |s|
    ensures s == m.timestamp + ("]" + (Spaces(|s| - |m.timestamp| - |m.statement| - |m.trace| - 1) + (m.statement + m.trace)))
  {
    var k := Span(s, IsTimestampChar);
    TimestampGuard(s, k, m);
    MatchGapSound(s[..k], s[k + 1..], m);
    TimestampFound(s, k, m);
  }

  lemma {:induction false} TimestampGuard(s: string, k: nat, m: TraceLineMatch)
    requires MatchTimestamp(s) == Some(m) && k == Span(s, IsTimestampChar)
    ensures 0 < k < |s| && s[k] == ']' && MatchGap(s[..k], s[k + 1..]) == Some(m)
  {
  }

  lemma {:induction false} TimestampFound(s: string, k: nat, m: TraceLineMatch)
    requires 0 < k < |s| && s[k] == ']' && Span(s, IsTimestampChar) == k
    requires m.timestamp == s[..k] && |m.statement| + |m.trace| < |s[k + 1..]|
    requires s[k + 1..] == Spaces(|s[k + 1..]| - |m.statement| - |m.trace|) + (m.statement + m.trace)
    ensures IsTimestamp(m.timestamp)
    ensures |m.timestamp| + |m.statement| + |m.trace| + 1 < |s|
    ensures s == m.timestamp + ("]" + (Spaces(|s| - |m.timestamp| - |m.statement| - |m.trace| - 1) + (m.statement + m.trace)))
  {
    SplitAround(s, k);
  }

  lemma {:induction false} MatchGapSound(timestamp: string, s: string, m: TraceLineMatch)
    requires MatchGap(timestamp, s) == Some(m)
    ensures m.timestamp == timestamp && IsStatementText(m.statement) && IsTraceGroup(m.trace)
    ensures |m.statement| + |m.trace| < |s| && s == Spaces(|s| - |m.statement| - |m.trace|) + (m.statement + m.trace)
  {
    var gap := Span(s, IsBlank);
    GapFound(s, gap, m.statement, m.trace);
  }

  lemma {:induction false} GapFound(s: string, gap: nat, statement: string, trace: string)
    requires 0 < gap == Span(s, IsBlank) && s[gap..] == statement + trace
    requires SingleLine(statement) && IsTraceGroup(trace)
    ensures IsStatementText(statement)
    ensures |statement| + |trace| < |s| && s == Spaces(|s| - |statement| - |trace|) + (statement + trace)
  {
    assert IsStatementText(statement) by {
      if statement != [] {
        assert statement[0] == s[gap];
      }
    }
    assert s == Spaces(gap) + (statement + trace) by {
      AllSpaces(s[..gap]);
      assert s == s[..gap] + s[gap..];
    }
  }

  /** `(?P<statement>.*)(?P<trace>#TRACE#{.*})$` on what follows the
      spaces: the greedy statement group leaves the trace group the last
      `#TRACE#{`. */
  function SplitTrace(tail: string): (r: Option<(string, string)>)
    ensures r.Some? ==> tail == r.value.0 + r.value.1 && SingleLine(r.value.0) && IsTraceGroup(r.value.1)
  {
    if SingleLine(tail) && tail != [] && tail[|tail| - 1] == '}' then
      match LastOccurrence(tail, TRACE_OPENING)
      case None => None
      case Some(p) =>
        TraceGroupFromLast(tail, p);
        Some((tail[..p], tail[p..]))
    else None
  }

  lemma {:induction false} TraceGroupFromLast(tail: string, p: nat)
    requires SingleLine(tail) && tail != [] && tail[|tail| - 1] == '}'
    requires LastOccurrence(tail, TRACE_OPENING) == Some(p)
    ensures tail == tail[..p] + tail[p..] && SingleLine(tail[..p]) && IsTraceGroup(tail[p..])
  {
    LastOccurrenceSome(tail, TRACE_OPENING, p);
    var tr := tail[p..];
    forall q | 0 < q <= |tr| - |TRACE_OPENING| ensures !OccursAt(tr, TRACE_OPENING, q) {
      OccursInSuffix(tail, TRACE_OPENING, p, q);
    }
    assert tr[..|TRACE_OPENING|] == tail[p..p + |TRACE_OPENING|];
    assert tr[7] == '{';
  }

  /** Every line of the documented shape matches, with exactly its parts as
      groups, whether or not it still carries its final "\n". */
  lemma {:induction false} TraceLineAccepted(timestamp: string, gap: nat, statement: string, trace: string, newline: bool)
    requires IsTimestamp(timestamp) && gap >= 1
    requires IsStatementText(statement) && IsTraceGroup(trace)
    ensures MatchTraceLine(LineShape(timestamp, gap, statement, trace) + (if newline then "\n" else ""))
            == Some(TraceLineMatch(timestamp, statement, trace))
  {
    var b := LineShape(timestamp, gap, statement, trace);
    ShapeEndsWithBrace(b, timestamp, gap, statement, trace);
    BeforeFinalNewlineOf(b, newline);
    assert b[1..] == timestamp + ("]" + (Spaces(gap) + (statement + trace)));
    TimestampAccepted(timestamp, Spaces(gap) + (statement + trace));
    GapAccepted(timestamp, gap, statement, trace);
  }

  lemma {:induction false} ShapeEndsWithBrace(b: string, timestamp: string, gap: nat, statement: string, trace: string)
    requires IsTraceGroup(trace) && b == LineShape(timestamp, gap, statement, trace)
    ensures b != [] && b[|b| - 1] == '}'
  {
    assert b == ("[" + timestamp + "]" + Spaces(gap) + statement) + trace;
    assert b[|b| - 1] == trace[|trace| - 1];
  }

  lemma {:induction false} TimestampAccepted(timestamp: string, s: string)
    requires IsTimestamp(timestamp)
    ensures MatchTimestamp(timestamp + ("]" + s)) == MatchGap(timestamp, s)
  {
    var t := timestamp + ("]" + s);
    SpanOfRun(timestamp, "]" + s, IsTimestampChar);
    assert t[|timestamp|] == ']';
    assert t[..|timestamp|] == timestamp;
    assert t[|timestamp| + 1..] == s;
  }

  lemma {:induction false} GapAccepted(timestamp: string, gap: nat, statement: string, trace: string)
    requires gap >= 1 && IsStatementText(statement) && IsTraceGroup(trace)
    ensures MatchGap(timestamp, Spaces(gap) + (statement + trace)) == Some(TraceLineMatch(timestamp, statement, trace))
  {
    var tail := statement + trace;
    TailAfterGap(tail, statement, trace);
    SpanOfSpaces(gap, tail);
    assert (Spaces(gap) + tail)[gap..] == tail;
    SplitTraceOf(statement, trace);
  }

  /** The statement and trace groups come apart where they were joined. */
  lemma {:induction false} SplitTraceOf(statement: string, trace: string)
    requires IsStatementText(statement) && IsTraceGroup(trace)
    ensures SplitTrace(statement + trace) == Some((statement, trace))
  {
    var tail := statement + trace;
    TailAfterGap(tail, statement, trace);
    LastTraceOpening(statement, trace);
  }

  lemma {:induction false} TailAfterGap(tail: string, statement: string, trace: string)
    requires IsStatementText(statement) && IsTraceGroup(trace) && tail == statement + trace
    ensures tail != [] && tail[0] != ' ' && SingleLine(tail) && tail[|tail| - 1] == '}'
  {
    if statement == [] {
      assert tail[0] == trace[0] == TRACE_OPENING[0];
    } else {
      assert tail[0] == statement[0];
    }
    assert tail[|tail| - 1] == trace[|trace| - 1];
    forall i | 0 <= i < |tail| ensures tail[i] != '\n' {
      if i >= |statement| {
        assert tail[i] == trace[i - |statement|];
      }
    }
  }

  lemma {:induction false} LastTraceOpening(statement: string, trace: string)
    requires IsTraceGroup(trace)
    ensures LastOccurrence(statement + trace, TRACE_OPENING) == Some(|statement|)
    ensures (statement + trace)[..|statement|] == statement && (statement + trace)[|statement|..] == trace
  {
    var tail := statement + trace;
    assert tail[|statement|..] == trace;
    OccursInSuffix(tail, TRACE_OPENING, |statement|, 0);
    assert OccursAt(tail, TRACE_OPENING, |statement|);
    forall q | |statement| < q ensures !OccursAt(tail, TRACE_OPENING, q) {
      OccursInSuffix(tail, TRACE_OPENING, |statement|, q - |statement|);
    }
    var r := LastOccurrence(tail, TRACE_OPENING);
    if r.None? {
      LastOccurrenceNone(tail, TRACE_OPENING);
    } else {
      LastOccurrenceSome(tail, TRACE_OPENING, r.value);
    }
    assert r.Some?;
    assert !(r.value < |statement|);
    assert !(r.value > |statement|);
  }

  predicate IsLevel(level: string) {
    |level| > 0 && forall i :: 0 <= i < |level| ==> IsLevelChar(level[i])
  }

  /** A statement of the documented shape, before any final "\n". */
  function MessageShape(level: string, gap: nat, message: string): string {
    level + (":" + (Spaces(gap) + message))
  }

  /** preg_match(MESSAGE_PATTERN, statement): (level, message), or None.
      `^(?P<level>[\w\.]+):` is matched here, the rest by MatchMessageText. */
  function MatchMessage(s: string): Option<(string, string)> {
    var b := BeforeFinalNewline(s);
    var n := Span(b, IsLevelChar);
    if SingleLine(b) && 0 < n < |b| && b[n] == ':' then MatchMessageText(b[..n], b[n + 1..]) else None
  }

  /** ` +(?P<message>.*)$` after the level and its colon. */
  function MatchMessageText(level: string, s: string): Option<(string, string)> {
    var gap := Span(s, IsBlank);
    if gap > 0 then Some((level, s[gap..])) else None
  }

  /** A matched statement has the documented shape, and the level and
      message are its parts. */
  lemma {:induction false} MatchMessageSound(s: string, level: string, message: string)
    requires MatchMessage(s) == Some((level, message))
    ensures IsLevel(level) && IsStatementText(message)
    ensures |level| + |message| + 1 < |BeforeFinalNewline(s)|
    ensures BeforeFinalNewline(s) == MessageShape(level, |BeforeFinalNewline(s)| - |level| - |message| - 1, message)
  {
    var b := BeforeFinalNewline(s);
    var n := Span(b, IsLevelChar);
    MessageGuard(s, b, n, level, message);
    MatchMessageTextSound(b[..n], b[n + 1..], level, message);
    LevelFound(b, n, message);
  }

  lemma {:induction false} MessageGuard(s: string, b: string, n: nat, level: string, message: string)
    requires MatchMessage(s) == Some((level, message))
    requires b == BeforeFinalNewline(s) && n == Span(b, IsLevelChar)
    ensures SingleLine(b) && 0 < n < |b| && b[n] == ':' && SingleLine(b[n + 1..])
    ensures MatchMessageText(b[..n], b[n + 1..]) == Some((level, message))
  {
  }

  lemma {:induction false} LevelFound(b: string, n: nat, message: string)
    requires 0 < n < |b| && b[n] == ':' && Span(b, IsLevelChar) == n
    requires |message| < |b[n + 1..]| && b[n + 1..] == Spaces(|b[n + 1..]| - |message|) + message
    ensures IsLevel(b[..n])
    ensures b == MessageShape(b[..n], |b| - n - |message| - 1, message)
  {
    SplitAround(b, n);
  }

  lemma {:induction false} MatchMessageTextSound(level: string, s: string, level': string, message: string)
    requires SingleLine(s) && MatchMessageText(level, s) == Some((level', message))
    ensures level' == level && IsStatementText(message)
    ensures |message| < |s| && s == Spaces(|s| - |message|) + message
  {
    var gap := Span(s, IsBlank);
    {
      assert IsStatementText(s[gap..]) by {
        if gap < |s| {
          assert s[gap..][0] == s[gap];
        }
      }
      assert s == Spaces(gap) + s[gap..] by {
        AllSpaces(s[..gap]);
        assert s == s[..gap] + s[gap..];
      }
    }
  }

  /** Every statement of the documented shape matches, with exactly its
      parts as level and message. */
  lemma {:induction false} MessageAccepted(level: string, gap: nat, message: string, newline: bool)
    requires IsLevel(level) && gap >= 1 && IsStatementText(message)
    ensures MatchMessage(MessageShape(level, gap, message) + (if newline then "\n" else ""))
            == Some((level, message))
  {
    var b := MessageShape(level, gap, message);
    NoNewlineInShape(b, level, gap, message);
    BeforeFinalNewlineOf(b, newline);
    LevelAccepted(b, level, Spaces(gap) + message);
    MessageTextAccepted(level, gap, message);
  }

  lemma {:induction false} LevelAccepted(b: string, level: string, s: string)
    requires IsLevel(level) && b == level + (":" + s)
    ensures Span(b, IsLevelChar) == |level| && b[|level|] == ':' && b[..|level|] == level && b[|level| + 1..] == s
  {
    SpanOfRun(level, ":" + s, IsLevelChar);
  }

  lemma {:induction false} MessageTextAccepted(level: string, gap: nat, message: string)
    requires gap >= 1 && IsStatementText(message)
    ensures MatchMessageText(level, Spaces(gap) + message) == Some((level, message))
  {
    var s := Spaces(gap) + message;
    SpanOfSpaces(gap, message);
    assert s[gap..] == message;
  }

  lemma {:induction false} NoNewlineInShape(b: string, level: string, gap: nat, message: string)
    requires IsLevel(level) && IsStatementText(message) && b == MessageShape(level, gap, message)
    ensures SingleLine(b) && b != [] && b[|b| - 1] != '\n'
  {
    var n := |level|;
    forall i | 0 <= i < |b| ensures b[i] != '\n' {
      if i < n {
        assert b[i] == level[i];
      } else if i > n + gap {
        assert b[i] == message[i - n - 1 - gap];
      }
    }
  }

  /** parseStatement: `level` and `message` from MESSAGE_PATTERN, both null
      when it does not match. */
  function ParseStatement(statement: string): (r: Record)
    ensures r.Keys == {"level", "message"}
    ensures r["level"] == Null <==> MatchMessage(statement).None?
    ensures r["message"] == Null <==> MatchMessage(statement).None?
  {
    match MatchMessage(statement)
    case Some((level, message)) => map["level" := Str(level), "message" := Str(message)]
    case None => map["level" := Null, "message" := Null]
  }

  /** parseTrace: json_decode of what follows the 7-character marker. */
  function ParseTrace(trace: string, decode: JsonDecoder): (r: Record)
    requires decode(Drop(trace, |TRACE_MARKER|)).Some?
    ensures OccursAt(trace, TRACE_MARKER, 0) ==> Some(r) == decode(trace[|TRACE_MARKER|..])
  {
    decode(Drop(trace, |TRACE_MARKER|)).value
  }

  /** The marker kept in the list for a line of the wrong shape. */
  const NO_MATCH: string := "There was no match on: "

  /** What a matched line with this (cleaned) statement adds to the list:
      nothing when an ignore pattern matches it, otherwise the statement's
      fields united with the decoded trace. The statement's `level` and
      `message` win over keys of the same name in the trace. */
  function StatementEntry(statement: string, trace: string, patterns: seq<string -> bool>, decode: JsonDecoder): (r: Option<ParsedLine>)
    requires !AnyMatches(patterns, statement) ==> decode(Drop(trace, |TRACE_MARKER|)).Some?
    ensures r.None? <==> AnyMatches(patterns, statement)
    ensures r.Some? ==> r.value.Structured? && r.value.fields.Keys == {"level", "message"} + ParseTrace(trace, decode).Keys
    ensures r.Some? ==> r.value.fields["level"] == ParseStatement(statement)["level"]
    ensures r.Some? ==> r.value.fields["message"] == ParseStatement(statement)["message"]
    ensures r.Some? ==> forall k :: k in ParseTrace(trace, decode) && k != "level" && k != "message" ==> r.value.fields[k] == ParseTrace(trace, decode)[k]
  {
    if AnyMatches(patterns, statement) then None
    else Some(Structured(Union(ParseStatement(statement), ParseTrace(trace, decode))))
  }

  /** Every event has the trace format. */
  predicate AllMatched(lines: seq<string>)
    decreases |lines|
  {
    lines == [] || (AllMatched(lines[..|lines| - 1]) && MatchTraceLine(lines[|lines| - 1]).Some?)
  }

  lemma {:induction false} StatementOfMessage(level: string, gap: nat, message: string)
    requires IsLevel(level) && message != [] && message[0] != ' ' && SingleLine(message)
    ensures IsStatementText(MessageShape(level, gap, message + " [] "))
    ensures IsStatementText(message + " ")
  {
    var s := MessageShape(level, gap, message + " [] ");
    SingleLineAppend(message, " [] ");
    SingleLineAppend(message, " ");
    SingleLineAppend(Spaces(gap), message + " [] ");
    SingleLineAppend(":", Spaces(gap) + (message + " [] "));
    SingleLineAppend(level, ":" + (Spaces(gap) + (message + " [] ")));
    assert s[0] == level[0];
  }

  lemma {:induction false} MessageMatchedOnce(level: string, gap: nat, message: string)
    requires IsLevel(level) && gap >= 1 && IsStatementText(message)
    ensures ParseStatement(MessageShape(level, gap, message)) == map["level" := Str(level), "message" := Str(message)]
  {
    var s := MessageShape(level, gap, message);
    MessageAccepted(level, gap, message, false);
    assert s + "" == s;
  }
}
