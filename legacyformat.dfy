/** The older line format read by parserv1:

      [2015-06-24 18:17:20] app.INFO: Matched route "home" {"token":"558af3","time":"1435169840.2131"}

    OVERALL_PATTERN  /^\[(.*)\] +(.*)({.*})$/
    MIDDLE_PATTERN   /^([\w\.]+): +(.*)$/

    The three groups of OVERALL_PATTERN are the stamp, the middle and the
    extra JSON object. MIDDLE_PATTERN has exactly the shape of the newer
    MESSAGE_PATTERN, so its matcher is LineFormat.MatchMessage. The three
    ignore patterns parserv1 is configured with are written out as
    predicates. */
module LegacyFormat {
  import opened Text
  import opened Values
  import opened Regex
  import opened LineFormat

  /** `]` followed by a space at index i: where `\] +` can start. */
  predicate HasBracketGap(s: string, i: int) {
    0 <= i && i + 1 < |s| && s[i] == ']' && s[i + 1] == ' '
  }

  /** The middle group: what the greedy stamp group left after the last
      `] ` that still has a `{` after it. It holds no line feed, starts with
      no space (the spaces before it would have taken it) and contains no
      `] ` (the stamp group would have reached past it). */
  predicate IsMiddleText(m: string) {
    SingleLine(m) && (m == [] || m[0] != ' ') && forall i :: 0 <= i < |m| ==> !HasBracketGap(m, i)
  }

  /** The extra group `{.*}`: from the last `{` of the line to its closing
      `}` at the end. */
  predicate IsExtraGroup(x: string) {
    |x| >= 2 && x[0] == '{' && x[|x| - 1] == '}' && SingleLine(x)
    && forall i :: 0 < i < |x| ==> x[i] != '{'
  }

  /** The three groups of a successful OVERALL_PATTERN match. */
  datatype LegacyMatch = LegacyMatch(stamp: string, middle: string, extra: string)

  /** preg_match(OVERALL_PATTERN, line). The greedy middle group leaves the
      extra group the last `{`; the greedy stamp group then ends at the last
      `] ` before it. */
  function MatchLegacyLine(line: string): Option<LegacyMatch> {
    var b := BeforeFinalNewline(line);
    if SingleLine(b) && b != [] && b[0] == '[' && b[|b| - 1] == '}' then
      match LastOccurrence(b, "{")
      case None => None
      case Some(q) => MatchBracket(b, q)
    else None
  }

  /** `\] +(.*)` before the extra group that starts at q. */
  function MatchBracket(b: string, q: nat): Option<LegacyMatch>
    requires q <= |b|
  {
    match BracketGapBefore(b, q)
    case None => None
    case Some(e) =>
      var gap := Span(b[e + 1..q], IsBlank);
      Some(LegacyMatch(b[1..e], b[e + 1 + gap..q], b[q..]))
  }

  /** The last `] ` that starts at index 1 or later and ends before index k. */
  function BracketGapBefore(b: string, k: nat): (r: Option<nat>)
    requires k <= |b|
    ensures r.Some? ==> 1 <= r.value && r.value + 1 < k && HasBracketGap(b, r.value)
    ensures r.Some? ==> forall e :: r.value < e && e + 1 < k ==> !HasBracketGap(b, e)
    ensures r.None? ==> forall e :: 1 <= e && e + 1 < k ==> !HasBracketGap(b, e)
    decreases k
  {
    if k < 3 then None
    else if HasBracketGap(b, k - 2) then Some(k - 2)
    else BracketGapBefore(b, k - 1)
  }

  /** A matched line has the documented shape, and its groups are its
      parts. */
  lemma {:induction false} MatchLegacyLineSound(line: string, m: LegacyMatch)
    requires MatchLegacyLine(line) == Some(m)
    ensures SingleLine(m.stamp) && IsMiddleText(m.middle) && IsExtraGroup(m.extra)
    ensures |m.stamp| + |m.middle| + |m.extra| + 2 < |BeforeFinalNewline(line)|
    ensures BeforeFinalNewline(line)
         == LineShape(m.stamp, |BeforeFinalNewline(line)| - |m.stamp| - |m.middle| - |m.extra| - 2, m.middle, m.extra)
  {
    MatchedGroups(line, m);
    MatchedShape(line, m);
  }

  lemma {:induction false} MatchedGroups(line: string, m: LegacyMatch)
    requires MatchLegacyLine(line) == Some(m)
    ensures SingleLine(m.stamp) && IsMiddleText(m.middle) && IsExtraGroup(m.extra)
  {
    var b := BeforeFinalNewline(line);
    var q := LegacyGuard(line, b, m);
    var e := BracketGuard(b, q, m);
    GroupsFound(b, q, e, Span(b[e + 1..q], IsBlank), m);
  }

  lemma {:induction false} GroupsFound(b: string, q: nat, e: nat, gap: nat, m: LegacyMatch)
    requires SingleLine(b) && b != [] && b[|b| - 1] == '}' && LastOccurrence(b, "{") == Some(q)
    requires q <= |b| && BracketGapBefore(b, q) == Some(e) && gap == Span(b[e + 1..q], IsBlank)
    requires e + 1 + gap <= q && m == LegacyMatch(b[1..e], b[e + 1 + gap..q], b[q..])
    ensures SingleLine(m.stamp) && IsMiddleText(m.middle) && IsExtraGroup(m.extra)
  {
    ExtraFound(b, q);
    MiddleFound(b, q, e, gap);
    forall i | 0 <= i < |m.stamp| ensures m.stamp[i] != '\n' {
      assert m.stamp[i] == b[i + 1];
    }
  }

  lemma {:induction false} MatchedShape(line: string, m: LegacyMatch)
    requires MatchLegacyLine(line) == Some(m)
    ensures |m.stamp| + |m.middle| + |m.extra| + 2 < |BeforeFinalNewline(line)|
    ensures BeforeFinalNewline(line)
         == LineShape(m.stamp, |BeforeFinalNewline(line)| - |m.stamp| - |m.middle| - |m.extra| - 2, m.middle, m.extra)
  {
    var b := BeforeFinalNewline(line);
    var q := LegacyGuard(line, b, m);
    var e := BracketGuard(b, q, m);
    LegacyReassembled(b, q, e, Span(b[e + 1..q], IsBlank), m);
  }

  /** What MatchLegacyLine checked when it matched: q is the last `{`. */
  lemma {:induction false} LegacyGuard(line: string, b: string, m: LegacyMatch) returns (q: nat)
    requires MatchLegacyLine(line) == Some(m) && b == BeforeFinalNewline(line)
    ensures SingleLine(b) && b != [] && b[0] == '[' && b[|b| - 1] == '}'
    ensures LastOccurrence(b, "{") == Some(q) && q <= |b| && MatchBracket(b, q) == Some(m)
  {
    q := LastOccurrence(b, "{").value;
  }

  /** What MatchBracket checked when it matched: e is the last `] `. */
  lemma {:induction false} BracketGuard(b: string, q: nat, m: LegacyMatch) returns (e: nat)
    requires q <= |b| && MatchBracket(b, q) == Some(m)
    ensures BracketGapBefore(b, q) == Some(e)
    ensures e + 1 + Span(b[e + 1..q], IsBlank) <= q
    ensures m == LegacyMatch(b[1..e], b[e + 1 + Span(b[e + 1..q], IsBlank)..q], b[q..])
  {
    e := BracketGapBefore(b, q).value;
  }

  /** From the last `{` of a single line ending in `}` to its end is an
      extra group. */
  lemma {:induction false} ExtraFound(b: string, q: nat)
    requires SingleLine(b) && b != [] && b[|b| - 1] == '}'
    requires LastOccurrence(b, "{") == Some(q)
    ensures q + 1 < |b| && IsExtraGroup(b[q..])
  {
    LastOccurrenceSome(b, "{", q);
    assert b[q] == '{' by {
      assert b[q..q + 1] == "{";
    }
    forall i | 0 < i < |b| - q ensures b[q..][i] != '{' {
      assert !OccursAt(b, "{", q + i);
      assert b[q + i..q + i + 1] == [b[q + i]];
    }
  }

  /** Between the last `] ` and the extra group: at least one space, then a
      middle group. */
  lemma {:induction false} MiddleFound(b: string, q: nat, e: nat, gap: nat)
    requires SingleLine(b) && q < |b| && b[q] == '{'
    requires BracketGapBefore(b, q) == Some(e) && gap == Span(b[e + 1..q], IsBlank)
    ensures gap >= 1 && e + 1 + gap <= q
    ensures IsMiddleText(b[e + 1 + gap..q])
  {
    assert b[e + 1..q][0] == ' ';
    var mid := b[e + 1 + gap..q];
    forall i | 0 <= i < |mid| && HasBracketGap(mid, i) ensures false {
      assert HasBracketGap(b, e + 1 + gap + i);
    }
    if mid != [] {
      assert mid[0] == b[e + 1..q][gap];
    }
  }

  lemma {:induction false} LegacyReassembled(b: string, q: nat, e: nat, gap: nat, m: LegacyMatch)
    requires b != [] && b[0] == '[' && 1 <= e && e + 1 + gap <= q <= |b| && HasBracketGap(b, e) && e + 1 < q
    requires gap == Span(b[e + 1..q], IsBlank)
    requires m == LegacyMatch(b[1..e], b[e + 1 + gap..q], b[q..])
    ensures |m.stamp| + |m.middle| + |m.extra| + 2 < |b|
    ensures b == LineShape(m.stamp, |b| - |m.stamp| - |m.middle| - |m.extra| - 2, m.middle, m.extra)
  {
    assert b[e + 1..q][0] == ' ';
    assert |b| - |m.stamp| - |m.middle| - |m.extra| - 2 == gap;
    LeadingSpaces(b[e + 1..q], gap);
    assert b[e + 1..e + 1 + gap] == b[e + 1..q][..gap];
    ShapeOfParts(b, e, e + 1 + gap, q);
  }

  lemma {:induction false} ShapeOfParts(b: string, e: nat, k: nat, q: nat)
    requires b != [] && b[0] == '[' && 1 <= e < k <= q <= |b| && b[e] == ']'
    requires b[e + 1..k] == Spaces(k - e - 1)
    ensures b == LineShape(b[1..e], k - e - 1, b[k..q], b[q..])
  {
    ShapeTail(b, e, k, q);
    assert b[1..] == b[1..e] + b[e..];
    assert b == [b[0]] + b[1..];
  }

  lemma {:induction false} ShapeTail(b: string, e: nat, k: nat, q: nat)
    requires e < k <= q <= |b| && b[e] == ']'
    requires b[e + 1..k] == Spaces(k - e - 1)
    ensures b[e..] == "]" + (Spaces(k - e - 1) + (b[k..q] + b[q..]))
  {
    assert b[k..] == b[k..q] + b[q..];
    assert b[e + 1..] == b[e + 1..k] + b[k..];
    assert b[e..] == [b[e]] + b[e + 1..];
  }

  /** Every line of the documented shape matches, with exactly its parts as
      groups. */
  lemma {:induction false} LegacyLineAccepted(stamp: string, gap: nat, middle: string, extra: string, newline: bool)
    requires SingleLine(stamp) && gap >= 1 && IsMiddleText(middle) && IsExtraGroup(extra)
    ensures MatchLegacyLine(LineShape(stamp, gap, middle, extra) + (if newline then "\n" else ""))
            == Some(LegacyMatch(stamp, middle, extra))
  {
    var b := LineShape(stamp, gap, middle, extra);
    var e := |stamp| + 1;
    var q := e + 1 + gap + |middle|;
    LegacySlices(b, stamp, gap, middle, extra);
    LastBraceAt(b, q);
    LastBracketGapAt(b, e, q, middle);
    SpanOfSpaces(gap, middle);
    BracketMatched(b, q, e, gap, LegacyMatch(stamp, middle, extra));
    BeforeFinalNewlineOf(b, newline);
    LineMatched(b, b + (if newline then "\n" else ""), q, LegacyMatch(stamp, middle, extra));
  }

  /** The converse of LegacyGuard. */
  lemma {:induction false} LineMatched(b: string, line: string, q: nat, m: LegacyMatch)
    requires BeforeFinalNewline(line) == b && SingleLine(b) && b != [] && b[0] == '[' && b[|b| - 1] == '}'
    requires LastOccurrence(b, "{") == Some(q) && q <= |b| && MatchBracket(b, q) == Some(m)
    ensures MatchLegacyLine(line) == Some(m)
  {
  }

  /** The converse of BracketGuard. */
  lemma {:induction false} BracketMatched(b: string, q: nat, e: nat, gap: nat, m: LegacyMatch)
    requires q <= |b| && BracketGapBefore(b, q) == Some(e)
    requires gap == Span(b[e + 1..q], IsBlank)
    requires e + 1 + gap <= q && m == LegacyMatch(b[1..e], b[e + 1 + gap..q], b[q..])
    ensures MatchBracket(b, q) == Some(m)
  {
  }

  lemma {:induction false} LegacySlices(b: string, stamp: string, gap: nat, middle: string, extra: string)
    requires SingleLine(stamp) && gap >= 1 && IsMiddleText(middle) && IsExtraGroup(extra)
    requires b == LineShape(stamp, gap, middle, extra)
    ensures |b| == |stamp| + gap + |middle| + |extra| + 2
    ensures SingleLine(b) && b[0] == '[' && b[|b| - 1] == '}'
    ensures b[1..|stamp| + 1] == stamp && HasBracketGap(b, |stamp| + 1)
    ensures forall i :: |stamp| + 2 <= i < |stamp| + 2 + gap ==> b[i] == ' '
    ensures b[|stamp| + 2..|stamp| + 2 + gap + |middle|] == Spaces(gap) + middle
    ensures b[|stamp| + 2 + gap..|stamp| + 2 + gap + |middle|] == middle
    ensures b[|stamp| + 2 + gap + |middle|..] == extra
  {
    var u := middle + extra;
    var t := Spaces(gap) + u;
    SingleLineAppend(middle, extra);
    SingleLineAppend(Spaces(gap), u);
    SingleLineAppend("]", t);
    SingleLineAppend(stamp, "]" + t);
    SingleLineAppend("[", stamp + ("]" + t));
    ShapeSlices(b, stamp, t, gap, u, middle, extra);
  }

  lemma {:induction false} ShapeSlices(b: string, stamp: string, t: string, gap: nat, u: string, middle: string, extra: string)
    requires u == middle + extra && t == Spaces(gap) + u && b == "[" + (stamp + ("]" + t)) && gap >= 1
    ensures b[1..|stamp| + 1] == stamp && b[|stamp| + 1] == ']' && b[|stamp| + 2] == ' '
    ensures forall i :: |stamp| + 2 <= i < |stamp| + 2 + gap ==> b[i] == ' '
    ensures b[|stamp| + 2..|stamp| + 2 + gap + |middle|] == Spaces(gap) + middle
    ensures b[|stamp| + 2 + gap..|stamp| + 2 + gap + |middle|] == middle
    ensures b[|stamp| + 2 + gap + |middle|..] == extra
  {
    var k := |stamp| + 2;
    assert b[1..] == stamp + ("]" + t);
    assert b[1..k - 1] == stamp;
    assert b[k..] == t;
    assert t[..gap + |middle|] == Spaces(gap) + middle;
    assert b[k + gap..] == u;
    assert u[..|middle|] == middle;
  }

  lemma {:induction false} LastBraceAt(b: string, q: nat)
    requires q < |b| && IsExtraGroup(b[q..])
    ensures LastOccurrence(b, "{") == Some(q)
  {
    assert OccursAt(b, "{", q) by {
      assert b[q..q + 1] == [b[q..][0]];
    }
    forall k | q < k ensures !OccursAt(b, "{", k) {
      if k < |b| {
        assert b[k] == b[q..][k - q];
        assert b[k..k + 1] == [b[k]];
      }
    }
    var r := LastOccurrence(b, "{");
    if r.None? {
      LastOccurrenceNone(b, "{");
    } else {
      LastOccurrenceSome(b, "{", r.value);
    }
    assert r.Some?;
    assert !(r.value < q);
  }

  lemma {:induction false} LastBracketGapAt(b: string, e: nat, q: nat, middle: string)
    requires 1 <= e && e + 1 < q <= |b| && HasBracketGap(b, e)
    requires q < |b| && b[q] == '{'
    requires IsMiddleText(middle) && |middle| < q - e && b[q - |middle|..q] == middle
    requires forall i :: e + 1 <= i < q - |middle| ==> b[i] == ' '
    ensures BracketGapBefore(b, q) == Some(e)
  {
    var start := q - |middle|;
    forall k | e < k && k + 1 < q ensures !HasBracketGap(b, k) {
      if start <= k {
        assert b[k] == middle[k - start] && b[k + 1] == middle[k + 1 - start];
        assert !HasBracketGap(middle, k - start);
      }
    }
    var r := BracketGapBefore(b, q);
    assert r.Some?;
    assert !(r.value < e);
  }

  /** parseMiddle: `event` and `message` from MIDDLE_PATTERN, both null when
      it does not match. */
  function ParseMiddle(middle: string): (r: Record)
    ensures r.Keys == {"event", "message"}
    ensures r["event"] == Null <==> MatchMessage(middle).None?
    ensures r["message"] == Null <==> MatchMessage(middle).None?
  {
    match MatchMessage(middle)
    case Some((event, message)) => map["event" := Str(event), "message" := Str(message)]
    case None => map["event" := Null, "message" := Null]
  }

  /** A middle group of the documented shape is split into exactly its
      event name and message. */
  lemma {:induction false} MiddleFields(event: string, gap: nat, message: string)
    requires IsLevel(event) && gap >= 1 && IsStatementText(message)
    ensures ParseMiddle(MessageShape(event, gap, message)) == map["event" := Str(event), "message" := Str(message)]
  {
    MessageMatched(event, gap, message);
  }

  /** parseExtra: json_decode of the whole extra group. */
  function ParseExtra(extra: string, decode: JsonDecoder): Record
    requires decode(extra).Some?
  {
    decode(extra).value
  }

  const NOTIFIED_EVENT: string := "Notified event \""
  const LISTENER: string := "Listener "
  const TRACE_REQUEST_START: string := "info: tracerequest start"

  /** `/^([\w\.]+): +Notified event ".*$/` */
  predicate IsNotifiedEvent(s: string) {
    match MatchMessage(s)
    case None => false
    case Some((_, message)) => OccursAt(message, NOTIFIED_EVENT, 0)
  }

  /** `/^([\w\.]+): +Listener +.*$/` */
  predicate IsListenerCall(s: string) {
    match MatchMessage(s)
    case None => false
    case Some((_, message)) => OccursAt(message, LISTENER, 0)
  }

  /** `/^app.INFO: TraceRequest START$/i` */
  predicate IsTraceRequestStart(s: string) {
    IsStartMarker(BeforeFinalNewline(s))
  }

  /** The start marker matched without regard to case; the unescaped `.`
      stands for any character but a line feed. */
  predicate IsStartMarker(b: string) {
    |b| == 4 + |TRACE_REQUEST_START| && b[3] != '\n'
    && ToLower(b[..3]) == "app" && ToLower(b[4..]) == TRACE_REQUEST_START
  }

  /** The ignore patterns parserv1 is configured with, in its order. */
  const V1_IGNORE_PATTERNS: seq<string -> bool> := [IsNotifiedEvent, IsTraceRequestStart, IsListenerCall]

  /** A statement is ignored exactly when one of the three patterns matches
      it. */
  lemma {:induction false} V1Ignores(s: string)
    ensures AnyMatches(V1_IGNORE_PATTERNS, s) <==> IsNotifiedEvent(s) || IsTraceRequestStart(s) || IsListenerCall(s)
  {
    var p := V1_IGNORE_PATTERNS;
    assert p[0] == IsNotifiedEvent && p[1] == IsTraceRequestStart && p[2] == IsListenerCall;
    if AnyMatches(p, s) {
      var i :| 0 <= i < |p| && p[i](s);
      assert i == 0 || i == 1 || i == 2;
    }
  }

  /** MIDDLE_PATTERN on a middle of the documented shape. */
  lemma {:induction false} MessageMatched(event: string, gap: nat, message: string)
    requires IsLevel(event) && gap >= 1 && IsStatementText(message)
    ensures MatchMessage(MessageShape(event, gap, message)) == Some((event, message))
  {
    var s := MessageShape(event, gap, message);
    MessageAccepted(event, gap, message, false);
    assert s + "" == s;
  }

  /** A message that starts with a fixed text. */
  lemma {:induction false} PrefixedText(prefix: string, rest: string)
    requires prefix != [] && prefix[0] != ' ' && SingleLine(prefix) && SingleLine(rest)
    ensures IsStatementText(prefix + rest) && OccursAt(prefix + rest, prefix, 0)
  {
    SingleLineAppend(prefix, rest);
    assert (prefix + rest)[..|prefix|] == prefix;
  }

  /** A statement that reports a notified event is ignored, whatever its
      event name, spacing and the rest of its text. */
  lemma {:induction false} NotifiedEventIgnored(event: string, gap: nat, rest: string)
    requires IsLevel(event) && gap >= 1 && SingleLine(rest)
    ensures IsNotifiedEvent(MessageShape(event, gap, NOTIFIED_EVENT + rest))
    ensures AnyMatches(V1_IGNORE_PATTERNS, MessageShape(event, gap, NOTIFIED_EVENT + rest))
  {
    PrefixedText(NOTIFIED_EVENT, rest);
    MessageMatched(event, gap, NOTIFIED_EVENT + rest);
    V1Ignores(MessageShape(event, gap, NOTIFIED_EVENT + rest));
  }

  /** A listener call is ignored likewise. */
  lemma {:induction false} ListenerCallIgnored(event: string, gap: nat, rest: string)
    requires IsLevel(event) && gap >= 1 && SingleLine(rest)
    ensures IsListenerCall(MessageShape(event, gap, LISTENER + rest))
    ensures AnyMatches(V1_IGNORE_PATTERNS, MessageShape(event, gap, LISTENER + rest))
  {
    PrefixedText(LISTENER, rest);
    MessageMatched(event, gap, LISTENER + rest);
    V1Ignores(MessageShape(event, gap, LISTENER + rest));
  }

  /** The start marker is recognised in any capitalisation and with any
      character in place of the dot. */
  lemma {:induction false} TraceRequestStartAnyCase(app: string, dot: char, rest: string)
    requires ToLower(app) == "app" && dot != '\n' && ToLower(rest) == TRACE_REQUEST_START
    ensures IsTraceRequestStart(app + [dot] + rest)
    ensures AnyMatches(V1_IGNORE_PATTERNS, app + [dot] + rest)
  {
    var s := app + [dot] + rest;
    StartMarkerOf(s, app, dot, rest);
    BeforeFinalNewlineOf(s, false);
    assert s + "" == s;
    V1Ignores(s);
  }

  lemma {:induction false} StartMarkerOf(s: string, app: string, dot: char, rest: string)
    requires ToLower(app) == "app" && dot != '\n' && ToLower(rest) == TRACE_REQUEST_START
    requires s == app + [dot] + rest
    ensures IsStartMarker(s) && s[|s| - 1] != '\n'
  {
    assert s[..3] == app && s[4..] == rest;
    assert s[|s| - 1] == rest[|rest| - 1];
    assert LowerChar(rest[|rest| - 1]) == TRACE_REQUEST_START[|TRACE_REQUEST_START| - 1];
  }

  /** A statement whose event name does not start with an `a` of either
      case is not the start marker. */
  lemma {:induction false} TraceRequestStartNeedsApp(s: string)
    requires s == [] || (s[0] != 'a' && s[0] != 'A')
    ensures !IsTraceRequestStart(s)
  {
    var b := BeforeFinalNewline(s);
    if |b| == 4 + |TRACE_REQUEST_START| {
      assert b[0] == s[0];
      assert ToLower(b[..3])[0] == LowerChar(s[0]);
    }
  }
}
