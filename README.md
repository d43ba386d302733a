# trace-log-parser in Dafny

trace-log-parser turns the application log lines of one request into a
script for the Jumly sequence-diagram tool. Each line is first parsed:

- a line of the wrong shape becomes a "There was no match on: …" marker;
- a line whose statement matches an ignore pattern is dropped;
- every other line becomes a record: the statement's `level` (or `event`)
  and `message`, united with the fields of the JSON trace payload at the
  end of the line.

The records are then rendered:

- a `@found "Client", ->` line;
- the request's route as a `@message` to the service;
- one segment per later record: a call block, a reply or a note;
- all of it indented two spaces per level of a depth counter.

The script, a token, a caption with the formatted start time and the raw
log text are then substituted into an HTML template.

The code comes in three variants of this pipeline, all modelled here:

- the `LogTraceParser` class (CloudWatch events, trace events with
  boundary calls and client replies);
- `parserv2.php` (a log file in the same line format);
- `parserv1.php` (an older line format whose trace is a bare `{…}`
  object).

Modules, in dependency order:

- `Text`: the PHP string functions the core uses: `trim`, `substr`,
  `str_replace`, `strtolower`, `explode`, `join`, and `preg_replace` of a
  literal pattern.
- `Values`: JSON scalars, associative arrays, PHP's array union and
  truthiness.
- `Regex`: character classes, the `$` anchor, and the first-match-wins
  scan over the ignore patterns.
- `LineFormat` and `LegacyFormat`: hand-written matchers for the fixed
  regular expressions, each proved sound and complete against the shape
  it describes.
- `Route`: the leftmost `METHOD +/path` match.
- `TraceEvents`: `TraceEvent`, a value built once from the `event` tag.
- `Jumly`: script lines, their layout as text, and the call block.
- `Template`: `formatMicrotime`'s splice and the four placeholder
  substitutions.
- `LogTrace`: the class `LogTraceParser`.
- `ScriptMarkup`: the render shared by `parserv1.php` and `parserv2.php`,
  as the class `ScriptRenderer`.
- `ParserV2` and `ParserV1`: a class `Parser` each.

Each imperative routine is a method with the loops and state of the PHP
code. It is proved against a function of its inputs, and the properties
are proved about that function. Pure helpers are functions with lemmas.

Behaviours kept as the code has them, although one might expect otherwise:

- `LogTraceParser::render` takes the token and time from record 0 and then
  shifts record 0 again as the route record. The two script variants shift
  twice instead.
- The depth counter is a field that no call resets, so each render starts
  one level deeper than the one before (`RenderAgainDeeper`).
- A failed `json_decode` is fatal in PHP (`array + null`), so decodable
  traces are a precondition rather than a degraded record.
- An empty list of records is rendered like any other. Missing fields read
  as empty strings, as PHP reads them.
- `parserv1.php` and `parserv2.php` only trim the statement. They do not
  strip a trailing `[]`, so a message keeps its " []".

## Model

| member | source | states |
|---|---|---|
| Text.Trim | src/Io/Samk/Logging/LogTraceParser.php:134 | trim: the result is the text between the leading and trailing runs of PHP's trim characters, and starts and ends with neither |
| Text.TrimTrailingSpace | src/parserv2.php:53 | trimming text with untrimmable ends plus one trailing space gives the text back |
| Text.Take | src/parserv2.php:175-178 | substr($s, 0, n): the prefix of length min(n, |s|) |
| Text.ReplaceQuotes | src/Io/Samk/Logging/LogTraceParser.php:207 | str_replace('"', "'"): same length, no double quote left, every other character unchanged |
| Text.ToLower | src/Io/Samk/Logging/TraceEvent.php:21 | strtolower: same length, each character lower-cased in the C locale |
| Text.Explode | src/Io/Samk/Logging/TraceEvent.php:20 | explode: at least one part, no part holds the separator, the first part is the text up to the first separator, one part exactly when there is no separator |
| Text.JoinExplode | src/Io/Samk/Logging/TraceEvent.php:20 | joining the parts of explode with the separator gives the text back |
| Text.ExplodeJoin | src/Io/Samk/Logging/TraceEvent.php:20 | exploding the join of separator-free parts gives the parts back |
| Text.LastOccurrenceSome | src/Io/Samk/Logging/LogTraceParser.php:19 | the position found is an occurrence and no later one exists |
| Text.LastOccurrenceNone | src/Io/Samk/Logging/LogTraceParser.php:19 | no position found means no occurrence anywhere |
| Text.ReplaceAllAtFirst | src/Io/Samk/Logging/LogTraceParser.php:104-118 | preg_replace of a literal pattern: the text before the first occurrence is kept, that occurrence replaced, and the rest replaced likewise |
| Text.ReplaceAllAbsent | src/Io/Samk/Logging/LogTraceParser.php:104-118 | text without an occurrence is left unchanged |
| Values.Union | src/Io/Samk/Logging/LogTraceParser.php:143 | PHP array union: the keys of both, the left array's value wherever it has the key, the right one's elsewhere |
| Values.Kept | src/Io/Samk/Logging/LogTraceParser.php:50-52 | `if ($matchedLine)`: one entry is appended exactly when the line gave one |
| Values.AllStructuredAppend | src/Io/Samk/Logging/TraceEvent.php:16 | lists of records concatenate to a list of records |
| Regex.ScanIgnorePatterns | src/Io/Samk/Logging/LogTraceParser.php:135-141 | the flag-and-break loop sets ignore exactly when some pattern matches the statement |
| Regex.IgnoreOrderIrrelevant | src/Io/Samk/Logging/LogTraceParser.php:136-141 | whether a statement is ignored does not depend on the order of the patterns |
| Regex.BeforeFinalNewline | src/Io/Samk/Logging/LogTraceParser.php:19 | `$` matches at the end or before one final line feed: the text is the result or the result and "\n" |
| Regex.SpanOfRun | src/Io/Samk/Logging/LogTraceParser.php:20 | a greedy run stops exactly where the class ends |
| LineFormat.MatchTraceLineSound | src/Io/Samk/Logging/LogTraceParser.php:19 | a matched line is "[" timestamp "]" spaces statement trace, with a timestamp of `[\d\s-:]`, a single-line statement and a trace that starts at the last `#TRACE#{` and ends in "}" |
| LineFormat.TraceLineAccepted | src/Io/Samk/Logging/LogTraceParser.php:19 | conversely every line of that shape, with or without a final line feed, matches with exactly those groups |
| LineFormat.SplitTrace | src/Io/Samk/Logging/LogTraceParser.php:19 | the statement and trace groups split the tail, the trace being a trace group |
| LineFormat.MatchMessageSound | src/Io/Samk/Logging/LogTraceParser.php:20 | a matched statement is level ":" spaces message with a level of `[\w\.]` and a single-line message |
| LineFormat.MessageAccepted | src/Io/Samk/Logging/LogTraceParser.php:20 | conversely every statement of that shape matches with exactly that level and message |
| LineFormat.ParseStatement | src/Io/Samk/Logging/LogTraceParser.php:150-163 | parseStatement: exactly the keys level and message, both null exactly when MESSAGE_PATTERN fails |
| LineFormat.MessageMatchedOnce | src/Io/Samk/Logging/LogTraceParser.php:150-163 | a statement of the documented shape yields its level and message |
| LineFormat.ParseTrace | src/Io/Samk/Logging/LogTraceParser.php:165-168 | parseTrace decodes the trace after exactly the 7 characters of `#TRACE#` |
| LineFormat.StatementEntry | src/parserv2.php:53-62 | nothing exactly when a pattern matches; otherwise a record with level and message from the statement and every other key of the decoded trace |
| LegacyFormat.MatchLegacyLineSound | src/parserv1.php:21 | a matched line is "[" stamp "]" spaces middle extra, the extra group running from the last "{" to the final "}" and the middle holding no "] " |
| LegacyFormat.LegacyLineAccepted | src/parserv1.php:21 | conversely every line of that shape matches with exactly those groups |
| LegacyFormat.BracketGapBefore | src/parserv1.php:21 | the greedy stamp group ends at the last "] " before the extra group, or there is none |
| LegacyFormat.ParseMiddle | src/parserv1.php:121-134 | parseMiddle: exactly the keys event and message, both null exactly when MIDDLE_PATTERN fails |
| LegacyFormat.MiddleFields | src/parserv1.php:121-134 | a middle of the documented shape stores its prefix under event, not level, and the rest under message |
| LegacyFormat.V1Ignores | src/parserv1.php:9-13 | the configured list ignores a statement exactly when it is a Notified event, a TraceRequest START or a Listener line |
| LegacyFormat.NotifiedEventIgnored | src/parserv1.php:10 | every `level: Notified event "…` statement is ignored |
| LegacyFormat.ListenerCallIgnored | src/parserv1.php:12 | every `level: Listener …` statement is ignored |
| LegacyFormat.TraceRequestStartAnyCase | src/parserv1.php:11 | the start marker is ignored in any letter case, with any character but a line feed in place of the unescaped dot |
| LegacyFormat.TraceRequestStartNeedsApp | src/parserv1.php:11 | a statement not starting with "a" or "A" is not the start marker |
| Route.FindRouteSome | src/Io/Samk/Logging/LogTraceParser.php:201 | the match found is a match at its position and none starts earlier |
| Route.FindRouteNone | src/Io/Samk/Logging/LogTraceParser.php:201 | no match found means no position matches |
| Route.FindRouteAtOrBefore | src/Io/Samk/Logging/LogTraceParser.php:201 | a match somewhere means one is found at or before it |
| Route.MethodAtExclusive | src/Io/Samk/Logging/LogTraceParser.php:201 | at most one method name occurs at any position, so the order of the alternation does not matter |
| Route.RouteAfterMethodSound | src/Io/Samk/Logging/LogTraceParser.php:201 | a match is the method, at least one space, "/" and a non-empty path up to the first "?" or the end |
| Route.RouteMessageFound | src/Io/Samk/Logging/LogTraceParser.php:199-203 | getRouteMessage with a match: the leftmost `METHOD +/…` text, ending before the first "?" |
| Route.RouteMessageAccepted | src/Io/Samk/Logging/LogTraceParser.php:199-203 | conversely a message holding such a fragment with no earlier match yields exactly that fragment |
| Route.NoSlashNoRoute | src/Io/Samk/Logging/LogTraceParser.php:202 | a message without "/" yields its first 20 characters and "..." |
| Template.SpliceIntoDate | src/Io/Samk/Logging/LogTraceParser.php:175 | the fraction is spliced after the hh:mm:ss of the date and nowhere else |
| Template.SpliceWithoutClock | src/Io/Samk/Logging/LogTraceParser.php:175 | a date without a clock time is left unchanged |
| Template.FormatMicrotimeOfDate | src/Io/Samk/Logging/LogTraceParser.php:170-176 | "seconds.fraction" becomes date('r') of the seconds with ".fraction" after the clock time |
| Template.FormatWholeSeconds | src/Io/Samk/Logging/LogTraceParser.php:170-176 | a time without a fraction leaves a bare "." after the clock time |
| Template.FillPieces | src/Io/Samk/Logging/LogTraceParser.php:104-118 | each placeholder piece becomes its value, every other piece stays |
| Template.FillTemplateByPieces | src/Io/Samk/Logging/LogTraceParser.php:104-118 | the four preg_replace calls in order fill each placeholder with its value |
| Template.SubstitutionsFill | src/Io/Samk/Logging/LogTraceParser.php:104-118 | the four substitutions in turn fill every placeholder at once |
| Template.ReplaceInPieces | src/Io/Samk/Logging/LogTraceParser.php:104-118 | replacing one placeholder in a template replaces exactly the pieces that are that placeholder |
| Jumly.LayoutAppend | src/Io/Samk/Logging/LogTraceParser.php:87-102 | the text of concatenated lines is the concatenation of their texts |
| Jumly.LayoutRoundTrip | src/Io/Samk/Logging/LogTraceParser.php:71-102 | reading the script text back gives the lines it was laid out from |
| Jumly.LayoutAsJoin | src/Io/Samk/Logging/LogTraceParser.php:71-102 | the script text is the indented lines joined by PHP_EOL with a final PHP_EOL |
| Jumly.CallBlockText | src/Io/Samk/Logging/LogTraceParser.php:188-197 | a call block is the message at depth d and the note and reply at d + 1 |
| Jumly.CallBlockAfterIndent | src/Io/Samk/Logging/LogTraceParser.php:188-197 | the indent, renderDbInteraction's text and PHP_EOL make that call block |
| Jumly.DeeperAppend | src/Io/Samk/Logging/LogTraceParser.php:86 | deepening a concatenation deepens each part |
| TraceEvents.FromRecord | src/Io/Samk/Logging/TraceEvent.php:16-26 | all four parts null exactly when `event` is missing or falsy; a type holds no ":" and no upper-case letter |
| TraceEvents.TagParts | src/Io/Samk/Logging/TraceEvent.php:20-24 | the type is the lower-cased first part, and context, action and entity the next three parts or null |
| TraceEvents.ClassificationExclusive | src/Io/Samk/Logging/TraceEvent.php:28-36 | never both a boundary entry and a response send; neither without an event |
| TraceEvents.BoundaryEntryAnyCase | src/Io/Samk/Logging/TraceEvent.php:20-30 | `BOUNDARY.ENTER:X:y` in any case is a boundary entry with context X and action y, case kept |
| LogTrace.StripAppendedBrackets | src/Io/Samk/Logging/LogTraceParser.php:134 | one trailing "[]" is removed |
| LogTrace.StripOnlyOnce | src/Io/Samk/Logging/LogTraceParser.php:134 | of "[][]" only the last "[]" is removed |
| LogTrace.StripBeforeNewline | src/Io/Samk/Logging/LogTraceParser.php:134 | "[]" before a final line feed is removed and the line feed kept |
| LogTrace.StripKeepsOtherEndings | src/Io/Samk/Logging/LogTraceParser.php:134 | text not ending in "]" or a line feed is unchanged |
| LogTrace.CleanedStatement | src/Io/Samk/Logging/LogTraceParser.php:134 | trimming removes the final space and the strip only the "[]" |
| LogTrace.DocumentedLineParsed | src/Io/Samk/Logging/LogTraceParser.php:128-168 | a line of the documented shape, not ignored, becomes level, message and the decoded trace, the statement's keys winning |
| LogTrace.NothingIgnored | src/Io/Samk/Logging/LogTraceParser.php:135-144 | with no ignore patterns every event yields an entry |
| LogTrace.EveryLineKept | src/Io/Samk/Logging/LogTraceParser.php:44-56 | with no ignore patterns the list has one entry per event, the i-th from the i-th event |
| LogTrace.IgnoreOrder | src/Io/Samk/Logging/LogTraceParser.php:136-141 | reordering the ignore patterns does not change the parsed list |
| LogTrace.MatchedLinesStructured | src/Io/Samk/Logging/LogTraceParser.php:131-143 | when every event has the format, every entry is a record, as TraceEvent's array type hint needs |
| LogTrace.BodyAppend | src/Io/Samk/Logging/LogTraceParser.php:87-102 | the lines of two runs of records are the lines of the first followed by those of the second |
| LogTrace.BodyDeeper | src/Io/Samk/Logging/LogTraceParser.php:86-102 | lines rendered one level deeper are the same lines each one level deeper |
| LogTrace.InitMessageOfTime | src/Io/Samk/Logging/LogTraceParser.php:78-82 | the caption is "Initialize Contact" and " @ " and the formatted time when time is set, and the bare caption when it is not |
| LogTrace.ScriptParts | src/Io/Samk/Logging/LogTraceParser.php:71-87 | the script opens with `@found "Client", ->` and then the route of record 0, before the records after it |
| LogTrace.RenderAgainDeeper | src/Io/Samk/Logging/LogTraceParser.php:30 | since nothing resets the counter, a second render draws every line after `@found` one level deeper |
| LogTrace.LogTraceParser.constructor | src/Io/Samk/Logging/LogTraceParser.php:30-36 | the service name and ignore patterns are stored and the depth starts at 1 |
| LogTrace.LogTraceParser.MatchLine | src/Io/Samk/Logging/LogTraceParser.php:128-148 | matchLine returns the marker, nothing, or the united record, as LineEntry says |
| LogTrace.LogTraceParser.ParseCloudWatchFormat | src/Io/Samk/Logging/LogTraceParser.php:44-56 | the raw list is every event in order, and the parsed list the kept entries in order |
| LogTrace.LogTraceParser.RenderDbInteraction | src/Io/Samk/Logging/LogTraceParser.php:188-197 | the call to the event's context named by its action, the unescaped message as note, the service's reply one level deeper, and the depth restored |
| LogTrace.LogTraceParser.RenderStatement | src/Io/Samk/Logging/LogTraceParser.php:88-101 | a boundary entry gives a call block, a response send an unescaped reply to Client, anything else a note with quotes made single |
| LogTrace.LogTraceParser.RenderStatements | src/Io/Samk/Logging/LogTraceParser.php:87-102 | the loop appends one segment per record, in order, at an unchanged depth |
| LogTrace.LogTraceParser.RenderHead | src/Io/Samk/Logging/LogTraceParser.php:71-85 | `@found "Client", ->` and the route message of record 0 at the current depth |
| LogTrace.LogTraceParser.RenderBody | src/Io/Samk/Logging/LogTraceParser.php:86-102 | the depth goes up by one and the records after the first are drawn at it |
| LogTrace.LogTraceParser.ContactCaption | src/Io/Samk/Logging/LogTraceParser.php:78-82 | the caption render builds is InitMessage of record 0 |
| LogTrace.LogTraceParser.FillPage | src/Io/Samk/Logging/LogTraceParser.php:103-118 | token, caption, script and the events joined by "\n" go into the template in that order |
| LogTrace.LogTraceParser.Render | src/Io/Samk/Logging/LogTraceParser.php:68-126 | render returns the page of the parsed records at the entry depth, and leaves the depth exactly one higher |
| LogTrace.LogTraceParser.Run | src/Io/Samk/Logging/LogTraceParser.php:38-42 | run is render of parseCloudWatchFormat's lists |
| ScriptMarkup.GetRouteMessage | src/parserv2.php:175-178 | the route message is the first 28 characters of the message |
| ScriptMarkup.RouteLineCaption | src/parserv2.php:91-93 | the route line is the second record's first 28 characters, quotes made single, sent to the service |
| ScriptMarkup.NoteQuotes | src/parserv2.php:180-185 | a note's only double quotes are its two delimiters |
| ScriptMarkup.BodyAppend | src/parserv2.php:97-106 | the lines of two runs of records are those of the first followed by those of the second |
| ScriptMarkup.BodyDepths | src/parserv2.php:164-173 | every body line sits at the loop's depth or one deeper |
| ScriptMarkup.BodyDeeper | src/parserv2.php:97-106 | a body drawn one level deeper is each line one level deeper |
| ScriptMarkup.ScriptAsLayout | src/parserv2.php:79-108 | the script is its lines and the closing reply, laid out, without the final PHP_EOL |
| ScriptMarkup.ScriptOpensAndCloses | src/parserv2.php:79-108 | the markup begins with `@found "Client", ->` and ends with `@reply "", "Client"` |
| ScriptMarkup.RenderAgainDeeper | src/parserv2.php:36 | since the static counter is never reset, a second render draws every line after `@found` one level deeper |
| ScriptMarkup.ScriptRenderer.constructor | src/parserv2.php:27-36 | the service name and the field that marks a database call are stored and the depth starts at 1 |
| ScriptMarkup.ScriptRenderer.RenderDbInteraction | src/parserv2.php:164-173 | `@message "", "DB", ->`, the unescaped message as note and the service's reply one level deeper, the depth restored |
| ScriptMarkup.ScriptRenderer.RenderStatement | src/parserv2.php:98-105 | a database call gives the call block, anything else a note with quotes made single |
| ScriptMarkup.ScriptRenderer.RenderStatements | src/parserv2.php:97-106 | the loop appends one segment per record, in order, at an unchanged depth |
| ScriptMarkup.ScriptRenderer.RenderHead | src/parserv2.php:79-93 | `@found "Client", ->` and the second record's route message at the current depth |
| ScriptMarkup.ScriptRenderer.RenderBody | src/parserv2.php:94-106 | the depth goes up by one and the records after the first two are drawn at it |
| ScriptMarkup.ScriptRenderer.FillPage | src/parserv2.php:108-126 | the closing reply ends the markup, and token, caption, markup and raw logs fill the template in that order |
| ScriptMarkup.ScriptRenderer.Render | src/parserv2.php:75-129 | render returns the page of the records at the entry depth, and leaves the depth exactly one higher |
| ParserV2.UnmatchedKept | src/parserv2.php:50-51 | a line of the wrong shape becomes "There was no match on: " and the line |
| ParserV2.IgnoredDropped | src/parserv2.php:53-61 | a line whose trimmed statement matches a pattern yields nothing |
| ParserV2.TrimmedStatement | src/parserv2.php:53 | only trimming happens: the "[]" stays in the statement |
| ParserV2.DocumentedLineParsed | src/parserv2.php:49-62 | a line of the documented shape becomes level, message with its " []", and the decoded trace |
| ParserV2.ParsedOne | src/parserv2.php:49-63 | the list of one line is that line's entry, if any |
| ParserV2.ParsedAppend | src/parserv2.php:45-73 | the list of two runs of lines is the list of the first followed by the list of the second |
| ParserV2.ConfiguredKeepsAll | src/parserv2.php:9-11 | with the configured empty ignore list every line yields one entry |
| ParserV2.IgnoreOrder | src/parserv2.php:55-60 | reordering the ignore patterns does not change the list |
| ParserV2.MatchedLinesStructured | src/parserv2.php:50-62 | when every line has the format, every entry is a record |
| ParserV2.Parser.constructor | src/parserv2.php:8-11 | the service name and ignore list are stored, the renderer marks database calls by level, the depth starts at 1 |
| ParserV2.Parser.ParseLine | src/parserv2.php:50-63 | one pass of the loop gives LineEntry of the buffer |
| ParserV2.Parser.Parse | src/parserv2.php:45-73 | the loop's list is Parsed of the lines: every entry, in order |
| ParserV2.Parser.Run | src/parserv2.php:38-43 | run renders the parsed lines with the file's text as raw logs, and leaves the depth one higher |
| ParserV2.RunScript | src/parserv2.php:8-12 | the script configured with "pages-api" and its empty ignore list renders every line, one entry per line, starting at depth 1 |
| ParserV1.KeptFields | src/parserv1.php:51-53 | a kept line is the record of event and message from the trimmed middle, united with the decoded extra group, the middle's keys winning |
| ParserV1.UnmatchedKept | src/parserv1.php:40-41 | a line of the wrong shape becomes "There was no match on: " and the line |
| ParserV1.ConfiguredIgnores | src/parserv1.php:44-50 | with the configured list a line is dropped exactly when its middle is one of the three ignored kinds |
| ParserV1.TrimmedMiddle | src/parserv1.php:43 | the middle is trimmed of the space before the extra group |
| ParserV1.DocumentedLineParsed | src/parserv1.php:39-53 | a line of the documented shape becomes event, message and the whole decoded `{…}`, with no marker stripped |
| ParserV1.ParsedOne | src/parserv1.php:39-53 | the list of one line is that line's entry, if any |
| ParserV1.ParsedAppend | src/parserv1.php:35-63 | the list of two runs of lines is the list of the first followed by the list of the second |
| ParserV1.IgnoreOrder | src/parserv1.php:45-50 | reordering the ignore patterns does not change the list |
| ParserV1.MatchedLinesStructured | src/parserv1.php:40-52 | when every line has the format, every entry is a record |
| ParserV1.Parser.constructor | src/parserv1.php:8-13 | the service name and ignore list are stored, the renderer marks database calls by event, the depth starts at 1 |
| ParserV1.Parser.ParseLine | src/parserv1.php:40-53 | one pass of the loop gives LineEntry of the buffer |
| ParserV1.Parser.Parse | src/parserv1.php:35-63 | the loop's list is Parsed of the lines: every entry, in order |
| ParserV1.Parser.Run | src/parserv1.php:28-33 | run renders the parsed lines with the file's text as raw logs, and leaves the depth one higher |
| ParserV1.RunScript | src/parserv1.php:8-14 | the script configured with "pages-api" and its three ignore patterns renders the kept lines starting at depth 1 |

## Left out

- `AwsClient.php` (the CloudWatch client) and `index.php` (the HTTP entry point) are not part of this model.
- File I/O (`fopen`, `fgets`, `feof`, `fclose`, `file_get_contents`, `file_put_contents`): lines are a sequence of strings, the template a string, and the page is returned. The raw logs of `parserv1.php` and `parserv2.php` are the concatenated lines, which is the file's text.
- `LogTraceParser::render`'s `$targetPath`: when it is set, PHP writes the page and returns the path. The model always returns the page.
- `fgets`'s 4096-byte limit, which splits longer lines, and the "unexpected fgets() fail" message are not modelled.
- `date('r')` depends on the calendar and time zone, so it is the parameter `dateR`. Only the splice of the fraction after the clock time is modelled.
- `json_decode` is the parameter `decode`. JSON values are scalars; nested arrays and objects are not modelled.
- A failed decode of a kept line is a fatal error in PHP, so it is excluded by a precondition (`Decodes`, `AllDecode`).
- LineFormat.MatchTraceLine: reads the class `[\d\s-:]` of the trace-format pattern (`LogTraceParser.php:19`, `parserv2.php:29`) the way PCRE1 does, with `-` a literal, and reads `\s` with the vertical tab, as PCRE 8.34 and later do. The model therefore assumes a PHP before 7.3 whose bundled PCRE is 8.34 or later, such as PHP 7.0 to 7.2. From PHP 7.3 on, PCRE2 rejects that class as an invalid range. `preg_match` then returns false, and every line of `LogTraceParser` and `parserv2.php` becomes a "There was no match on: …" marker. The model does not describe that case.
- LogTrace.LogTraceParser.Run: requires every event to have the format. `LogTrace.LogTraceParser.Render` requires records only. In PHP, a marker after record 0 reaches `new TraceEvent`, whose `array` parameter makes it a fatal error. A marker as record 0 is only read and written by key. On the PHP versions assumed above, a non-numeric string offset is a warning that acts on the first character. So the token is "T", `isset` of the time is false, and the route is built from "T". The model does not describe that case.
- ParserV2.Parser.Run: requires every line to have the format, and `ScriptMarkup.ScriptRenderer.Render` requires records only. `parserv2.php` has no `TraceEvent`, so a marker is read by key and only warns, under the reading above. A marker among the records after the first two renders as `@note "T"`, and a marker in the first two gives the token, time or route from "T". The run goes on. The model does not describe logs with unmatched lines.
- ParserV1.Parser.Run: requires every line to have the older format, for the same reason and with the same PHP behaviour as `ParserV2.Parser.Run`. `$parsedLine['event']` of a marker is "T", so a marker is never a database call and renders as `@note "T"`.
- User-supplied ignore patterns are opaque predicates. The three patterns of `parserv1.php` are written out by hand.
- `preg_replace` reads `$n` and `\n` in its replacement strings; the model inserts the substituted values literally.
- Template.FillTemplateByPieces: stated only for templates made of placeholders and text with no "{{", and for token, caption and markup that hold no "{{". A value holding a later placeholder would be substituted again by PHP, which this lemma does not describe.
- The static properties of `parserv1.php` and `parserv2.php` become fields of one `Parser` object and its `ScriptRenderer`. The two renders differ only in the field that marks a database call, so they share one class.
