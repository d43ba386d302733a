/** The diagram the two stand-alone scripts, src/parserv1.php and
    src/parserv2.php, render from their parsed lines. Both draw the same
    script: the client actor, the request's route (the first 28 characters
    of the second record's message) as a message to the service, one
    segment per later record, and a closing reply to the client. They
    differ only in the field that marks a database call: `event` in v1,
    `level` in v2. The first record supplies the token and the start time
    of the page. */
module ScriptMarkup {
  import opened Text
  import opened Values
  import opened Jumly
  import opened Template

  /** The kind a database statement is logged with. */
  const DB_EVENT: string := "doctrine.DEBUG"

  /** How much of the route record's message getRouteMessage keeps. */
  const ROUTE_LENGTH: nat := 28

  /** finalizeSequenceMarkup(): the reply to the client that ends every
      script, written without a line feed. */
  const CLOSING: string := "@reply \"\", \"Client\""

  const REQUEST_CAPTION: string := "Initialize Request @ "

  /** isDbInteraction: the record's kind field is "doctrine.DEBUG". */
  predicate IsDbInteraction(record: Record, key: string) {
    Get(record, key) == DB_EVENT
  }

  /** getRouteMessage: the message cut to its first 28 characters. */
  function GetRouteMessage(record: Record): (r: string)
    ensures r <= Get(record, "message")
    ensures |r| == if |Get(record, "message")| < ROUTE_LENGTH then |Get(record, "message")| else ROUTE_LENGTH
  {
    Take(Get(record, "message"), ROUTE_LENGTH)
  }

  /** renderNote: the message, its double quotes made single, as a note. */
  function RenderNote(record: Record): string {
    Note(ReplaceQuotes(Get(record, "message")))
  }

  /** renderMessage: the message, its double quotes made single, sent to
      the service. */
  function RenderMessage(record: Record, service: string): string {
    Message(ReplaceQuotes(Get(record, "message")), service)
  }

  /** The double quotes of a note are its two delimiters and no others. */
  lemma {:induction false} NoteQuotes(record: Record)
    ensures var r := RenderNote(record);
            r[6] == '"' && r[|r| - 1] == '"' && forall i :: 0 <= i < |r| && r[i] == '"' ==> i == 6 || i == |r| - 1
  {
    var t := ReplaceQuotes(Get(record, "message"));
    var r := RenderNote(record);
    assert r == "@note \"" + t + "\"";
    forall i | 0 <= i < |r| && i != 6 && i != |r| - 1 ensures r[i] != '"' {
      if 7 <= i {
        assert r[i] == t[i - 7];
      }
    }
  }

  /** The lines render writes for one record after the route, at the given
      depth: a database statement becomes a call to "DB" with the unescaped
      message as the note and the service's reply one level deeper; every
      other record a note with its double quotes made single. */
  function Segment(record: Record, key: string, depth: nat, service: string): seq<Line> {
    if IsDbInteraction(record, key) then CallBlock(depth, "", "DB", Get(record, "message"), service)
    else [Line(depth, RenderNote(record))]
  }

  /** The segments of the records, in order. */
  function Body(records: seq<Record>, key: string, depth: nat, service: string): seq<Line> {
    if records == [] then []
    else Body(records[..|records| - 1], key, depth, service) + Segment(records[|records| - 1], key, depth, service)
  }

  /** The body of two runs of records is the body of the first followed by
      that of the second: each record gets its own segment, in order. */
  lemma {:induction false} BodyAppend(a: seq<Record>, b: seq<Record>, key: string, depth: nat, service: string)
    ensures Body(a + b, key, depth, service) == Body(a, key, depth, service) + Body(b, key, depth, service)
    decreases |b|
  {
    if b == [] {
      assert a + b == a;
    } else {
      var init, last := b[..|b| - 1], b[|b| - 1];
      InitOfAppend(a, b);
      BodyAppend(a, init, key, depth, service);
      ConcatAssoc(Body(a, key, depth, service), Body(init, key, depth, service), Segment(last, key, depth, service));
    }
  }

  /** Every line of a body sits at its depth, or one deeper inside a
      database call. */
  lemma {:induction false} BodyDepths(records: seq<Record>, key: string, depth: nat, service: string)
    ensures forall i :: 0 <= i < |Body(records, key, depth, service)| ==>
              depth <= Body(records, key, depth, service)[i].depth <= depth + 1
  {
    if records != [] {
      var init := records[..|records| - 1];
      BodyDepths(init, key, depth, service);
      var a, b := Body(init, key, depth, service), Segment(records[|records| - 1], key, depth, service);
      assert forall i :: 0 <= i < |b| ==> depth <= b[i].depth <= depth + 1;
      forall i | 0 <= i < |a + b| ensures depth <= (a + b)[i].depth <= depth + 1 {
        if i < |a| {
          assert (a + b)[i] == a[i];
        } else {
          assert (a + b)[i] == b[i - |a|];
        }
      }
    }
  }

  /** array_shift: the first record, or the empty array a missing one
      reads as. */
  function First(records: seq<Record>): Record {
    if records == [] then map[] else records[0]
  }

  /** The second array_shift: the route record. */
  function Second(records: seq<Record>): Record {
    if |records| < 2 then map[] else records[1]
  }

  /** The records the loop goes over: those after the first two. */
  function Later(records: seq<Record>): seq<Record> {
    if |records| < 2 then [] else records[2..]
  }

  /** The route record as render rewrites it: its message replaced by
      getRouteMessage's. */
  function RouteRecord(records: seq<Record>): Record {
    Second(records)["message" := Str(GetRouteMessage(Second(records)))]
  }

  /** The route message at the given depth. */
  function RouteLine(records: seq<Record>, depth: nat, service: string): Line {
    Line(depth, RenderMessage(RouteRecord(records), service))
  }

  /** The route line carries the first 28 characters of the second
      record's message, double quotes made single. */
  lemma {:induction false} RouteLineCaption(records: seq<Record>, depth: nat, service: string)
    ensures RouteLine(records, depth, service)
         == Line(depth, Message(ReplaceQuotes(Take(Get(Second(records), "message"), ROUTE_LENGTH)), service))
  {
    assert Get(RouteRecord(records), "message") == GetRouteMessage(Second(records));
  }

  /** The script's lines up to the closing reply: the client actor, the
      route message at the given depth, then the later records one level
      deeper. */
  function ScriptLines(records: seq<Record>, key: string, depth: nat, service: string): seq<Line> {
    [Line(0, FOUND_CLIENT), RouteLine(records, depth, service)] + Body(Later(records), key, depth + 1, service)
  }

  /** The script text: its lines, then the closing reply one level deeper
      than the route, without a final line feed. */
  function ScriptText(records: seq<Record>, key: string, depth: nat, service: string): string {
    Layout(ScriptLines(records, key, depth, service)) + (Indent(depth + 1) + CLOSING)
  }

  /** The script is the layout of its lines and the closing reply, short of
      the last line feed. */
  lemma {:induction false} ScriptAsLayout(records: seq<Record>, key: string, depth: nat, service: string)
    ensures ScriptText(records, key, depth, service) + EOL
         == Layout(ScriptLines(records, key, depth, service) + [Line(depth + 1, CLOSING)])
  {
    var lines := ScriptLines(records, key, depth, service);
    LayoutAppend(lines, [Line(depth + 1, CLOSING)]);
    OneLineText(Line(depth + 1, CLOSING));
  }

  /** The script opens with the client actor and ends with the closing
      reply. */
  lemma {:induction false} ScriptOpensAndCloses(records: seq<Record>, key: string, depth: nat, service: string)
    ensures FOUND_CLIENT + EOL <= ScriptText(records, key, depth, service)
    ensures var s := ScriptText(records, key, depth, service);
            |s| >= |CLOSING| && s[|s| - |CLOSING|..] == CLOSING
  {
    var rest := [RouteLine(records, depth, service)] + Body(Later(records), key, depth + 1, service);
    var lines := ScriptLines(records, key, depth, service);
    assert lines == [Line(0, FOUND_CLIENT)] + rest;
    LayoutAppend([Line(0, FOUND_CLIENT)], rest);
    OneLineText(Line(0, FOUND_CLIENT));
    assert Indent(0) == "";
    StartsWith(Layout(lines), FOUND_CLIENT + EOL, Layout(rest), Indent(depth + 1) + CLOSING);
    EndsWith(Layout(lines), Indent(depth + 1), CLOSING);
  }

  /** The caption of the page: "Initialize Request @ " and the formatted
      time of the first record, whether or not it has one. */
  function InitMessage(first: Record, dateR: string -> string): string {
    REQUEST_CAPTION + FormatMicrotime(Get(first, "time"), dateR)
  }

  /** The page render writes: the template with the first record's token,
      the caption, the script and the log file's text. */
  function Page(template: string, rawLogs: string, records: seq<Record>, key: string, depth: nat, service: string,
                dateR: string -> string): string {
    var first := First(records);
    FillTemplate(template, Get(first, "token"), InitMessage(first, dateR), ScriptText(records, key, depth, service), rawLogs)
  }

  /** A second render by the same script draws the same lines one level
      deeper after the client actor, since render raises the depth and
      nothing lowers it. */
  lemma {:induction false} RenderAgainDeeper(records: seq<Record>, key: string, depth: nat, service: string)
    ensures ScriptLines(records, key, depth + 1, service)[1..] == Deeper(ScriptLines(records, key, depth, service)[1..])
  {
    var later := Later(records);
    ScriptTail(records, key, depth, service);
    ScriptTail(records, key, depth + 1, service);
    BodyDeeper(later, key, depth + 1, service);
    DeeperCons(RouteLine(records, depth, service), Body(later, key, depth + 1, service),
               RouteLine(records, depth + 1, service), Body(later, key, depth + 2, service));
  }

  lemma {:induction false} ScriptTail(records: seq<Record>, key: string, depth: nat, service: string)
    ensures ScriptLines(records, key, depth, service)[1..]
         == [RouteLine(records, depth, service)] + Body(Later(records), key, depth + 1, service)
  {
    TwoThenRest(Line(0, FOUND_CLIENT), RouteLine(records, depth, service), Body(Later(records), key, depth + 1, service));
  }

  /** A body rendered one level deeper is the same body with every line
      one level deeper. */
  lemma {:induction false} BodyDeeper(records: seq<Record>, key: string, depth: nat, service: string)
    ensures Body(records, key, depth + 1, service) == Deeper(Body(records, key, depth, service))
  {
    if records != [] {
      var init := records[..|records| - 1];
      var last := records[|records| - 1];
      BodyDeeper(init, key, depth, service);
      DeeperAppend(Body(init, key, depth, service), Segment(last, key, depth, service));
      SegmentDeeper(last, key, depth, service);
    }
  }

  lemma {:induction false} SegmentDeeper(record: Record, key: string, depth: nat, service: string)
    ensures Segment(record, key, depth + 1, service) == Deeper(Segment(record, key, depth, service))
  {
    if IsDbInteraction(record, key) {
      CallBlockDeeper(depth, "", "DB", Get(record, "message"), service);
    } else {
      OneLineDeeper(depth, RenderNote(record));
    }
  }

  /** The loop's text grows by one segment per record. */
  lemma {:induction false} SegmentStep(rest: seq<Record>, i: nat, key: string, depth: nat, service: string,
                                       before: string, piece: string)
    requires i < |rest|
    requires before == Layout(Body(rest[..i], key, depth, service))
    requires piece == Layout(Segment(rest[i], key, depth, service))
    ensures before + piece == Layout(Body(rest[..i + 1], key, depth, service))
  {
    BodyStep(rest, i, key, depth, service);
    LayoutAppend(Body(rest[..i], key, depth, service), Segment(rest[i], key, depth, service));
  }

  /** The body of one more record is the body so far and that record's
      segment. */
  lemma {:induction false} BodyStep(rest: seq<Record>, i: nat, key: string, depth: nat, service: string)
    requires i < |rest|
    ensures Body(rest[..i + 1], key, depth, service) == Body(rest[..i], key, depth, service) + Segment(rest[i], key, depth, service)
  {
    assert rest[..i + 1][..i] == rest[..i];
  }

  /** Before the loop there is no text. */
  lemma {:induction false} EmptyBody(rest: seq<Record>, key: string, depth: nat, service: string, markup: string)
    requires markup == ""
    ensures markup == Layout(Body(rest[..0], key, depth, service))
  {
    assert rest[..0] == [];
  }

  /** The text render starts the script with. */
  lemma {:induction false} HeadText(records: seq<Record>, depth: nat, service: string, markup: string)
    requires markup == FOUND_CLIENT + EOL + (Indent(depth) + RenderMessage(RouteRecord(records), service) + EOL)
    ensures markup == Layout([Line(0, FOUND_CLIENT), RouteLine(records, depth, service)])
  {
    TwoLines(Line(0, FOUND_CLIENT), RouteLine(records, depth, service));
    assert Indent(0) == "";
  }

  /** Once the loop has seen every record and the closing reply is added,
      the template filled with the parts is the page. */
  lemma {:induction false} PageOfParts(template: string, rawLogs: string, records: seq<Record>, key: string, depth: nat,
                                       service: string, dateR: string -> string, head: string, body: string,
                                       markup: string, rendered: string)
    requires head == Layout([Line(0, FOUND_CLIENT), RouteLine(records, depth, service)])
    requires body == Layout(Body(Later(records), key, depth + 1, service))
    requires markup == head + body + (Indent(depth + 1) + CLOSING)
    requires rendered == FillTemplate(template, Get(First(records), "token"), InitMessage(First(records), dateR), markup, rawLogs)
    ensures rendered == Page(template, rawLogs, records, key, depth, service, dateR)
  {
    LayoutAppend([Line(0, FOUND_CLIENT), RouteLine(records, depth, service)], Body(Later(records), key, depth + 1, service));
  }

  /** The render half of parserv1 and parserv2: the service name, the field
      that marks a database call, and the indentation depth that render
      raises by one and never lowers again. */
  class ScriptRenderer {
    const serviceName: string
    const kind: string
    var indentCount: nat

    constructor(serviceName: string, kind: string)
      ensures this.serviceName == serviceName && this.kind == kind
      ensures indentCount == 1
    {
      this.serviceName := serviceName;
      this.kind := kind;
      indentCount := 1;
    }

    /** renderDbInteraction: the call to "DB", then the unescaped message as
        a note and the service's empty reply one level deeper, the depth
        restored after. */
    method RenderDbInteraction(record: Record) returns (markup: string)
      modifies this
      ensures indentCount == old(indentCount)
      ensures Indent(indentCount) + markup + EOL
           == Layout(CallBlock(indentCount, "", "DB", Get(record, "message"), serviceName))
    {
      ghost var depth := indentCount;
      markup := Message("", "DB") + EOL;
      indentCount := indentCount + 1;
      markup := markup + Indent(indentCount) + Note(Get(record, "message")) + EOL;
      markup := markup + Indent(indentCount) + Reply("", serviceName);
      indentCount := indentCount - 1;
      CallBlockAfterIndent(depth, "", "DB", Get(record, "message"), serviceName, markup);
    }

    /** The body of render's loop: the segment of one record at the current
        depth, each line ended by PHP_EOL. */
    method RenderStatement(record: Record) returns (piece: string)
      modifies this
      ensures indentCount == old(indentCount)
      ensures piece == Layout(Segment(record, kind, indentCount, serviceName))
    {
      if IsDbInteraction(record, kind) {
        var block := RenderDbInteraction(record);
        piece := Indent(indentCount) + block + EOL;
      } else {
        piece := Indent(indentCount) + RenderNote(record) + EOL;
        OneLineText(Line(indentCount, RenderNote(record)));
      }
    }

    /** Render's loop over the records after the route, in order. */
    method RenderStatements(rest: seq<Record>) returns (markup: string)
      modifies this
      ensures indentCount == old(indentCount)
      ensures markup == Layout(Body(rest, kind, indentCount, serviceName))
    {
      markup := "";
      var i := 0;
      EmptyBody(rest, kind, indentCount, serviceName, markup);
      while i < |rest|
        invariant 0 <= i <= |rest|
        invariant indentCount == old(indentCount)
        invariant markup == Layout(Body(rest[..i], kind, indentCount, serviceName))
      {
        var piece := RenderStatement(rest[i]);
        SegmentStep(rest, i, kind, indentCount, serviceName, markup, piece);
        markup := markup + piece;
        i := i + 1;
      }
      WholePrefix(rest, i);
    }

    /** Render's opening: the client actor, then the second record, its
        message cut by getRouteMessage, sent to the service at the current
        depth. */
    method RenderHead(records: seq<Record>) returns (markup: string)
      ensures markup == Layout([Line(0, FOUND_CLIENT), RouteLine(records, indentCount, serviceName)])
    {
      markup := FOUND_CLIENT + EOL;
      var route := Second(records);
      route := route["message" := Str(GetRouteMessage(route))];
      markup := markup + (Indent(indentCount) + RenderMessage(route, serviceName) + EOL);
      HeadText(records, indentCount, serviceName, markup);
    }

    /** Render's middle: one level deeper, the segments of the records
        after the route. */
    method RenderBody(later: seq<Record>, ghost depth: nat) returns (body: string)
      requires indentCount == depth
      modifies this
      ensures indentCount == depth + 1
      ensures body == Layout(Body(later, kind, depth + 1, serviceName))
    {
      indentCount := indentCount + 1;
      body := RenderStatements(later);
    }

    /** render (without the file I/O): the page for the parsed records at
        the current depth, with the log file's text as the raw logs. The
        depth is one level higher afterwards. */
    method Render(parsed: seq<ParsedLine>, rawLogs: string, template: string, dateR: string -> string)
      returns (rendered: string)
      requires AllStructured(parsed)
      modifies this
      ensures indentCount == old(indentCount) + 1
      ensures rendered == Page(template, rawLogs, Records(parsed), kind, old(indentCount), serviceName, dateR)
    {
      var records := Records(parsed);
      ghost var depth := indentCount;
      var head := RenderHead(records);
      var body := RenderBody(Later(records), depth);
      var closing := Indent(indentCount) + CLOSING;
      rendered := FillPage(template, rawLogs, records, kind, dateR, head, body, closing, depth, serviceName);
    }

    /** Render's last step: the token and caption of the first record, the
        script ended by the closing reply, filled into the template. */
    static method FillPage(template: string, rawLogs: string, records: seq<Record>, ghost kind: string,
                           dateR: string -> string, head: string, body: string, closing: string,
                           ghost depth: nat, ghost service: string)
      returns (rendered: string)
      requires head == Layout([Line(0, FOUND_CLIENT), RouteLine(records, depth, service)])
      requires body == Layout(Body(Later(records), kind, depth + 1, service))
      requires closing == Indent(depth + 1) + CLOSING
      ensures rendered == Page(template, rawLogs, records, kind, depth, service, dateR)
    {
      var first := First(records);
      var token := Get(first, "token");
      var initMessage := REQUEST_CAPTION + FormatMicrotime(Get(first, "time"), dateR);
      var markup := head + body + closing;
      rendered := FillTemplate(template, token, initMessage, markup, rawLogs);
      PageOfParts(template, rawLogs, records, kind, depth, service, dateR, head, body, markup, rendered);
    }
  }
}
