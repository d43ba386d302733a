/** The Jumly sequence-diagram script the parsers emit: one directive per
    line (`@found`, `@message`, `@note`, `@reply`), nested by indentation of
    two spaces per level. A script is kept as a list of lines with their
    depth; `Layout` is the text the parsers build by concatenation, and
    `ReadLayout` reads that text back. */
module Jumly {
  import opened Text
  import opened Regex

  /** One script line: its nesting depth and its directive. */
  datatype Line = Line(depth: nat, text: string)

  /** str_repeat('  ', depth): the prefix `indent()` produces. */
  function Indent(depth: nat): string {
    Spaces(2 * depth)
  }

  function RenderLine(l: Line): string {
    Indent(l.depth) + l.text
  }

  /** The script text: every line indented and terminated by PHP_EOL. */
  function Layout(lines: seq<Line>): string {
    if lines == [] then "" else RenderLine(lines[0]) + EOL + Layout(lines[1..])
  }

  /** Scripts are built by appending: the text of a concatenation is the
      concatenation of the texts. */
  lemma {:induction false} LayoutAppend(a: seq<Line>, b: seq<Line>)
    ensures Layout(a + b) == Layout(a) + Layout(b)
  {
    if a != [] {
      assert (a + b)[1..] == a[1..] + b;
      LayoutAppend(a[1..], b);
    } else {
      assert a + b == b;
    }
  }

  /** A directive the script reader can recover: it is not empty, does not
      start with a space and holds no line break. */
  predicate Readable(l: Line) {
    l.text != [] && l.text[0] != ' ' && '\n' !in l.text
  }

  /** The depth and directive of one line of script text. */
  function ReadLine(t: string): Line {
    var n := Span(t, IsBlank);
    Line(n / 2, t[n..])
  }

  /** The lines of a script text: the pieces between line breaks, the
      empty piece after the final break excluded. */
  function ReadLayout(s: string): seq<Line> {
    ReadPieces(Explode(s, '\n'))
  }

  function ReadPieces(pieces: seq<string>): seq<Line> {
    if |pieces| <= 1 then [] else [ReadLine(pieces[0])] + ReadPieces(pieces[1..])
  }

  function RenderPieces(lines: seq<Line>): seq<string> {
    if lines == [] then [] else [RenderLine(lines[0])] + RenderPieces(lines[1..])
  }

  /** Reading a script text back yields the lines it was laid out from. */
  lemma {:induction false} LayoutRoundTrip(lines: seq<Line>)
    requires forall i :: 0 <= i < |lines| ==> Readable(lines[i])
    ensures ReadLayout(Layout(lines)) == lines
  {
    LayoutAsJoin(lines);
    ExplodeJoin(RenderPieces(lines) + [""], '\n');
    ReadRenderedPieces(lines);
  }

  lemma {:induction false} LayoutAsJoin(lines: seq<Line>)
    requires forall i :: 0 <= i < |lines| ==> Readable(lines[i])
    ensures Layout(lines) == Join(RenderPieces(lines) + [""], EOL)
    ensures forall i :: 0 <= i < |RenderPieces(lines) + [""]| ==> '\n' !in (RenderPieces(lines) + [""])[i]
    ensures |RenderPieces(lines)| == |lines|
  {
    if lines != [] {
      LayoutAsJoin(lines[1..]);
      var head := RenderLine(lines[0]);
      var tail := RenderPieces(lines[1..]) + [""];
      assert RenderPieces(lines) + [""] == [head] + tail;
      JoinCons(head, tail, EOL);
      assert '\n' !in head by {
        assert forall i :: 0 <= i < |Indent(lines[0].depth)| ==> head[i] == ' ';
        assert forall i :: |Indent(lines[0].depth)| <= i < |head| ==> head[i] == lines[0].text[i - |Indent(lines[0].depth)|];
      }
    } else {
      assert RenderPieces(lines) + [""] == [""];
    }
  }

  lemma {:induction false} ReadRenderedPieces(lines: seq<Line>)
    requires forall i :: 0 <= i < |lines| ==> Readable(lines[i])
    ensures ReadPieces(RenderPieces(lines) + [""]) == lines
  {
    if lines != [] {
      assert RenderPieces(lines) + [""] == [RenderLine(lines[0])] + (RenderPieces(lines[1..]) + [""]);
      ReadRenderedLine(lines[0]);
      ReadRenderedPieces(lines[1..]);
    }
  }

  lemma {:induction false} ReadRenderedLine(l: Line)
    requires Readable(l)
    ensures ReadLine(RenderLine(l)) == l
  {
    SpanOfRun(Indent(l.depth), l.text, IsBlank);
    assert RenderLine(l)[2 * l.depth..] == l.text;
  }

  /** Every line one level deeper. */
  function Deeper(lines: seq<Line>): (r: seq<Line>)
    ensures |r| == |lines|
    ensures forall i :: 0 <= i < |lines| ==> r[i] == Line(lines[i].depth + 1, lines[i].text)
  {
    if lines == [] then [] else [Line(lines[0].depth + 1, lines[0].text)] + Deeper(lines[1..])
  }

  const FOUND_CLIENT: string := "@found \"Client\", ->"

  /** `@note "<text>"` */
  function Note(text: string): string {
    "@note \"" + text + "\""
  }

  /** `@message "<caption>", "<target>", ->` */
  function Message(caption: string, target: string): string {
    "@message \"" + caption + "\", \"" + target + "\", ->"
  }

  /** `@reply "<caption>", "<target>"` */
  function Reply(caption: string, target: string): string {
    "@reply \"" + caption + "\", \"" + target + "\""
  }

  /** A call into another participant: the `@message` at the caller's depth,
      then a note and the service's empty reply one level deeper. */
  function CallBlock(depth: nat, caption: string, target: string, note: string, service: string): seq<Line> {
    [Line(depth, Message(caption, target)), Line(depth + 1, Note(note)), Line(depth + 1, Reply("", service))]
  }

  /** The text of a call block, line by line as renderDbInteraction
      concatenates it. */
  lemma {:induction false} CallBlockText(depth: nat, caption: string, target: string, note: string, service: string)
    ensures Layout(CallBlock(depth, caption, target, note, service))
         == Indent(depth) + Message(caption, target) + EOL
          + Indent(depth + 1) + Note(note) + EOL
          + Indent(depth + 1) + Reply("", service) + EOL
  {
    var lines := CallBlock(depth, caption, target, note, service);
    var third := Indent(depth + 1) + Reply("", service) + EOL;
    assert Layout(lines[2..]) == third by {
      assert lines[2..][1..] == [];
    }
    var second := Indent(depth + 1) + Note(note) + EOL;
    assert Layout(lines[1..]) == second + third by {
      assert lines[1..][1..] == lines[2..];
    }
  }

  /** The block renderDbInteraction returns, once render puts the indent
      before it and a line feed after it, is the laid-out call block. */
  lemma {:induction false} CallBlockAfterIndent(depth: nat, caption: string, target: string, note: string, service: string,
                                                markup: string)
    requires markup == Message(caption, target) + EOL + Indent(depth + 1) + Note(note) + EOL
                       + Indent(depth + 1) + Reply("", service)
    ensures Indent(depth) + markup + EOL == Layout(CallBlock(depth, caption, target, note, service))
  {
    CallBlockText(depth, caption, target, note, service);
    var i0, m, i1, n, r := Indent(depth), Message(caption, target), Indent(depth + 1), Note(note), Reply("", service);
    PrefixedChain(i0, m, EOL, i1, n, i1, r, markup);
  }

  /** Putting a prefix before a chain of concatenations is concatenating
      it first. */
  lemma {:induction false} PrefixedChain(p: string, a: string, e: string, b: string, c: string, d: string, f: string, chain: string)
    requires chain == a + e + b + c + e + d + f
    ensures p + chain + e == p + a + e + b + c + e + d + f + e
  {
    Assoc(p, a + e + b + c + e + d, f);
    Assoc(p, a + e + b + c + e, d);
    Assoc(p, a + e + b + c, e);
    Assoc(p, a + e + b, c);
    Assoc(p, a + e, b);
    Assoc(p, a, e);
  }

  lemma Assoc(a: string, b: string, c: string)
    ensures a + (b + c) == a + b + c
  {
  }

  /** The text of a script of one line. */
  lemma {:induction false} OneLineText(l: Line)
    ensures Layout([l]) == Indent(l.depth) + l.text + EOL
  {
    assert [l][1..] == [];
  }

  /** The text of a script of two lines. */
  lemma {:induction false} TwoLines(a: Line, b: Line)
    ensures Layout([a, b]) == Indent(a.depth) + a.text + EOL + (Indent(b.depth) + b.text + EOL)
  {
    assert [a, b][1..] == [b];
    OneLineText(b);
  }

  /** Deepening a concatenation deepens each part. */
  lemma {:induction false} DeeperAppend(a: seq<Line>, b: seq<Line>)
    ensures Deeper(a + b) == Deeper(a) + Deeper(b)
  {
    assert forall i :: 0 <= i < |a| ==> (a + b)[i] == a[i];
    assert forall i :: |a| <= i < |a + b| ==> (a + b)[i] == b[i - |a|];
  }

  /** A call block drawn one level deeper is the same block deepened. */
  lemma {:induction false} CallBlockDeeper(depth: nat, caption: string, target: string, note: string, service: string)
    ensures CallBlock(depth + 1, caption, target, note, service) == Deeper(CallBlock(depth, caption, target, note, service))
  {
    var block := CallBlock(depth, caption, target, note, service);
    assert Deeper(block)[0] == Line(depth + 1, block[0].text);
  }

  /** A single line drawn one level deeper is that line deepened. */
  lemma {:induction false} OneLineDeeper(depth: nat, text: string)
    ensures [Line(depth + 1, text)] == Deeper([Line(depth, text)])
  {
  }

  /** Deepening a script whose first line is split off. */
  lemma {:induction false} DeeperCons(line: Line, lines: seq<Line>, deeperLine: Line, deeperLines: seq<Line>)
    requires deeperLine == Line(line.depth + 1, line.text) && deeperLines == Deeper(lines)
    ensures [deeperLine] + deeperLines == Deeper([line] + lines)
  {
    assert ([line] + lines)[1..] == lines;
  }
}
