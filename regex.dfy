/** What the parsers' regular expressions need from PCRE, written out by hand:
    character classes, greedy runs, and the two anchoring rules that matter
    here (`$` also matches just before a final "\n"; `.` never matches "\n").
    User-supplied ignore patterns stay opaque predicates. */
module Regex {
  import opened Text

  /** \w without the /u flag, in the C locale. */
  predicate IsWordChar(c: char) {
    'a' <= c <= 'z' || 'A' <= c <= 'Z' || '0' <= c <= '9' || c == '_'
  }

  /** [\w\.] */
  predicate IsLevelChar(c: char) {
    IsWordChar(c) || c == '.'
  }

  /** \d */
  predicate IsDigit(c: char) {
    '0' <= c <= '9'
  }

  /** \s: space, tab, line feed, vertical tab, form feed, carriage return. */
  predicate IsRegexSpace(c: char) {
    c == ' ' || c == '\t' || c == '\n' || c == '\U{B}' || c == '\U{C}' || c == '\r'
  }

  /** Text that `.*` can match: no line feed. */
  predicate SingleLine(s: string) {
    forall i :: 0 <= i < |s| ==> s[i] != '\n'
  }

  lemma {:induction false} SingleLineAppend(a: string, b: string)
    requires SingleLine(a) && SingleLine(b)
    ensures SingleLine(a + b)
  {
    forall i | |a| <= i < |a + b| ensures (a + b)[i] != '\n' {
      assert (a + b)[i] == b[i - |a|];
    }
  }

  /** The run of spaces at the start of s. */
  lemma {:induction false} LeadingSpaces(s: string, gap: nat)
    requires gap == Span(s, IsBlank)
    ensures s[..gap] == Spaces(gap)
  {
    AllSpaces(s[..gap]);
  }

  /** A literal space, as in ` +`. */
  predicate IsBlank(c: char) {
    c == ' '
  }

  /** A run that stops at a character outside the class is exactly that long. */
  lemma {:induction false} SpanOfRun(a: string, b: string, p: char -> bool)
    requires forall i :: 0 <= i < |a| ==> p(a[i])
    requires b == [] || !p(b[0])
    ensures Span(a + b, p) == |a|
  {
    assert forall i :: 0 <= i < |a| ==> (a + b)[i] == a[i];
    if b != [] {
      assert (a + b)[|a|] == b[0];
    }
  }

  /** ` +` consumes exactly the spaces before the first non-space. */
  lemma {:induction false} SpanOfSpaces(gap: nat, rest: string)
    requires rest == [] || rest[0] != ' '
    ensures Span(Spaces(gap) + rest, IsBlank) == gap
  {
    SpanOfRun(Spaces(gap), rest, IsBlank);
  }

  /** The subject a pattern ending in `$` sees: PCRE's `$` (without /D)
      matches at the very end or just before one final "\n". */
  function BeforeFinalNewline(s: string): (b: string)
    ensures b == s || (s == b + "\n")
  {
    if s != [] && s[|s| - 1] == '\n' then s[..|s| - 1] else s
  }

  lemma {:induction false} BeforeFinalNewlineOf(s: string, newline: bool)
    requires s == [] || s[|s| - 1] != '\n'
    ensures BeforeFinalNewline(s + (if newline then "\n" else "")) == s
  {
    if newline {
      assert (s + "\n")[..|s|] == s;
    } else {
      assert s + "" == s;
    }
  }

  /** Some pattern of the ignore list matches the statement. */
  predicate AnyMatches(patterns: seq<string -> bool>, statement: string) {
    exists i :: 0 <= i < |patterns| && patterns[i](statement)
  }

  /** The scan over the ignore list that all three parsers run: stop at the
      first pattern that matches. */
  method ScanIgnorePatterns(patterns: seq<string -> bool>, statement: string) returns (ignore: bool)
    ensures ignore <==> AnyMatches(patterns, statement)
  {
    ignore := false;
    var i := 0;
    while i < |patterns|
      invariant 0 <= i <= |patterns|
      invariant forall j :: 0 <= j < i ==> !patterns[j](statement)
    {
      if patterns[i](statement) {
        ignore := true;
        break;
      }
      i := i + 1;
    }
  }

  /** Whether a statement is ignored does not depend on the order of the
      ignore list. */
  lemma {:induction false} IgnoreOrderIrrelevant(p: seq<string -> bool>, q: seq<string -> bool>, statement: string)
    requires multiset(p) == multiset(q)
    ensures AnyMatches(p, statement) <==> AnyMatches(q, statement)
  {
    if AnyMatches(p, statement) {
      var i :| 0 <= i < |p| && p[i](statement);
      assert p[i] in multiset(q);
      var j :| 0 <= j < |q| && q[j] == p[i];
    }
    if AnyMatches(q, statement) {
      var j :| 0 <= j < |q| && q[j](statement);
      assert q[j] in multiset(p);
      var i :| 0 <= i < |p| && p[i] == q[j];
    }
  }
}
