/** The route a request was made on, as LogTraceParser::getRouteMessage
    finds it in the first statement's message with

      %(POST|GET|PUT|DELETE|PATCH|HEAD|OPTIONS) +/[^\?]+%

    unanchored: the leftmost position where a method name, spaces, a slash
    and at least one character other than '?' follow. */
module Route {
  import opened Text
  import opened Regex

  const ROUTE_METHODS: seq<string> := ["POST", "GET", "PUT", "DELETE", "PATCH", "HEAD", "OPTIONS"]

  /** `[^\?]`: any character but '?', line breaks included. */
  predicate NotQuestionMark(c: char) {
    c != '?'
  }

  /** A match: where it starts, the method, the number of spaces and the
      path (the slash excluded). */
  datatype RouteMatch = RouteMatch(start: nat, verb: string, gap: nat, path: string)

  /** The text the match covers, `$match[0]`. */
  function RouteText(r: RouteMatch): string {
    r.verb + Spaces(r.gap) + "/" + r.path
  }

  function RouteEnd(r: RouteMatch): nat {
    r.start + |RouteText(r)|
  }

  /** The first alternative of the group that occurs at i. */
  function MethodAt(s: string, i: nat): Option<string> {
    MethodAmong(s, i, ROUTE_METHODS)
  }

  function MethodAmong(s: string, i: nat, methods: seq<string>): (r: Option<string>)
    ensures r.Some? ==> r.value in methods && OccursAt(s, r.value, i)
  {
    if methods == [] then None
    else if OccursAt(s, methods[0], i) then Some(methods[0])
    else MethodAmong(s, i, methods[1..])
  }

  /** The pattern tried at index i. */
  function RouteAt(s: string, i: nat): (r: Option<RouteMatch>)
    ensures r.Some? ==> r.value.start == i
  {
    match MethodAt(s, i)
    case None => None
    case Some(m) => RouteAfterMethod(s, i, m)
  }

  /** ` +/[^\?]+` after the method name. */
  function RouteAfterMethod(s: string, i: nat, m: string): (r: Option<RouteMatch>)
    requires OccursAt(s, m, i)
    ensures r.Some? ==> r.value.start == i
  {
    var j := i + |m|;
    var gap := Span(s[j..], IsBlank);
    if gap > 0 && j + gap < |s| && s[j + gap] == '/' then
      var p := j + gap + 1;
      var n := Span(s[p..], NotQuestionMark);
      if n > 0 then Some(RouteMatch(i, m, gap, s[p..p + n])) else None
    else None
  }

  /** preg_match scanning from index i onwards: the leftmost match. What it
      promises is FindRouteSome and FindRouteNone. */
  function FindRoute(s: string, i: nat): (r: Option<RouteMatch>)
    requires i <= |s|
    ensures r.Some? ==> i <= r.value.start
    decreases |s| - i
  {
    match RouteAt(s, i)
    case Some(r) => Some(r)
    case None => if i < |s| then FindRoute(s, i + 1) else None
  }

  /** A route found is the pattern's match at its start, and the pattern
      matches nowhere between the scan's start and there. */
  lemma {:induction false} FindRouteSome(s: string, i: nat, r: RouteMatch)
    requires i <= |s| && FindRoute(s, i) == Some(r)
    ensures i <= r.start && RouteAt(s, r.start) == Some(r)
    ensures forall k: nat :: i <= k < r.start ==> RouteAt(s, k).None?
    decreases |s| - i
  {
    if RouteAt(s, i).None? {
      FindRouteSome(s, i + 1, r);
      forall k: nat | i <= k < r.start
        ensures RouteAt(s, k).None?
      {
        if k != i {
          assert i + 1 <= k < r.start;
        }
      }
    }
  }

  /** Where the pattern matches, the scan stops there or earlier. */
  lemma {:induction false} FindRouteAtOrBefore(s: string, i: nat, k: nat)
    requires i <= k <= |s| && RouteAt(s, k).Some?
    ensures FindRoute(s, i).Some? && FindRoute(s, i).value.start <= k
    decreases |s| - i
  {
    if RouteAt(s, i).None? {
      FindRouteAtOrBefore(s, i + 1, k);
    }
  }

  /** When no route is found, the pattern matches nowhere from the scan's
      start to the end of the text. */
  lemma {:induction false} FindRouteNone(s: string, i: nat)
    requires i <= |s| && FindRoute(s, i).None?
    ensures forall k: nat :: i <= k <= |s| ==> RouteAt(s, k).None?
    decreases |s| - i
  {
    if i < |s| {
      FindRouteNone(s, i + 1);
      forall k: nat | i <= k <= |s|
        ensures RouteAt(s, k).None?
      {
        if k != i {
          assert i + 1 <= k <= |s|;
        }
      }
    }
  }

  /** getRouteMessage: the matched route, or the first 20 characters of the
      message followed by "..." when there is none. */
  function RouteMessage(message: string): string {
    match FindRoute(message, 0)
    case Some(r) => RouteText(r)
    case None => Take(message, 20) + "..."
  }

  /** A found route is the text of the message at the leftmost place where
      the pattern matches: a method name, at least one space, a slash and
      a path that runs up to the first '?' or the end of the message. */
  lemma {:induction false} RouteMessageFound(message: string, r: RouteMatch)
    requires FindRoute(message, 0) == Some(r)
    ensures r.verb in ROUTE_METHODS && r.gap > 0 && r.path != [] && '?' !in r.path
    ensures RouteEnd(r) <= |message| && message[r.start..RouteEnd(r)] == RouteMessage(message)
    ensures RouteEnd(r) == |message| || message[RouteEnd(r)] == '?'
    ensures forall k: nat :: k < r.start ==> RouteAt(message, k).None?
  {
    FindRouteSome(message, 0, r);
    var m := MethodAt(message, r.start).value;
    RouteAfterMethodSound(message, r.start, m, r);
  }

  lemma {:induction false} RouteAfterMethodSound(s: string, i: nat, m: string, r: RouteMatch)
    requires OccursAt(s, m, i) && RouteAfterMethod(s, i, m) == Some(r)
    ensures r.start == i && r.verb == m && r.gap > 0 && r.path != [] && '?' !in r.path
    ensures RouteEnd(r) <= |s| && s[i..RouteEnd(r)] == RouteText(r)
    ensures RouteEnd(r) == |s| || s[RouteEnd(r)] == '?'
  {
    var gap := Span(s[i + |m|..], IsBlank);
    var n := if i + |m| + gap < |s| then Span(s[i + |m| + gap + 1..], NotQuestionMark) else 0;
    RouteGuard(s, i, m, r, gap, n);
    RouteSpans(s, i, m, r, gap, n);
    RouteReassembled(s, r);
  }

  /** What RouteAfterMethod checked when it found a route. */
  lemma {:induction false} RouteGuard(s: string, i: nat, m: string, r: RouteMatch, gap: nat, n: nat)
    requires OccursAt(s, m, i) && RouteAfterMethod(s, i, m) == Some(r)
    requires gap == Span(s[i + |m|..], IsBlank)
    requires i + |m| + gap < |s| ==> n == Span(s[i + |m| + gap + 1..], NotQuestionMark)
    ensures gap > 0 && i + |m| + gap < |s| && s[i + |m| + gap] == '/' && n > 0
    ensures r == RouteMatch(i, m, gap, s[i + |m| + gap + 1..i + |m| + gap + 1 + n])
  {
  }

  /** What the spans found tell about the text around the match. */
  lemma {:induction false} RouteSpans(s: string, i: nat, m: string, r: RouteMatch, gap: nat, n: nat)
    requires OccursAt(s, m, i) && gap == Span(s[i + |m|..], IsBlank)
    requires i + |m| + gap < |s| && n == Span(s[i + |m| + gap + 1..], NotQuestionMark)
    requires r == RouteMatch(i, m, gap, s[i + |m| + gap + 1..i + |m| + gap + 1 + n])
    ensures OccursAt(s, r.verb, r.start) && RouteEnd(r) <= |s|
    ensures RouteEnd(r) == |s| || s[RouteEnd(r)] == '?'
    ensures '?' !in r.path
    ensures forall k :: i + |m| <= k < i + |m| + gap ==> s[k] == ' '
  {
    assert RouteEnd(r) == i + |m| + gap + 1 + n;
  }

  lemma {:induction false} RouteReassembled(s: string, r: RouteMatch)
    requires OccursAt(s, r.verb, r.start) && RouteEnd(r) <= |s|
    requires forall k :: r.start + |r.verb| <= k < r.start + |r.verb| + r.gap ==> s[k] == ' '
    requires s[r.start + |r.verb| + r.gap] == '/'
    requires r.path == s[r.start + |r.verb| + r.gap + 1..RouteEnd(r)]
    ensures s[r.start..RouteEnd(r)] == RouteText(r)
  {
    var i := r.start;
    var j := i + |r.verb|;
    var e := RouteEnd(r);
    AllSpaces(s[j..j + r.gap]);
    assert s[i..e] == s[i..j] + s[j..j + r.gap] + s[j + r.gap..j + r.gap + 1] + s[j + r.gap + 1..e];
  }

  /** A route found in a message puts a slash in it. */
  lemma {:induction false} SlashInRoute(message: string, r: RouteMatch)
    requires FindRoute(message, 0) == Some(r)
    ensures '/' in message
  {
    RouteMessageFound(message, r);
    assert RouteText(r)[|r.verb| + r.gap] == '/';
    assert message[r.start + |r.verb| + r.gap] == '/';
  }

  /** When no route occurs anywhere, the fallback is used; a message
      without a slash never has one. */
  lemma {:induction false} NoSlashNoRoute(message: string)
    requires '/' !in message
    ensures RouteMessage(message) == Take(message, 20) + "..."
  {
    match FindRoute(message, 0)
    case None =>
    case Some(r) =>
      SlashInRoute(message, r);
      assert false;
  }

  /** The route at the leftmost matching place is returned whole. */
  lemma {:induction false} RouteMessageAccepted(message: string, prefix: string, m: string, gap: nat, path: string, rest: string)
    requires message == prefix + (m + (Spaces(gap) + ("/" + (path + rest))))
    requires m in ROUTE_METHODS && gap > 0 && path != [] && '?' !in path
    requires rest == [] || rest[0] == '?'
    requires forall k: nat :: k < |prefix| ==> RouteAt(message, k).None?
    ensures RouteMessage(message) == m + Spaces(gap) + "/" + path
  {
    var i := |prefix|;
    var expected := RouteMatch(i, m, gap, path);
    RouteAtAccepted(message, prefix, m, gap, path, rest);
    FindRouteAtOrBefore(message, 0, i);
    var found := FindRoute(message, 0).value;
    FindRouteSome(message, 0, found);
    assert found.start == i by {
      if found.start < i {
        assert false;
      }
    }
    assert found == expected;
    assert RouteMessage(message) == RouteText(expected);
  }

  lemma {:induction false} RouteAtAccepted(message: string, prefix: string, m: string, gap: nat, path: string, rest: string)
    requires message == prefix + (m + (Spaces(gap) + ("/" + (path + rest))))
    requires m in ROUTE_METHODS && gap > 0 && path != [] && '?' !in path
    requires rest == [] || rest[0] == '?'
    ensures RouteAt(message, |prefix|) == Some(RouteMatch(|prefix|, m, gap, path))
  {
    var i := |prefix|;
    var p := i + |m| + gap + 1;
    RouteParts(message, prefix, m, gap, path, rest);
    MethodAtExclusive(message, i, m);
    RouteOf(message, i, m, gap, p, path);
  }

  lemma {:induction false} RouteParts(message: string, prefix: string, m: string, gap: nat, path: string, rest: string)
    requires message == prefix + (m + (Spaces(gap) + ("/" + (path + rest))))
    requires path != [] && '?' !in path
    requires rest == [] || rest[0] == '?'
    ensures OccursAt(message, m, |prefix|)
    ensures Span(message[|prefix| + |m|..], IsBlank) == gap
    ensures |prefix| + |m| + gap < |message| && message[|prefix| + |m| + gap] == '/'
    ensures Span(message[|prefix| + |m| + gap + 1..], NotQuestionMark) == |path|
    ensures |prefix| + |m| + gap + 1 + |path| <= |message|
    ensures message[|prefix| + |m| + gap + 1..|prefix| + |m| + gap + 1 + |path|] == path
  {
    var t := Spaces(gap) + ("/" + (path + rest));
    MethodThenRest(message, prefix, m, t);
    GapAndPath(t, gap, path, rest);
    PathInText(message, |prefix| + |m|, t, gap, path);
  }

  /** The method name occurs right after the prefix, and the rest of the
      text follows it. */
  lemma {:induction false} MethodThenRest(message: string, prefix: string, m: string, t: string)
    requires message == prefix + (m + t)
    ensures OccursAt(message, m, |prefix|) && message[|prefix| + |m|..] == t
  {
    var i := |prefix|;
    assert message[i..] == m + t;
    assert message[i..i + |m|] == message[i..][..|m|];
    assert message[i..][..|m|] == m;
  }

  /** Facts about a suffix of a text carried over to the text. */
  lemma {:induction false} PathInText(message: string, j: nat, t: string, gap: nat, path: string)
    requires j <= |message| && message[j..] == t
    requires Span(t, IsBlank) == gap && gap < |t| && t[gap] == '/'
    requires Span(t[gap + 1..], NotQuestionMark) == |path|
    requires gap + 1 + |path| <= |t| && t[gap + 1..gap + 1 + |path|] == path
    ensures Span(message[j..], IsBlank) == gap
    ensures j + gap < |message| && message[j + gap] == '/'
    ensures Span(message[j + gap + 1..], NotQuestionMark) == |path|
    ensures j + gap + 1 + |path| <= |message|
    ensures message[j + gap + 1..j + gap + 1 + |path|] == path
  {
    assert message[j + gap + 1..] == t[gap + 1..];
    assert message[j + gap + 1..j + gap + 1 + |path|] == t[gap + 1..gap + 1 + |path|];
  }

  /** The text after the method name, read as ` +/[^\?]+`. */
  lemma {:induction false} GapAndPath(t: string, gap: nat, path: string, rest: string)
    requires t == Spaces(gap) + ("/" + (path + rest))
    requires '?' !in path
    requires rest == [] || rest[0] == '?'
    ensures Span(t, IsBlank) == gap && gap < |t| && t[gap] == '/'
    ensures t[gap + 1..] == path + rest
    ensures Span(t[gap + 1..], NotQuestionMark) == |path|
    ensures gap + 1 + |path| <= |t| && t[gap + 1..gap + 1 + |path|] == path
  {
    SpanOfSpaces(gap, "/" + (path + rest));
    assert t[gap..] == "/" + (path + rest);
    SpanOfRun(path, rest, NotQuestionMark);
    assert (path + rest)[..|path|] == path;
  }

  /** The converse of RouteGuard. */
  lemma {:induction false} RouteOf(s: string, i: nat, m: string, gap: nat, p: nat, path: string)
    requires OccursAt(s, m, i) && MethodAt(s, i) == Some(m)
    requires gap == Span(s[i + |m|..], IsBlank) && gap > 0
    requires i + |m| + gap < |s| && s[i + |m| + gap] == '/'
    requires p == i + |m| + gap + 1 && path != [] && |path| == Span(s[p..], NotQuestionMark)
    requires p + |path| <= |s| && s[p..p + |path|] == path
    ensures RouteAt(s, i) == RouteAfterMethod(s, i, m) == Some(RouteMatch(i, m, gap, path))
  {
  }

  /** No method name is a prefix of another, so at most one of them occurs
      at any position and the alternation's order does not matter. */
  lemma {:induction false} MethodAtExclusive(s: string, i: nat, m: string)
    requires m in ROUTE_METHODS && OccursAt(s, m, i)
    ensures MethodAt(s, i) == Some(m)
  {
    forall other | other in ROUTE_METHODS && other != m
      ensures !OccursAt(s, other, i)
    {
      FirstTwoLettersDiffer(m, other);
      FirstTwoLetters(s, m, i);
      FirstTwoLetters(s, other, i);
    }
    MethodAmongFinds(s, i, ROUTE_METHODS, m);
  }

  lemma {:induction false} MethodAmongFinds(s: string, i: nat, methods: seq<string>, m: string)
    requires m in methods && OccursAt(s, m, i)
    requires forall other :: other in methods && other != m ==> !OccursAt(s, other, i)
    ensures MethodAmong(s, i, methods) == Some(m)
  {
    if methods[0] != m {
      assert m in methods[1..];
      MethodAmongFinds(s, i, methods[1..], m);
    }
  }

  lemma FirstTwoLetters(s: string, pat: string, i: nat)
    requires |pat| >= 2
    ensures OccursAt(s, pat, i) ==> s[i] == pat[0] && s[i + 1] == pat[1]
  {
    if OccursAt(s, pat, i) {
      assert s[i..i + |pat|][0] == s[i] && s[i..i + |pat|][1] == s[i + 1];
    }
  }

  /** POST, GET, PUT, DELETE, PATCH, HEAD and OPTIONS already differ in
      their first two letters. */
  lemma FirstTwoLettersDiffer(a: string, b: string)
    requires a in ROUTE_METHODS && b in ROUTE_METHODS && a != b
    ensures |a| >= 2 && |b| >= 2 && (a[0] != b[0] || a[1] != b[1])
  {
  }
}
