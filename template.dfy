/** The page around the diagram: formatting the request's start time
    (formatMicrotime) and filling the HTML template's four placeholders
    (the preg_replace at the end of every render). */
module Template {
  import opened Text
  import opened Regex

  /** `\d\d:\d\d:\d\d` matches at index i of s. */
  predicate ClockAt(s: string, i: nat) {
    i + 8 <= |s| && IsDigit(s[i]) && IsDigit(s[i + 1]) && s[i + 2] == ':'
    && IsDigit(s[i + 3]) && IsDigit(s[i + 4]) && s[i + 5] == ':'
    && IsDigit(s[i + 6]) && IsDigit(s[i + 7])
  }

  /** preg_replace('/(\d\d:\d\d:\d\d)/', '${1}.' . fraction, s): every
      clock time, found left to right without overlap, is followed by a dot
      and the fraction. */
  function SpliceFraction(s: string, fraction: string): string
    decreases |s|
  {
    if |s| < 8 then s
    else if ClockAt(s, 0) then s[..8] + "." + fraction + SpliceFraction(s[8..], fraction)
    else [s[0]] + SpliceFraction(s[1..], fraction)
  }

  /** Text without a clock time is left as it is. */
  lemma {:induction false} SpliceWithoutClock(s: string, fraction: string)
    requires forall i: nat :: !ClockAt(s, i)
    ensures SpliceFraction(s, fraction) == s
  {
    if |s| >= 8 {
      assert !ClockAt(s, 0);
      forall i: nat ensures !ClockAt(s[1..], i) {
        assert !ClockAt(s, i + 1);
      }
      SpliceWithoutClock(s[1..], fraction);
    }
  }

  /** The shape of date('r'), "Thu, 02 Jul 2015 05:28:16 +0000": colon-free
      text, one clock time, colon-free text. The fraction lands right after
      the seconds and nowhere else. */
  lemma {:induction false} SpliceIntoDate(prefix: string, clock: string, zone: string, fraction: string)
    requires ':' !in prefix && ':' !in zone
    requires |clock| == 8 && ClockAt(clock, 0)
    ensures SpliceFraction(prefix + clock + zone, fraction) == prefix + clock + "." + fraction + zone
  {
    var s := prefix + clock + zone;
    if prefix == [] {
      assert s == clock + zone;
      assert ClockAt(s, 0);
      assert s[..8] == clock && s[8..] == zone;
      SpliceWithoutClock(zone, fraction);
    } else {
      assert s[2] != ':' by {
        if |prefix| > 2 {
          assert s[2] == prefix[2];
        } else {
          assert s[2] == clock[2 - |prefix|];
        }
      }
      assert s[1..] == prefix[1..] + clock + zone;
      SpliceIntoDate(prefix[1..], clock, zone, fraction);
      assert [s[0]] + (prefix[1..] + clock + "." + fraction + zone) == prefix + clock + "." + fraction + zone;
    }
  }

  /** formatMicrotime($microtime): date('r') of the whole seconds, with the
      text after the first '.' spliced in after the clock time. PHP reads a
      missing fraction as null, that is "". date('r') depends on the
      calendar and time zone and is a parameter. */
  function FormatMicrotime(microtime: string, dateR: string -> string): string {
    var parts := Explode(microtime, '.');
    SpliceFraction(dateR(parts[0]), if |parts| > 1 then parts[1] else "")
  }

  /** "1435814896.1234" with date('r') giving "Thu, 02 Jul 2015 05:28:16
      +0000" becomes "Thu, 02 Jul 2015 05:28:16.1234 +0000". */
  lemma {:induction false} FormatMicrotimeOfDate(seconds: string, fraction: string, dateR: string -> string,
                                                prefix: string, clock: string, zone: string)
    requires '.' !in seconds && '.' !in fraction
    requires dateR(seconds) == prefix + clock + zone
    requires ':' !in prefix && ':' !in zone && |clock| == 8 && ClockAt(clock, 0)
    ensures FormatMicrotime(seconds + "." + fraction, dateR) == prefix + clock + "." + fraction + zone
  {
    ExplodeAtFirst(seconds, fraction, '.');
    ExplodeWithoutSeparator(fraction, '.');
    assert seconds + ['.'] + fraction == seconds + "." + fraction;
    SpliceIntoDate(prefix, clock, zone, fraction);
  }

  /** A time without a fraction still gets the dot: "05:28:16.". */
  lemma {:induction false} FormatWholeSeconds(seconds: string, dateR: string -> string,
                                             prefix: string, clock: string, zone: string)
    requires '.' !in seconds
    requires dateR(seconds) == prefix + clock + zone
    requires ':' !in prefix && ':' !in zone && |clock| == 8 && ClockAt(clock, 0)
    ensures FormatMicrotime(seconds, dateR) == prefix + clock + "." + zone
  {
    ExplodeWithoutSeparator(seconds, '.');
    SpliceIntoDate(prefix, clock, zone, "");
  }

  const TRACE_TOKEN: string := "{{traceToken}}"
  const INIT_MESSAGE: string := "{{initMessage}}"
  const SEQUENCE_MARKUP: string := "{{sequenceMarkup}}"
  const RAW_LOGS: string := "{{rawLogs}}"

  /** The template with each placeholder pattern replaced in turn by its
      value: preg_replace with arrays of patterns and replacements applies
      the second pattern to the result of the first, and so on. */
  function FillTemplate(template: string, token: string, initMessage: string, markup: string, rawLogs: string): string {
    var t1 := ReplaceAll(template, TRACE_TOKEN, token);
    var t2 := ReplaceAll(t1, INIT_MESSAGE, initMessage);
    var t3 := ReplaceAll(t2, SEQUENCE_MARKUP, markup);
    ReplaceAll(t3, RAW_LOGS, rawLogs)
  }

  predicate IsSlot(p: string) {
    p == TRACE_TOKEN || p == INIT_MESSAGE || p == SEQUENCE_MARKUP || p == RAW_LOGS
  }

  /** Text that cannot take part in a placeholder occurrence, whatever
      surrounds it: no "{{" inside, and no '{' at its end. */
  predicate Inert(s: string) {
    (forall i :: 0 <= i < |s| - 1 ==> !(s[i] == '{' && s[i + 1] == '{'))
    && (s == [] || s[|s| - 1] != '{')
  }

  function Concat(pieces: seq<string>): string {
    if pieces == [] then "" else pieces[0] + Concat(pieces[1..])
  }

  /** The value a piece of the template stands for. */
  function SlotValue(p: string, token: string, initMessage: string, markup: string, rawLogs: string): string {
    if p == TRACE_TOKEN then token
    else if p == INIT_MESSAGE then initMessage
    else if p == SEQUENCE_MARKUP then markup
    else if p == RAW_LOGS then rawLogs
    else p
  }

  /** The pieces of a template with each placeholder replaced by its value. */
  function FillPieces(pieces: seq<string>, token: string, initMessage: string, markup: string, rawLogs: string): (r: seq<string>)
    ensures |r| == |pieces|
    ensures forall i :: 0 <= i < |pieces| ==> r[i] == SlotValue(pieces[i], token, initMessage, markup, rawLogs)
  {
    if pieces == [] then []
    else [SlotValue(pieces[0], token, initMessage, markup, rawLogs)] + FillPieces(pieces[1..], token, initMessage, markup, rawLogs)
  }

  /** A template cut into placeholders and text that cannot form one is
      filled piece by piece: every placeholder, wherever and however often
      it occurs, becomes its value and the text around it is kept. Values
      substituted before the last pattern must themselves not form a
      later placeholder. */
  lemma {:induction false} FillTemplateByPieces(pieces: seq<string>, token: string, initMessage: string, markup: string, rawLogs: string)
    requires forall i :: 0 <= i < |pieces| ==> IsSlot(pieces[i]) || Inert(pieces[i])
    requires Inert(token) && Inert(initMessage) && Inert(markup)
    ensures FillTemplate(Concat(pieces), token, initMessage, markup, rawLogs)
         == Concat(FillPieces(pieces, token, initMessage, markup, rawLogs))
  {
    var p1 := Substitute(pieces, TRACE_TOKEN, token);
    var p2 := Substitute(p1, INIT_MESSAGE, initMessage);
    var p3 := Substitute(p2, SEQUENCE_MARKUP, markup);
    var p4 := Substitute(p3, RAW_LOGS, rawLogs);
    ReplaceInPieces(pieces, TRACE_TOKEN, token);
    ReplaceInPieces(p1, INIT_MESSAGE, initMessage);
    ReplaceInPieces(p2, SEQUENCE_MARKUP, markup);
    ReplaceInPieces(p3, RAW_LOGS, rawLogs);
    SubstitutionsFill(pieces, token, initMessage, markup, rawLogs);
  }

  function Substitute(pieces: seq<string>, pat: string, rep: string): (r: seq<string>)
    ensures |r| == |pieces|
    ensures forall i :: 0 <= i < |pieces| ==> r[i] == if pieces[i] == pat then rep else pieces[i]
  {
    if pieces == [] then [] else [if pieces[0] == pat then rep else pieces[0]] + Substitute(pieces[1..], pat, rep)
  }

  lemma {:induction false} SubstitutionsFill(pieces: seq<string>, token: string, initMessage: string, markup: string, rawLogs: string)
    requires Inert(token) && Inert(initMessage) && Inert(markup)
    ensures Substitute(Substitute(Substitute(Substitute(pieces, TRACE_TOKEN, token), INIT_MESSAGE, initMessage), SEQUENCE_MARKUP, markup), RAW_LOGS, rawLogs)
         == FillPieces(pieces, token, initMessage, markup, rawLogs)
  {
    SlotsAreNotInert();
    var p1 := Substitute(pieces, TRACE_TOKEN, token);
    var p2 := Substitute(p1, INIT_MESSAGE, initMessage);
    var p3 := Substitute(p2, SEQUENCE_MARKUP, markup);
    var p4 := Substitute(p3, RAW_LOGS, rawLogs);
    var filled := FillPieces(pieces, token, initMessage, markup, rawLogs);
    forall i | 0 <= i < |pieces| ensures p4[i] == filled[i] {
      SlotsDiffer();
    }
  }

  lemma SlotsDiffer()
    ensures TRACE_TOKEN != INIT_MESSAGE && TRACE_TOKEN != SEQUENCE_MARKUP && TRACE_TOKEN != RAW_LOGS
    ensures INIT_MESSAGE != SEQUENCE_MARKUP && INIT_MESSAGE != RAW_LOGS && SEQUENCE_MARKUP != RAW_LOGS
  {
    assert TRACE_TOKEN[2] == 't' && INIT_MESSAGE[2] == 'i' && SEQUENCE_MARKUP[2] == 's' && RAW_LOGS[2] == 'r';
  }

  lemma SlotsAreNotInert()
    ensures !Inert(TRACE_TOKEN) && !Inert(INIT_MESSAGE) && !Inert(SEQUENCE_MARKUP) && !Inert(RAW_LOGS)
  {
    assert TRACE_TOKEN[0] == '{' && TRACE_TOKEN[1] == '{';
    assert INIT_MESSAGE[0] == '{' && INIT_MESSAGE[1] == '{';
    assert SEQUENCE_MARKUP[0] == '{' && SEQUENCE_MARKUP[1] == '{';
    assert RAW_LOGS[0] == '{' && RAW_LOGS[1] == '{';
  }

  /** One pass of the substitution over a template made of placeholders and
      inert text. */
  lemma {:induction false} ReplaceInPieces(pieces: seq<string>, pat: string, rep: string)
    requires IsSlot(pat)
    requires forall i :: 0 <= i < |pieces| ==> IsSlot(pieces[i]) || Inert(pieces[i])
    ensures ReplaceAll(Concat(pieces), pat, rep) == Concat(Substitute(pieces, pat, rep))
  {
    if pieces != [] {
      var p := pieces[0];
      var rest := Concat(pieces[1..]);
      ReplaceInPieces(pieces[1..], pat, rep);
      SlotShape(pat);
      if p == pat {
        ReplaceAtSlot(pat, rest, rep);
      } else if IsSlot(p) {
        SlotShape(p);
        ThirdCharDiffers(p, pat);
        SkipOtherSlot(p, rest, pat, rep);
      } else {
        SkipInert(p, rest, pat, rep);
      }
    } else {
      assert ReplaceAll("", pat, rep) == "";
    }
  }

  lemma {:induction false} ReplaceAtSlot(pat: string, rest: string, rep: string)
    requires IsSlot(pat)
    ensures ReplaceAll(pat + rest, pat, rep) == rep + ReplaceAll(rest, pat, rep)
  {
    assert (pat + rest)[..|pat|] == pat;
    assert (pat + rest)[|pat|..] == rest;
  }

  /** Text starting like a placeholder. */
  predicate OpensWithBraces(p: string) {
    |p| >= 3 && p[0] == '{' && p[1] == '{'
  }

  /** A placeholder is not the start of a different placeholder: the four
      differ in their third character, and after the opening "{" no "{{"
      follows. */
  lemma {:induction false} SkipOtherSlot(p: string, rest: string, pat: string, rep: string)
    requires OpensWithBraces(p) && Inert(p[1..]) && OpensWithBraces(pat) && p[2] != pat[2]
    ensures ReplaceAll(p + rest, pat, rep) == p + ReplaceAll(rest, pat, rep)
  {
    var s := p + rest;
    if |s| < |pat| {
      assert ReplaceAll(rest, pat, rep) == rest;
    } else {
      assert s[1..] == p[1..] + rest;
      assert s[2] == p[2];
      KeepFirst(s, pat, rep);
      SkipInert(p[1..], rest, pat, rep);
      RejoinFirst(p, ReplaceAll(rest, pat, rep));
    }
  }

  /** Where the pattern does not start, the first character is kept. */
  lemma {:induction false} KeepFirst(s: string, pat: string, rep: string)
    requires |pat| > 2 && |s| >= |pat| && s[2] != pat[2]
    ensures ReplaceAll(s, pat, rep) == [s[0]] + ReplaceAll(s[1..], pat, rep)
  {
    assert s[..|pat|][2] == s[2];
  }

  lemma {:induction false} RejoinFirst(p: string, x: string)
    requires p != []
    ensures [p[0]] + (p[1..] + x) == p + x
  {
    assert p == [p[0]] + p[1..];
  }

  lemma SlotShape(p: string)
    requires IsSlot(p)
    ensures OpensWithBraces(p) && Inert(p[1..])
  {
    assert forall i :: 2 <= i < |p| ==> p[i] != '{';
  }

  lemma ThirdCharDiffers(p: string, q: string)
    requires IsSlot(p) && IsSlot(q) && p != q
    ensures p[2] != q[2]
  {
  }

  lemma {:induction false} SkipInert(a: string, rest: string, pat: string, rep: string)
    requires OpensWithBraces(pat) && Inert(a)
    ensures ReplaceAll(a + rest, pat, rep) == a + ReplaceAll(rest, pat, rep)
    decreases |a|
  {
    var s := a + rest;
    if a == [] {
      assert s == rest;
    } else if |s| < |pat| {
      assert ReplaceAll(rest, pat, rep) == rest;
    } else {
      assert s[..|pat|] != pat by {
        if |a| >= 2 {
          assert !(a[0] == '{' && a[1] == '{');
        } else {
          assert a[0] != '{';
        }
      }
      assert s[1..] == a[1..] + rest;
      SkipInert(a[1..], rest, pat, rep);
      assert [s[0]] + (a[1..] + ReplaceAll(rest, pat, rep)) == a + ReplaceAll(rest, pat, rep);
    }
  }
}
