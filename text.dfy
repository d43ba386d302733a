/** The pieces of PHP's string library that the parsers rely on, over `string`
    read as a sequence of bytes (ASCII semantics throughout). */
module Text {

  /** PHP_EOL on the platforms the parsers run on. */
  const EOL: string := "\n"

  /** The characters PHP's trim() removes by default: " \t\n\r\0\x0B". */
  predicate IsTrimmable(c: char) {
    c == ' ' || c == '\t' || c == '\n' || c == '\r' || c == '\0' || c == '\U{B}'
  }

  /** The length of the longest prefix of `s` whose characters satisfy `p`:
      what a greedy `[class]*` consumes. */
  function Span(s: string, p: char -> bool): (n: nat)
    ensures n <= |s|
    ensures forall i :: 0 <= i < n ==> p(s[i])
    ensures n < |s| ==> !p(s[n])
  {
    if s != [] && p(s[0]) then 1 + Span(s[1..], p) else 0
  }

  /** The length of the longest suffix of `s` whose characters satisfy `p`. */
  function SpanBack(s: string, p: char -> bool): (n: nat)
    ensures n <= |s|
    ensures forall i :: |s| - n <= i < |s| ==> p(s[i])
    ensures n < |s| ==> !p(s[|s| - n - 1])
  {
    if s != [] && p(s[|s| - 1]) then 1 + SpanBack(s[..|s| - 1], p) else 0
  }

  function TrimEnd(s: string): (r: string)
    ensures |r| <= |s| && r == s[..|r|]
    ensures r == [] || !IsTrimmable(r[|r| - 1])
    ensures forall i :: |r| <= i < |s| ==> IsTrimmable(s[i])
  {
    s[..|s| - SpanBack(s, IsTrimmable)]
  }

  /** trim(s): the longest slice of `s` that neither starts nor ends with a
      trimmable character, obtained by removing only trimmable characters. */
  function Trim(s: string): (r: string)
    ensures Span(s, IsTrimmable) + |r| <= |s|
    ensures r == s[Span(s, IsTrimmable)..Span(s, IsTrimmable) + |r|]
    ensures forall i :: Span(s, IsTrimmable) + |r| <= i < |s| ==> IsTrimmable(s[i])
    ensures r == [] || (!IsTrimmable(r[0]) && !IsTrimmable(r[|r| - 1]))
  {
    var a := Span(s, IsTrimmable);
    var r := TrimEnd(s[a..]);
    assert r == s[a..a + |r|];
    r
  }

  /** substr(s, 0, n) for n >= 0. */
  function Take(s: string, n: nat): (r: string)
    ensures |r| == if |s| < n then |s| else n
    ensures r == s[..|r|]
  {
    if |s| <= n then s else s[..n]
  }

  /** substr(s, n) for n >= 0 (PHP yields the empty string past the end). */
  function Drop(s: string, n: nat): (r: string)
    ensures |r| == if |s| < n then 0 else |s| - n
    ensures r == s[|s| - |r|..]
  {
    if |s| <= n then "" else s[n..]
  }

  /** n spaces; str_repeat('  ', d) is Spaces(2 * d). */
  function Spaces(n: nat): (r: string)
    ensures |r| == n && forall i :: 0 <= i < n ==> r[i] == ' '
  {
    if n == 0 then "" else Spaces(n - 1) + " "
  }

  /** str_replace('"', "'", s). */
  function ReplaceQuotes(s: string): (r: string)
    ensures |r| == |s|
    ensures '"' !in r
    ensures forall i :: 0 <= i < |s| && s[i] != '"' ==> r[i] == s[i]
  {
    if s == [] then ""
    else [if s[0] == '"' then '\'' else s[0]] + ReplaceQuotes(s[1..])
  }

  function LowerChar(c: char): char {
    if 'A' <= c <= 'Z' then (c as int + 32) as char else c
  }

  /** strtolower(s) in the C locale. */
  function ToLower(s: string): (r: string)
    ensures |r| == |s|
    ensures forall i :: 0 <= i < |s| ==> r[i] == LowerChar(s[i])
  {
    if s == [] then "" else [LowerChar(s[0])] + ToLower(s[1..])
  }

  /** implode(sep, parts) / join(sep, parts). */
  function Join(parts: seq<string>, sep: string): string
  {
    if |parts| == 0 then ""
    else if |parts| == 1 then parts[0]
    else parts[0] + sep + Join(parts[1..], sep)
  }

  /** explode(sep, s) for a one-character separator: the pieces between
      consecutive separators, so the first piece is the text before the
      first separator (or all of `s` when it has none). */
  function Explode(s: string, sep: char): (parts: seq<string>)
    ensures |parts| >= 1
    ensures forall i :: 0 <= i < |parts| ==> sep !in parts[i]
    ensures |parts[0]| <= |s| && parts[0] == s[..|parts[0]|]
    ensures |parts[0]| < |s| ==> s[|parts[0]|] == sep
    ensures |parts| == 1 <==> sep !in s
  {
    if s == [] then [""]
    else
      var rest := Explode(s[1..], sep);
      if s[0] == sep then [""] + rest
      else [[s[0]] + rest[0]] + rest[1..]
  }

  lemma {:induction false} JoinCons(x: string, tail: seq<string>, sep: string)
    requires |tail| >= 1
    ensures Join([x] + tail, sep) == x + sep + Join(tail, sep)
  {
    assert ([x] + tail)[1..] == tail;
  }

  /** Joining the pieces of explode() with the separator gives back the input. */
  lemma {:induction false} JoinExplode(s: string, sep: char)
    ensures Join(Explode(s, sep), [sep]) == s
  {
    if s != [] {
      var rest := Explode(s[1..], sep);
      JoinExplode(s[1..], sep);
      if s[0] == sep {
        JoinCons("", rest, [sep]);
      } else if |rest| == 1 {
        assert Explode(s, sep) == [[s[0]] + rest[0]];
      } else {
        var head := [s[0]] + rest[0];
        assert Explode(s, sep) == [head] + rest[1..];
        JoinCons(head, rest[1..], [sep]);
        JoinCons(rest[0], rest[1..], [sep]);
        assert rest == [rest[0]] + rest[1..];
      }
    }
  }

  lemma {:induction false} ExplodeWithoutSeparator(s: string, sep: char)
    requires sep !in s
    ensures Explode(s, sep) == [s]
  {
    if s != [] {
      ExplodeWithoutSeparator(s[1..], sep);
      assert [s[0]] + s[1..] == s;
    }
  }

  /** Explode splits at the first separator and carries on with the rest. */
  lemma {:induction false} ExplodeAtFirst(x: string, y: string, sep: char)
    requires sep !in x
    ensures Explode(x + [sep] + y, sep) == [x] + Explode(y, sep)
  {
    if x == [] {
      assert x + [sep] + y == [sep] + y;
      assert ([sep] + y)[1..] == y;
    } else {
      var s := x + [sep] + y;
      assert s[1..] == x[1..] + [sep] + y;
      ExplodeAtFirst(x[1..], y, sep);
      assert [s[0]] + x[1..] == x;
    }
  }

  /** Exploding a join of separator-free pieces gives back the pieces. */
  lemma {:induction false} ExplodeJoin(parts: seq<string>, sep: char)
    requires |parts| >= 1
    requires forall i :: 0 <= i < |parts| ==> sep !in parts[i]
    ensures Explode(Join(parts, [sep]), sep) == parts
  {
    if |parts| == 1 {
      ExplodeWithoutSeparator(parts[0], sep);
    } else {
      assert parts == [parts[0]] + parts[1..];
      JoinCons(parts[0], parts[1..], [sep]);
      ExplodeJoin(parts[1..], sep);
      ExplodeAtFirst(parts[0], Join(parts[1..], [sep]), sep);
    }
  }

  /** `pat` occurs in `s` starting at index `i`. */
  predicate OccursAt(s: string, pat: string, i: int) {
    0 <= i && i + |pat| <= |s| && s[i..i + |pat|] == pat
  }

  /** Occurrences in a suffix are occurrences in the whole, shifted. */
  lemma {:induction false} OccursInSuffix(s: string, pat: string, p: nat, q: int)
    requires p <= |s| && q >= 0
    ensures OccursAt(s[p..], pat, q) <==> OccursAt(s, pat, p + q)
  {
    if q + |pat| <= |s| - p {
      assert s[p..][q..q + |pat|] == s[p + q..p + q + |pat|];
    }
  }

  /** Occurrences inside a prefix are occurrences in the whole. */
  lemma {:induction false} OccursInPrefix(s: string, pat: string, n: nat, q: int)
    requires n <= |s| && q + |pat| <= n
    ensures OccursAt(s[..n], pat, q) <==> OccursAt(s, pat, q)
  {
    if 0 <= q {
      assert s[..n][q..q + |pat|] == s[q..q + |pat|];
    }
  }

  /** The start of the last occurrence of `pat` in `s`, if any; what it
      promises is LastOccurrenceSome and LastOccurrenceNone. */
  function LastOccurrence(s: string, pat: string): (r: Option<nat>)
    ensures r.Some? ==> r.value + |pat| <= |s|
  {
    if |s| < |pat| then None
    else if s[|s| - |pat|..] == pat then Some(|s| - |pat|)
    else LastOccurrence(s[..|s| - 1], pat)
  }

  /** What LastOccurrence finds is an occurrence with none after it... */
  lemma {:induction false} LastOccurrenceSome(s: string, pat: string, p: nat)
    requires LastOccurrence(s, pat) == Some(p)
    ensures OccursAt(s, pat, p)
    ensures forall q :: p < q ==> !OccursAt(s, pat, q)
    decreases |s|
  {
    if s[|s| - |pat|..] != pat {
      var n := |s| - 1;
      LastOccurrenceSome(s[..n], pat, p);
      OccursInPrefix(s, pat, n, p);
      forall q | p < q ensures !OccursAt(s, pat, q) {
        if q + |pat| <= n {
          OccursInPrefix(s, pat, n, q);
        }
      }
    }
  }

  /** ...and when it finds none, there is none. */
  lemma {:induction false} LastOccurrenceNone(s: string, pat: string)
    requires LastOccurrence(s, pat) == None
    ensures forall q :: !OccursAt(s, pat, q)
    decreases |s|
  {
    if |s| >= |pat| {
      var n := |s| - 1;
      LastOccurrenceNone(s[..n], pat);
      forall q ensures !OccursAt(s, pat, q) {
        if 0 <= q && q + |pat| <= n {
          OccursInPrefix(s, pat, n, q);
        }
      }
    }
  }

  datatype Option<+T> = None | Some(value: T)

  /** preg_replace with a pattern that matches `pat` literally: every
      occurrence, scanning left to right without overlap, becomes `rep`. */
  function ReplaceAll(s: string, pat: string, rep: string): string
    requires |pat| > 0
    decreases |s|
  {
    if |s| < |pat| then s
    else if s[..|pat|] == pat then rep + ReplaceAll(s[|pat|..], pat, rep)
    else [s[0]] + ReplaceAll(s[1..], pat, rep)
  }

  /** Text without any occurrence of the pattern is left unchanged. */
  lemma {:induction false} ReplaceAllAbsent(s: string, pat: string, rep: string)
    requires |pat| > 0
    requires forall q :: !OccursAt(s, pat, q)
    ensures ReplaceAll(s, pat, rep) == s
  {
    if |s| >= |pat| {
      assert !OccursAt(s, pat, 0);
      forall q ensures !OccursAt(s[1..], pat, q) {
        if q >= 0 {
          OccursAtShift(s, pat, q);
        }
      }
      ReplaceAllAbsent(s[1..], pat, rep);
    }
  }

  lemma {:induction false} OccursAtShift(s: string, pat: string, q: int)
    requires |s| >= 1 && q >= 0
    ensures OccursAt(s[1..], pat, q) <==> OccursAt(s, pat, q + 1)
  {
    if 0 <= q && q + 1 + |pat| <= |s| {
      assert s[1..][q..q + |pat|] == s[q + 1..q + 1 + |pat|];
    }
  }

  /** The first occurrence is replaced and the scan resumes right after it. */
  lemma {:induction false} ReplaceAllAtFirst(s: string, pat: string, rep: string, k: nat)
    requires |pat| > 0
    requires OccursAt(s, pat, k)
    requires forall q :: 0 <= q < k ==> !OccursAt(s, pat, q)
    ensures ReplaceAll(s, pat, rep) == s[..k] + rep + ReplaceAll(s[k + |pat|..], pat, rep)
  {
    ReplaceAllFrom(s, pat, rep, 0, k);
    assert s[0..] == s && s[0..k] == s[..k];
  }

  /** The same, for the scan resumed at any index j up to the occurrence. */
  lemma {:induction false} ReplaceAllFrom(s: string, pat: string, rep: string, j: nat, k: nat)
    requires |pat| > 0 && j <= k
    requires OccursAt(s, pat, k)
    requires forall q :: j <= q < k ==> !OccursAt(s, pat, q)
    ensures ReplaceAll(s[j..], pat, rep) == s[j..k] + (rep + ReplaceAll(s[k + |pat|..], pat, rep))
    decreases k - j
  {
    if j == k {
      ReplaceAllHere(s, pat, rep, k);
      assert s[k..k] == [];
    } else {
      ReplaceAllStep(s, pat, rep, j);
      ReplaceAllFrom(s, pat, rep, j + 1, k);
      ConsSlice(s, j, k, rep + ReplaceAll(s[k + |pat|..], pat, rep));
    }
  }

  /** The scan at an occurrence replaces it. */
  lemma {:induction false} ReplaceAllHere(s: string, pat: string, rep: string, k: nat)
    requires |pat| > 0 && OccursAt(s, pat, k)
    ensures ReplaceAll(s[k..], pat, rep) == rep + ReplaceAll(s[k + |pat|..], pat, rep)
  {
    assert s[k..][..|pat|] == pat && s[k..][|pat|..] == s[k + |pat|..];
  }

  /** The scan at an index where the pattern does not occur keeps that
      character. */
  lemma {:induction false} ReplaceAllStep(s: string, pat: string, rep: string, j: nat)
    requires |pat| > 0 && j + |pat| <= |s| && !OccursAt(s, pat, j)
    ensures ReplaceAll(s[j..], pat, rep) == [s[j]] + ReplaceAll(s[j + 1..], pat, rep)
  {
    assert s[j..][..|pat|] == s[j..j + |pat|] && s[j..][1..] == s[j + 1..];
  }

  lemma ConsSlice<T>(s: seq<T>, j: nat, k: nat, x: seq<T>)
    requires j < k <= |s|
    ensures [s[j]] + (s[j + 1..k] + x) == s[j..k] + x
  {
    assert [s[j]] + s[j + 1..k] == s[j..k];
  }

  /** A prefix extended by the next slice is the longer prefix. */
  lemma PrefixExtends<T>(s: seq<T>, i: nat, j: nat)
    requires i <= j <= |s|
    ensures s[..j] == s[..i] + s[i..j]
  {
  }

  /** A sequence is what comes before position k, the element there, and
      what comes after. */
  lemma SplitAround<T>(s: seq<T>, k: nat)
    requires k < |s|
    ensures s == s[..k] + ([s[k]] + s[k + 1..])
  {
    assert s == s[..k] + s[k..];
    assert s[k..] == [s[k]] + s[k + 1..];
  }

  /** The prefix as long as the sequence is the sequence. */
  lemma WholePrefix<T>(s: seq<T>, n: nat)
    requires n == |s|
    ensures s[..n] == s
  {
  }

  /** What a sequence starts with stays in front when more is appended. */
  lemma StartsWith<T>(whole: seq<T>, head: seq<T>, rest: seq<T>, more: seq<T>)
    requires whole == head + rest
    ensures head <= whole + more
  {
    assert (whole + more)[..|head|] == head;
  }

  /** The last part appended is what a sequence ends with. */
  lemma EndsWith<T>(front: seq<T>, middle: seq<T>, last: seq<T>)
    ensures var s := front + (middle + last);
            |s| >= |last| && s[|s| - |last|..] == last
  {
    assert front + (middle + last) == (front + middle) + last;
  }

  /** One element more of a prefix is that element after the prefix. */
  lemma PrefixStep<T>(s: seq<T>, i: nat)
    requires i < |s|
    ensures s[..i + 1] == s[..i] + [s[i]]
  {}

  /** The front and the last element of a concatenation whose second part
      is not empty. */
  lemma InitOfAppend<T>(a: seq<T>, b: seq<T>)
    requires b != []
    ensures (a + b)[..|a + b| - 1] == a + b[..|b| - 1]
    ensures (a + b)[|a + b| - 1] == b[|b| - 1]
  {
  }

  lemma ConcatAssoc<T>(x: seq<T>, y: seq<T>, z: seq<T>)
    ensures x + (y + z) == x + y + z
  {
  }

  /** A non-empty sequence is its front followed by its last element. */
  lemma SplitLast<T>(s: seq<T>)
    requires s != []
    ensures s == s[..|s| - 1] + [s[|s| - 1]]
  {
  }

  /** A relation that holds element by element between two sequences of
      equal length still holds once each gets one more element that stand
      in it. */
  lemma SnocPointwise<A, B>(xs: seq<A>, ys: seq<B>, x: A, y: B, related: (A, B) -> bool)
    requires |xs| == |ys| && related(x, y)
    requires forall i :: 0 <= i < |xs| ==> related(xs[i], ys[i])
    ensures forall i :: 0 <= i < |xs| + 1 ==> related((xs + [x])[i], (ys + [y])[i])
  {
  }

  /** Two elements put before a sequence: the first, then the second
      followed by the sequence. */
  lemma TwoThenRest<T>(a: T, b: T, rest: seq<T>)
    ensures ([a, b] + rest)[0] == a && ([a, b] + rest)[1..] == [b] + rest
  {
    assert ([a, b] + rest)[1..] == [b] + rest;
  }

  /** Text made only of spaces is the run of that many spaces. */
  lemma AllSpaces(s: string)
    requires forall i :: 0 <= i < |s| ==> s[i] == ' '
    ensures s == Spaces(|s|)
  {
  }

  /** trim() of text that neither starts nor ends with white space, with
      one space appended, is that text. */
  lemma {:induction false} TrimTrailingSpace(s: string)
    requires s != [] && !IsTrimmable(s[0]) && !IsTrimmable(s[|s| - 1])
    ensures Trim(s + " ") == s
  {
    var t := s + " ";
    assert t[0] == s[0];
    assert Span(t, IsTrimmable) == 0;
    var r := Trim(t);
    assert t[|s| - 1] == s[|s| - 1] && t[|s|] == ' ';
    assert |r| == |s|;
    assert r == t[..|s|];
  }
}
