/** The PHP values the parsers pass around: scalars decoded from a line's
    JSON trace payload or captured by a regular expression, associative
    arrays of them, and the entries of the parsed-statement list. */
module Values {
  import opened Text

  /** A scalar as json_decode(…, true) or a regex capture yields it. A number
      carries the decimal text PHP prints for it. Nested JSON arrays and
      objects are not modelled. */
  datatype Value = Null | Bool(b: bool) | Str(s: string) | Num(text: string)

  /** An associative array from field names to scalars. */
  type Record = map<string, Value>

  /** json_decode($text, true): the decoded object, or None when it is not
      a JSON object. The decoder itself is not part of this model. */
  type JsonDecoder = string -> Option<Record>

  /** One entry of the parsed-statement list: the "no match" marker string
      kept for a line of the wrong shape, or the array built from a line. */
  datatype ParsedLine = Unmatched(text: string) | Structured(fields: Record)

  /** The string PHP makes of a scalar in a concatenation or (string) cast. */
  function AsString(v: Value): string {
    match v
    case Null => ""
    case Bool(b) => if b then "1" else ""
    case Str(s) => s
    case Num(t) => t
  }

  /** PHP truthiness: null, false, "", "0" and the number zero are falsy. */
  predicate Truthy(v: Value) {
    match v
    case Null => false
    case Bool(b) => b
    case Str(s) => s != "" && s != "0"
    case Num(t) => t != "0" && t != "-0"
  }

  /** isset($record[$key]). */
  predicate IsSet(record: Record, key: string) {
    key in record && record[key] != Null
  }

  /** $record[$key] used as a string: a missing key or null reads as "". */
  function Get(record: Record, key: string): string {
    if key in record then AsString(record[key]) else ""
  }

  /** PHP's array union `left + right`: every key of `left` keeps its value
      and the keys only `right` has are added with theirs. */
  function Union(left: Record, right: Record): (u: Record)
    ensures u.Keys == left.Keys + right.Keys
    ensures forall k :: k in left ==> u[k] == left[k]
    ensures forall k :: k in right && k !in left ==> u[k] == right[k]
  {
    right + left
  }

  predicate AllStructured(lines: seq<ParsedLine>) {
    forall i :: 0 <= i < |lines| ==> lines[i].Structured?
  }

  /** The arrays of a parsed-statement list that holds no marker. */
  function Records(lines: seq<ParsedLine>): (records: seq<Record>)
    requires AllStructured(lines)
    ensures |records| == |lines|
    ensures forall i :: 0 <= i < |lines| ==> records[i] == lines[i].fields
  {
    seq(|lines|, i requires 0 <= i < |lines| && lines[i].Structured? => lines[i].fields)
  }

  /** What a parse loop appends for one line: its entry, or nothing for a
      line that yields none (an ignored statement). */
  function Kept(entry: Option<ParsedLine>): (r: seq<ParsedLine>)
    ensures |r| <= 1
    ensures r == [] <==> entry.None?
  {
    if entry.Some? then [entry.value] else []
  }

  /** A list of records stays one when records are appended to it. */
  lemma {:induction false} AllStructuredAppend(a: seq<ParsedLine>, b: seq<ParsedLine>)
    requires AllStructured(a) && AllStructured(b)
    ensures AllStructured(a + b)
  {
    forall i | 0 <= i < |a + b| ensures (a + b)[i].Structured? {
      if i < |a| {
        assert (a + b)[i] == a[i];
      } else {
        assert (a + b)[i] == b[i - |a|];
      }
    }
  }
}
