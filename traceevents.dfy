/** A trace event: the `event` field of a parsed log line read as a tag
    `type:context:action:entity` (Io/Samk/Logging/TraceEvent.php). The PHP
    object is filled once by its constructor and never changed afterwards,
    so it is a value here and its getters are the datatype's fields. */
module TraceEvents {
  import opened Text
  import opened Values

  datatype TraceEvent = TraceEvent(
    eventType: Option<string>,
    eventContext: Option<string>,
    eventAction: Option<string>,
    eventEntity: Option<string>)

  const BOUNDARY_ENTER: string := "boundary.enter"
  const RESPONSE_SEND: string := "response.send"

  /** The record carries an `event` that PHP reads as true. */
  predicate HasEvent(record: Record) {
    "event" in record && Truthy(record["event"])
  }

  /** isset($parts[i]) ? $parts[i] : null */
  function PartAt(parts: seq<string>, i: nat): Option<string> {
    if i < |parts| then Some(parts[i]) else None
  }

  /** new TraceEvent($record): without a true `event` every field is null;
      otherwise the tag is split at every ':', the first part lower-cased
      becomes the type and the next three parts, when present, the context,
      action and entity. */
  function FromRecord(record: Record): (e: TraceEvent)
    ensures !HasEvent(record) <==> e == TraceEvent(None, None, None, None)
    ensures e.eventType.Some? ==> ':' !in e.eventType.value
    ensures e.eventType.Some? ==> forall i :: 0 <= i < |e.eventType.value| ==> !('A' <= e.eventType.value[i] <= 'Z')
  {
    if HasEvent(record) then
      var parts := Explode(AsString(record["event"]), ':');
      TraceEvent(Some(ToLower(parts[0])), PartAt(parts, 1), PartAt(parts, 2), PartAt(parts, 3))
    else
      TraceEvent(None, None, None, None)
  }

  /** A getter's null used in a concatenation: the empty string. */
  function OrEmpty(part: Option<string>): string {
    if part.Some? then part.value else ""
  }

  /** isBoundaryEntry(): the type is exactly "boundary.enter". */
  predicate IsBoundaryEntry(e: TraceEvent) {
    e.eventType == Some(BOUNDARY_ENTER)
  }

  /** isResponseSend(): the type is exactly "response.send". */
  predicate IsResponseSend(e: TraceEvent) {
    e.eventType == Some(RESPONSE_SEND)
  }

  /** An event is never both a boundary entry and a response send, and a
      record without an event is neither. */
  lemma {:induction false} ClassificationExclusive(record: Record)
    ensures !(IsBoundaryEntry(FromRecord(record)) && IsResponseSend(FromRecord(record)))
    ensures !HasEvent(record) ==> !IsBoundaryEntry(FromRecord(record)) && !IsResponseSend(FromRecord(record))
  {
    assert BOUNDARY_ENTER[0] != RESPONSE_SEND[0];
  }

  /** A tag written as colon-free parts joined by ':' is split back into
      exactly those parts: the type is the first part lower-cased, the next
      three keep their case, and parts beyond the fourth are dropped. */
  lemma {:induction false} TagParts(record: Record, parts: seq<string>)
    requires |parts| >= 1 && forall i :: 0 <= i < |parts| ==> ':' !in parts[i]
    requires "event" in record && record["event"] == Str(Join(parts, ":")) && HasEvent(record)
    ensures FromRecord(record).eventType == Some(ToLower(parts[0]))
    ensures FromRecord(record).eventContext == (if |parts| > 1 then Some(parts[1]) else None)
    ensures FromRecord(record).eventAction == (if |parts| > 2 then Some(parts[2]) else None)
    ensures FromRecord(record).eventEntity == (if |parts| > 3 then Some(parts[3]) else None)
  {
    ExplodeJoin(parts, ':');
  }

  /** Only the type is compared without regard to case: a tag whose first
      part is any capitalisation of "boundary.enter" is a boundary entry,
      and its context and action keep the case they were written in. */
  lemma {:induction false} BoundaryEntryAnyCase(record: Record, kind: string, context: string, action: string)
    requires ToLower(kind) == BOUNDARY_ENTER
    requires ':' !in context && ':' !in action
    requires "event" in record && record["event"] == Str(kind + ":" + context + ":" + action)
    ensures IsBoundaryEntry(FromRecord(record))
    ensures FromRecord(record).eventContext == Some(context)
    ensures FromRecord(record).eventAction == Some(action)
    ensures FromRecord(record).eventEntity == None
  {
    assert ':' !in kind by {
      forall i | 0 <= i < |kind| ensures kind[i] != ':' {
        assert LowerChar(kind[i]) == BOUNDARY_ENTER[i];
      }
    }
    var parts := [kind, context, action];
    assert Join(parts, ":") == kind + ":" + context + ":" + action by {
      assert Join(parts[2..], ":") == action;
      assert Join(parts[1..], ":") == context + ":" + action;
    }
    assert kind != "" && kind != "0" by {
      assert |kind| == |BOUNDARY_ENTER|;
    }
    TagParts(record, parts);
  }
}
