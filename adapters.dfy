/**
 * The two generic adapters every container binding goes through: open a
 * writer with a length hint, emit the traversal in order, returning on the
 * first failure, then close the writer.  Each method is proved to perform
 * exactly its protocol trace; the lemmas below read off what that means for
 * success, for a failing open, for a failing element or entry, and for a
 * failing close.
 */
module Adapters {
  import opened Wrappers
  import opened Events
  import opened Destinations

  /** The loop of the sequence adapter: each element is written in order and the first
      error returns at once. */
  method WriteElements<T, K, V, E>(dest: Destination<T, K, V, E>, elements: seq<T>)
      returns (r: Result<(), E>, ghost accepted: nat)
    modifies dest
    ensures dest.Attempted(ElementEvents(elements), accepted, r)
  {
    ghost var evs: seq<Event<T, K, V>> := ElementEvents(elements);
    ghost var start, log0 := dest.calls, dest.log;
    r, accepted := Ok(()), 0;
    for i := 0 to |elements|
      invariant dest.calls == start + i
      invariant dest.log == log0 + evs[..i]
      invariant NoFaultIn(dest.faults, start, i)
    {
      ElementEventAt<T, K, V>(elements, i);
      r := dest.WriteElement(elements[i]);
      accepted := i;
      if r.Err? {
        return;
      }
      assert evs[..i] + [evs[i]] == evs[..i + 1];
    }
    r, accepted := Ok(()), |elements|;
    assert evs[..|elements|] == evs;
  }

  /** Sequence adapter: `serialize_seq(hint)?`, then the element loop, then `end()`.
      The ghost `accepted` counts the calls the destination accepted. */
  method SerializeSeq<T, K, V, E>(dest: Destination<T, K, V, E>, hint: Option<nat>, elements: seq<T>)
      returns (r: Result<(), E>, ghost accepted: nat)
    modifies dest
    ensures dest.Attempted(SeqTrace(hint, elements), accepted, r)
  {
    ghost var open: seq<Event<T, K, V>>, body := [BeginSeq(hint)], ElementEvents(elements);
    ghost var head := open + body;
    assert SeqTrace(hint, elements) == head + [End];
    ghost var c0, log0 := dest.calls, dest.log;
    r := dest.OpenSeq(hint);
    accepted := if r.Ok? then 1 else 0;
    AnswerIsAttempt(dest.faults, c0, log0, BeginSeq(hint), r, dest.calls, dest.log);
    if r.Err? {
      AttemptStops(dest.faults, c0, log0, open, accepted, r, dest.calls, dest.log, body);
      AttemptStops(dest.faults, c0, log0, head, accepted, r, dest.calls, dest.log, [End]);
      return;
    }
    ghost var c1, log1 := dest.calls, dest.log;
    ghost var written;
    r, written := WriteElements(dest, elements);
    AttemptThen(dest.faults, c0, log0, open, accepted, Ok(()), c1, log1, body, written, r, dest.calls, dest.log);
    accepted := accepted + written;
    if r.Err? {
      AttemptStops(dest.faults, c0, log0, head, accepted, r, dest.calls, dest.log, [End]);
      return;
    }
    ghost var c2, log2 := dest.calls, dest.log;
    r := dest.Close();
    AnswerIsAttempt(dest.faults, c2, log2, End, r, dest.calls, dest.log);
    AttemptThen(dest.faults, c0, log0, head, accepted, Ok(()), c2, log2,
                [End], if r.Ok? then 1 else 0, r, dest.calls, dest.log);
    accepted := accepted + if r.Ok? then 1 else 0;
  }

  /** The loop of the map adapter: each entry is written in order and the first error
      returns at once. */
  method WriteEntries<T, K, V, E>(dest: Destination<T, K, V, E>, entries: seq<(K, V)>)
      returns (r: Result<(), E>, ghost accepted: nat)
    modifies dest
    ensures dest.Attempted(EntryEvents(entries), accepted, r)
  {
    ghost var evs: seq<Event<T, K, V>> := EntryEvents(entries);
    ghost var start, log0 := dest.calls, dest.log;
    r, accepted := Ok(()), 0;
    for i := 0 to |entries|
      invariant dest.calls == start + i
      invariant dest.log == log0 + evs[..i]
      invariant NoFaultIn(dest.faults, start, i)
    {
      EntryEventAt<T, K, V>(entries, i);
      r := dest.WriteEntry(entries[i].0, entries[i].1);
      accepted := i;
      if r.Err? {
        return;
      }
      assert evs[..i] + [evs[i]] == evs[..i + 1];
    }
    r, accepted := Ok(()), |entries|;
    assert evs[..|entries|] == evs;
  }

  /** Map adapter: `serialize_map(hint)?`, then the entry loop, then `end()`.
      The ghost `accepted` counts the calls the destination accepted. */
  method SerializeMap<T, K, V, E>(dest: Destination<T, K, V, E>, hint: Option<nat>, entries: seq<(K, V)>)
      returns (r: Result<(), E>, ghost accepted: nat)
    modifies dest
    ensures dest.Attempted(MapTrace(hint, entries), accepted, r)
  {
    ghost var open: seq<Event<T, K, V>>, body := [BeginMap(hint)], EntryEvents(entries);
    ghost var head := open + body;
    assert MapTrace(hint, entries) == head + [End];
    ghost var c0, log0 := dest.calls, dest.log;
    r := dest.OpenMap(hint);
    accepted := if r.Ok? then 1 else 0;
    AnswerIsAttempt(dest.faults, c0, log0, BeginMap(hint), r, dest.calls, dest.log);
    if r.Err? {
      AttemptStops(dest.faults, c0, log0, open, accepted, r, dest.calls, dest.log, body);
      AttemptStops(dest.faults, c0, log0, head, accepted, r, dest.calls, dest.log, [End]);
      return;
    }
    ghost var c1, log1 := dest.calls, dest.log;
    ghost var written;
    r, written := WriteEntries(dest, entries);
    AttemptThen(dest.faults, c0, log0, open, accepted, Ok(()), c1, log1, body, written, r, dest.calls, dest.log);
    accepted := accepted + written;
    if r.Err? {
      AttemptStops(dest.faults, c0, log0, head, accepted, r, dest.calls, dest.log, [End]);
      return;
    }
    ghost var c2, log2 := dest.calls, dest.log;
    r := dest.Close();
    AnswerIsAttempt(dest.faults, c2, log2, End, r, dest.calls, dest.log);
    AttemptThen(dest.faults, c0, log0, head, accepted, Ok(()), c2, log2,
                [End], if r.Ok? then 1 else 0, r, dest.calls, dest.log);
    accepted := accepted + if r.Ok? then 1 else 0;
  }

  // Sequence protocol outcomes.

  /** With no failure scheduled, the destination receives the open with the hint, every
      element once in traversal order, and one close; a reader recovers hint and elements. */
  lemma SeqSucceeds<T, K, V, E>(faults: map<nat, E>, start: nat, hint: Option<nat>, elements: seq<T>)
    requires NoFaultIn(faults, start, |elements| + 2)
    ensures var o := Drive(faults, start, SeqTrace<T, K, V>(hint, elements));
      o.result == Ok(()) && o.attempts == |elements| + 2 &&
      o.emitted == [BeginSeq(hint)] + ElementEvents(elements) + [End] &&
      DecodeSeq(o.emitted) == Some((hint, elements))
  {
    DriveClear(faults, start, SeqTrace<T, K, V>(hint, elements));
    DecodeSeqTrace<T, K, V>(hint, elements);
  }

  /** A failing open returns its error and nothing reaches the destination. */
  lemma SeqOpenFails<T, K, V, E>(faults: map<nat, E>, start: nat, hint: Option<nat>, elements: seq<T>)
    requires start in faults
    ensures Drive(faults, start, SeqTrace<T, K, V>(hint, elements)) == Run([], Err(faults[start]), 1)
  {
    DriveStopsAt(faults, start, SeqTrace<T, K, V>(hint, elements), 0);
  }

  /** If writing element k is the first failing call, its error is returned unchanged, the
      elements before k are the only ones emitted, nothing after k is attempted and the
      writer is never closed. */
  lemma SeqElementFails<T, K, V, E>(faults: map<nat, E>, start: nat, hint: Option<nat>, elements: seq<T>, k: nat)
    requires k < |elements| && NoFaultIn(faults, start, k + 1) && start + 1 + k in faults
    ensures var o := Drive(faults, start, SeqTrace<T, K, V>(hint, elements));
      o.result == Err(faults[start + 1 + k]) && o.attempts == k + 2 &&
      o.emitted == [BeginSeq(hint)] + ElementEvents(elements[..k])
  {
    var t := SeqTrace<T, K, V>(hint, elements);
    var evs := ElementEvents<T, K, V>(elements);
    DriveStopsAt(faults, start, t, 1 + k);
    ElementEventsTake<T, K, V>(elements, k);
    assert t[..1 + k] == [BeginSeq(hint)] + evs[..k];
  }

  /** If only the close fails, every element was emitted and the close's error is returned. */
  lemma SeqCloseFails<T, K, V, E>(faults: map<nat, E>, start: nat, hint: Option<nat>, elements: seq<T>)
    requires NoFaultIn(faults, start, |elements| + 1) && start + 1 + |elements| in faults
    ensures var o := Drive(faults, start, SeqTrace<T, K, V>(hint, elements));
      o.result == Err(faults[start + 1 + |elements|]) && o.attempts == |elements| + 2 &&
      o.emitted == [BeginSeq(hint)] + ElementEvents(elements)
  {
    var t := SeqTrace<T, K, V>(hint, elements);
    DriveStopsAt(faults, start, t, 1 + |elements|);
    assert t[..1 + |elements|] == [BeginSeq(hint)] + ElementEvents(elements);
  }

  /** A failed sequence never reaches the destination complete: no close is emitted and a
      reader finds no sequence in what was accepted. */
  lemma SeqFailureIncomplete<T, K, V, E>(faults: map<nat, E>, start: nat, hint: Option<nat>, elements: seq<T>)
    requires Drive(faults, start, SeqTrace<T, K, V>(hint, elements)).result.Err?
    ensures var o := Drive(faults, start, SeqTrace<T, K, V>(hint, elements));
      (forall i :: 0 <= i < |o.emitted| ==> !o.emitted[i].End?) && DecodeSeq(o.emitted) == None
  {
    var t := SeqTrace<T, K, V>(hint, elements);
    var o := Drive(faults, start, t);
    forall i | 0 <= i < |o.emitted|
      ensures !o.emitted[i].End?
    {
      assert o.emitted[i] == t[i];
      if i > 0 { SeqTraceAt<T, K, V>(hint, elements, i - 1); }
    }
  }

  /** With no failure scheduled, an empty traversal with hint 0 succeeds in two calls:
      exactly the open with hint 0 and the close. */
  lemma SeqEmpty<T, K, V, E>(faults: map<nat, E>, start: nat)
    requires NoFaultIn(faults, start, 2)
    ensures var o := Drive(faults, start, SeqTrace<T, K, V>(Some(0), []));
      o.result == Ok(()) && o.attempts == 2 && o.emitted == [BeginSeq(Some(0)), End]
  {
    SeqSucceeds<T, K, V, E>(faults, start, Some(0), []);
  }

  // Map protocol outcomes.

  /** With no failure scheduled, the destination receives the open with the hint, every
      entry once in traversal order, and one close; a reader recovers hint and entries. */
  lemma MapSucceeds<T, K, V, E>(faults: map<nat, E>, start: nat, hint: Option<nat>, entries: seq<(K, V)>)
    requires NoFaultIn(faults, start, |entries| + 2)
    ensures var o := Drive(faults, start, MapTrace<T, K, V>(hint, entries));
      o.result == Ok(()) && o.attempts == |entries| + 2 &&
      o.emitted == [BeginMap(hint)] + EntryEvents(entries) + [End] &&
      DecodeMap(o.emitted) == Some((hint, entries))
  {
    DriveClear(faults, start, MapTrace<T, K, V>(hint, entries));
    DecodeMapTrace<T, K, V>(hint, entries);
  }

  /** A failing open returns its error and nothing reaches the destination. */
  lemma MapOpenFails<T, K, V, E>(faults: map<nat, E>, start: nat, hint: Option<nat>, entries: seq<(K, V)>)
    requires start in faults
    ensures Drive(faults, start, MapTrace<T, K, V>(hint, entries)) == Run([], Err(faults[start]), 1)
  {
    DriveStopsAt(faults, start, MapTrace<T, K, V>(hint, entries), 0);
  }

  /** If writing entry k is the first failing call, its error is returned unchanged, only the
      entries before k are emitted and the writer is never closed. */
  lemma MapEntryFails<T, K, V, E>(faults: map<nat, E>, start: nat, hint: Option<nat>, entries: seq<(K, V)>, k: nat)
    requires k < |entries| && NoFaultIn(faults, start, k + 1) && start + 1 + k in faults
    ensures var o := Drive(faults, start, MapTrace<T, K, V>(hint, entries));
      o.result == Err(faults[start + 1 + k]) && o.attempts == k + 2 &&
      o.emitted == [BeginMap(hint)] + EntryEvents(entries[..k])
  {
    var t := MapTrace<T, K, V>(hint, entries);
    var evs := EntryEvents<T, K, V>(entries);
    DriveStopsAt(faults, start, t, 1 + k);
    EntryEventsTake<T, K, V>(entries, k);
    assert t[..1 + k] == [BeginMap(hint)] + evs[..k];
  }

  /** If only the close fails, every entry was emitted and the close's error is returned. */
  lemma MapCloseFails<T, K, V, E>(faults: map<nat, E>, start: nat, hint: Option<nat>, entries: seq<(K, V)>)
    requires NoFaultIn(faults, start, |entries| + 1) && start + 1 + |entries| in faults
    ensures var o := Drive(faults, start, MapTrace<T, K, V>(hint, entries));
      o.result == Err(faults[start + 1 + |entries|]) && o.attempts == |entries| + 2 &&
      o.emitted == [BeginMap(hint)] + EntryEvents(entries)
  {
    var t := MapTrace<T, K, V>(hint, entries);
    DriveStopsAt(faults, start, t, 1 + |entries|);
    assert t[..1 + |entries|] == [BeginMap(hint)] + EntryEvents(entries);
  }

  /** A failed map never reaches the destination complete: no close is emitted and a reader
      finds no map in what was accepted. */
  lemma MapFailureIncomplete<T, K, V, E>(faults: map<nat, E>, start: nat, hint: Option<nat>, entries: seq<(K, V)>)
    requires Drive(faults, start, MapTrace<T, K, V>(hint, entries)).result.Err?
    ensures var o := Drive(faults, start, MapTrace<T, K, V>(hint, entries));
      (forall i :: 0 <= i < |o.emitted| ==> !o.emitted[i].End?) && DecodeMap(o.emitted) == None
  {
    var t := MapTrace<T, K, V>(hint, entries);
    var o := Drive(faults, start, t);
    forall i | 0 <= i < |o.emitted|
      ensures !o.emitted[i].End?
    {
      assert o.emitted[i] == t[i];
      if i > 0 { MapTraceAt<T, K, V>(hint, entries, i - 1); }
    }
  }

  /** With no failure scheduled, an empty traversal with hint 0 succeeds in two calls:
      exactly the open with hint 0 and the close. */
  lemma MapEmpty<T, K, V, E>(faults: map<nat, E>, start: nat)
    requires NoFaultIn(faults, start, 2)
    ensures var o := Drive(faults, start, MapTrace<T, K, V>(Some(0), []));
      o.result == Ok(()) && o.attempts == 2 && o.emitted == [BeginMap(Some(0)), End]
  {
    MapSucceeds<T, K, V, E>(faults, start, Some(0), []);
  }

  // Text protocol outcome.

  /** A text value is one call: on success exactly the full text is emitted, on failure
      nothing is, and no sequence or map writer is ever opened. */
  lemma StrOutcome<T, K, V, E>(faults: map<nat, E>, start: nat, text: string)
    ensures var o := Drive(faults, start, StrTrace<T, K, V>(text));
      o.attempts == 1 &&
      (start !in faults ==> o == Run([Str(text)], Ok(()), 1)) &&
      (start in faults ==> o == Run([], Err(faults[start]), 1)) &&
      forall i :: 0 <= i < |o.emitted| ==> !o.emitted[i].BeginSeq? && !o.emitted[i].BeginMap?
  {
    var t := StrTrace<T, K, V>(text);
    if start in faults {
      DriveStopsAt(faults, start, t, 0);
    } else {
      DriveClear(faults, start, t);
    }
  }
}
