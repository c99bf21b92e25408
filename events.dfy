/**
 * The calls a serializer receives, recorded as events, and the traces that
 * the sequence, map and text protocols prescribe.  Each protocol comes with
 * a decoder, the reader's view of a trace, proved to be its exact inverse.
 */
module Events {
  import opened Wrappers

  /** One accepted serializer call.  `T` is the element type of sequences,
      `K` and `V` the key and value types of maps. */
  datatype Event<T, K, V> =
    | BeginSeq(seqHint: Option<nat>)
    | Elem(element: T)
    | BeginMap(mapHint: Option<nat>)
    | Entry(key: K, value: V)
    | End
    | Str(text: string)

  /** One `Elem` event per element, in the given order. */
  function ElementEvents<T, K, V>(elements: seq<T>): (evs: seq<Event<T, K, V>>)
    ensures |evs| == |elements|
  {
    if elements == [] then [] else [Elem(elements[0])] + ElementEvents(elements[1..])
  }

  /** Event i of `ElementEvents(elements)` carries element i. */
  lemma {:induction false} ElementEventAt<T, K, V>(elements: seq<T>, i: nat)
    requires i < |elements|
    ensures ElementEvents<T, K, V>(elements)[i] == Elem(elements[i])
  {
    if i > 0 {
      ElementEventAt<T, K, V>(elements[1..], i - 1);
    }
  }

  /** The first k element events are the events of the first k elements. */
  lemma {:induction false} ElementEventsTake<T, K, V>(elements: seq<T>, k: nat)
    requires k <= |elements|
    ensures ElementEvents<T, K, V>(elements)[..k] == ElementEvents(elements[..k])
  {
    if k > 0 {
      ElementEventsTake<T, K, V>(elements[1..], k - 1);
      assert elements[..k][1..] == elements[1..][..k - 1];
    }
  }

  /** One `Entry` event per key/value pair, in the given order. */
  function EntryEvents<T, K, V>(entries: seq<(K, V)>): (evs: seq<Event<T, K, V>>)
    ensures |evs| == |entries|
  {
    if entries == [] then [] else [Entry(entries[0].0, entries[0].1)] + EntryEvents(entries[1..])
  }

  /** Event i of `EntryEvents(entries)` carries entry i. */
  lemma {:induction false} EntryEventAt<T, K, V>(entries: seq<(K, V)>, i: nat)
    requires i < |entries|
    ensures EntryEvents<T, K, V>(entries)[i] == Entry(entries[i].0, entries[i].1)
  {
    if i > 0 {
      EntryEventAt<T, K, V>(entries[1..], i - 1);
    }
  }

  /** The first k entry events are the events of the first k entries. */
  lemma {:induction false} EntryEventsTake<T, K, V>(entries: seq<(K, V)>, k: nat)
    requires k <= |entries|
    ensures EntryEvents<T, K, V>(entries)[..k] == EntryEvents(entries[..k])
  {
    if k > 0 {
      EntryEventsTake<T, K, V>(entries[1..], k - 1);
      assert entries[..k][1..] == entries[1..][..k - 1];
    }
  }

  /** The sequence protocol: open with the hint, every element once in order, close once. */
  function SeqTrace<T, K, V>(hint: Option<nat>, elements: seq<T>): (t: seq<Event<T, K, V>>)
    ensures |t| == |elements| + 2
    ensures t[0] == BeginSeq(hint) && t[|t| - 1] == End
  {
    [BeginSeq(hint)] + ElementEvents(elements) + [End]
  }

  /** Position 1 + i of a sequence trace is element i. */
  lemma SeqTraceAt<T, K, V>(hint: Option<nat>, elements: seq<T>, i: nat)
    requires i < |elements|
    ensures SeqTrace<T, K, V>(hint, elements)[1 + i] == Elem(elements[i])
  {
    ElementEventAt<T, K, V>(elements, i);
  }

  /** The map protocol: open with the hint, every entry once in order, close once. */
  function MapTrace<T, K, V>(hint: Option<nat>, entries: seq<(K, V)>): (t: seq<Event<T, K, V>>)
    ensures |t| == |entries| + 2
    ensures t[0] == BeginMap(hint) && t[|t| - 1] == End
  {
    [BeginMap(hint)] + EntryEvents(entries) + [End]
  }

  /** Position 1 + i of a map trace is entry i. */
  lemma MapTraceAt<T, K, V>(hint: Option<nat>, entries: seq<(K, V)>, i: nat)
    requires i < |entries|
    ensures MapTrace<T, K, V>(hint, entries)[1 + i] == Entry(entries[i].0, entries[i].1)
  {
    EntryEventAt<T, K, V>(entries, i);
  }

  /** The text protocol: a single string value, no writer opened. */
  function StrTrace<T, K, V>(text: string): seq<Event<T, K, V>>
  {
    [Str(text)]
  }

  /** The elements carried by a run of `Elem` events, or None if any other event is among them. */
  function ElementsOf<T, K, V>(evs: seq<Event<T, K, V>>): Option<seq<T>>
  {
    if evs == [] then Some([])
    else if !evs[0].Elem? then None
    else match ElementsOf(evs[1..])
      case Some(rest) => Some([evs[0].element] + rest)
      case None => None
  }

  /** The entries carried by a run of `Entry` events, or None if any other event is among them. */
  function EntriesOf<T, K, V>(evs: seq<Event<T, K, V>>): Option<seq<(K, V)>>
  {
    if evs == [] then Some([])
    else if !evs[0].Entry? then None
    else match EntriesOf(evs[1..])
      case Some(rest) => Some([(evs[0].key, evs[0].value)] + rest)
      case None => None
  }

  /** What a reader recovers from a complete sequence: its hint and its elements. */
  function DecodeSeq<T, K, V>(t: seq<Event<T, K, V>>): Option<(Option<nat>, seq<T>)>
  {
    if |t| < 2 || !t[0].BeginSeq? || !t[|t| - 1].End? then None
    else match ElementsOf(t[1..|t| - 1])
      case Some(elements) => Some((t[0].seqHint, elements))
      case None => None
  }

  /** What a reader recovers from a complete map: its hint and its entries. */
  function DecodeMap<T, K, V>(t: seq<Event<T, K, V>>): Option<(Option<nat>, seq<(K, V)>)>
  {
    if |t| < 2 || !t[0].BeginMap? || !t[|t| - 1].End? then None
    else match EntriesOf(t[1..|t| - 1])
      case Some(entries) => Some((t[0].mapHint, entries))
      case None => None
  }

  lemma {:induction false} ElementsOfElementEvents<T, K, V>(elements: seq<T>)
    ensures ElementsOf<T, K, V>(ElementEvents(elements)) == Some(elements)
  {
    if elements != [] {
      var evs: seq<Event<T, K, V>> := ElementEvents(elements);
      assert evs[1..] == ElementEvents(elements[1..]);
      ElementsOfElementEvents<T, K, V>(elements[1..]);
      assert [elements[0]] + elements[1..] == elements;
    }
  }

  lemma {:induction false} ElementEventsOfElements<T, K, V>(evs: seq<Event<T, K, V>>, elements: seq<T>)
    requires ElementsOf(evs) == Some(elements)
    ensures ElementEvents(elements) == evs
  {
    if evs != [] {
      var rest := ElementsOf(evs[1..]).value;
      ElementEventsOfElements(evs[1..], rest);
      assert elements == [evs[0].element] + rest;
      assert elements[1..] == rest;
      assert [evs[0]] + evs[1..] == evs;
    }
  }

  lemma {:induction false} EntriesOfEntryEvents<T, K, V>(entries: seq<(K, V)>)
    ensures EntriesOf<T, K, V>(EntryEvents(entries)) == Some(entries)
  {
    if entries != [] {
      var evs: seq<Event<T, K, V>> := EntryEvents(entries);
      assert evs[1..] == EntryEvents(entries[1..]);
      EntriesOfEntryEvents<T, K, V>(entries[1..]);
      assert [entries[0]] + entries[1..] == entries;
    }
  }

  lemma {:induction false} EntryEventsOfEntries<T, K, V>(evs: seq<Event<T, K, V>>, entries: seq<(K, V)>)
    requires EntriesOf(evs) == Some(entries)
    ensures EntryEvents(entries) == evs
  {
    if evs != [] {
      var rest := EntriesOf(evs[1..]).value;
      EntryEventsOfEntries(evs[1..], rest);
      assert entries == [(evs[0].key, evs[0].value)] + rest;
      assert entries[1..] == rest;
      assert [evs[0]] + evs[1..] == evs;
    }
  }

  /** A reader recovers exactly the hint and the elements that were serialized. */
  lemma DecodeSeqTrace<T, K, V>(hint: Option<nat>, elements: seq<T>)
    ensures DecodeSeq<T, K, V>(SeqTrace(hint, elements)) == Some((hint, elements))
  {
    var t: seq<Event<T, K, V>> := SeqTrace(hint, elements);
    assert t[1..|t| - 1] == ElementEvents(elements);
    ElementsOfElementEvents<T, K, V>(elements);
  }

  /** Every trace a reader accepts as a sequence is the trace of what it decodes to. */
  lemma SeqTraceOfDecoded<T, K, V>(t: seq<Event<T, K, V>>, hint: Option<nat>, elements: seq<T>)
    requires DecodeSeq(t) == Some((hint, elements))
    ensures SeqTrace(hint, elements) == t
  {
    ElementEventsOfElements(t[1..|t| - 1], elements);
    assert t == [t[0]] + t[1..|t| - 1] + [t[|t| - 1]];
  }

  /** A reader recovers exactly the hint and the entries that were serialized. */
  lemma DecodeMapTrace<T, K, V>(hint: Option<nat>, entries: seq<(K, V)>)
    ensures DecodeMap<T, K, V>(MapTrace(hint, entries)) == Some((hint, entries))
  {
    var t: seq<Event<T, K, V>> := MapTrace(hint, entries);
    assert t[1..|t| - 1] == EntryEvents(entries);
    EntriesOfEntryEvents<T, K, V>(entries);
  }

  /** Every trace a reader accepts as a map is the trace of what it decodes to. */
  lemma MapTraceOfDecoded<T, K, V>(t: seq<Event<T, K, V>>, hint: Option<nat>, entries: seq<(K, V)>)
    requires DecodeMap(t) == Some((hint, entries))
    ensures MapTrace(hint, entries) == t
  {
    EntryEventsOfEntries(t[1..|t| - 1], entries);
    assert t == [t[0]] + t[1..|t| - 1] + [t[|t| - 1]];
  }
}
