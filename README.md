# heapless `Serialize` bridge, modelled in Dafny

heapless's fixed-capacity containers become serde values through one file, `src/ser.rs`.
Seven of its eight bindings share one shape. Each opens a sequence or map writer with a
length hint, emits the container's traversal in order, returns early on the first failing
write (`?`), and then closes the writer. The bindings differ only in two things: where the
hint comes from (`len()`, or `storage_len()` for the deque) and which traversal they walk
(`iter`, or `oldest_ordered()` for the history buffer). The text buffer is the exception:
it is a single `serialize_str` of its contents.

This model puts an abstract destination in place of serde's `Serializer`:

- `Destinations.Destination` is a class. Its `log` records accepted calls as events
  (`BeginSeq(hint)`, `Elem(e)`, `BeginMap(hint)`, `Entry(k, v)`, `End`, `Str(s)`), and
  `calls` counts every call made. Its constant fault schedule `faults: map<nat, E>` makes
  call number `n` fail with the opaque error `faults[n]`.
- `Destinations.Attempt` says how a run of calls went: the first `j` events of a trace
  were accepted, and then either the trace was finished or call `j` failed with its
  scheduled error and nothing more was tried. Two lemmas give the meaning of `?`:
  `AttemptThen` runs one step after another, and `AttemptStops` says a failed step ends
  the whole sequence.
- `Destinations.Drive` is the pure specification of attempting a trace call by call and
  stopping at the first failure. `AttemptIsDrive` proves that any attempt is exactly the
  run `Drive` prescribes. Every binding method is then proved to perform its protocol
  trace as `Drive` prescribes (the two-state predicate `Destination.Performed`).
- `Adapters.WriteElements` and `Adapters.WriteEntries` are the `for` loops of `ser.rs`.
  `Adapters.SerializeSeq` and `Adapters.SerializeMap` are the full open, loop and close
  bodies. Each is proved to attempt its protocol trace (`Destination.Attempted`).
- `Ser` holds the eight bindings. Each container is seen only through what its binding
  reads, given as values: a length source and a traversal.
- `Events.DecodeSeq` and `Events.DecodeMap` are the reader's view of a trace. They are proved
  to be exact inverses of the protocol traces, so "the destination received these
  elements, in this order, once each" is a statement about what a reader can recover.

The files are `wrappers.dfy`, `events.dfy`, `destination.dfy`, `adapters.dfy` and `ser.dfy`.

A serializer expects the length hint to equal the number of elements that follow.
`ser.rs` takes the deque's hint from `storage_len()`, which is defined outside this file,
so the file itself does not establish that it equals the traversal's length. `Ser.Deque` keeps `storageLen` apart from the traversal, and
`Ser.DequeHintMatchesCount` proves that the hint matches the count exactly when the
stated assumption `Deque.StorageLenMatches` holds.

## Model

| member | source | states |
|---|---|---|
| `Destinations.Destination.OpenSeq` | src/ser.rs:27 | `serialize_seq(Some(n))` is one call: it is accepted and logged as `BeginSeq`, or fails with the scheduled error and logs nothing |
| `Destinations.Destination.WriteElement` | src/ser.rs:29 | `serialize_element` is one call: it logs `Elem(x)` or returns the scheduled error |
| `Destinations.Destination.Close` | src/ser.rs:31 | `end()` is one call: it logs `End` or returns the scheduled error |
| `Destinations.Destination.OpenMap` | src/ser.rs:112 | `serialize_map(Some(n))` is one call: it logs `BeginMap` or returns the scheduled error |
| `Destinations.Destination.WriteEntry` | src/ser.rs:114 | `serialize_entry(k, v)` is one call: it logs `Entry(k, v)` or returns the scheduled error |
| `Destinations.Destination.WriteStr` | src/ser.rs:144 | `serialize_str` is one call: it logs `Str(s)` or returns the scheduled error |
| `Destinations.Drive` | src/ser.rs:27-31 | attempting a trace with early return accepts a prefix of it; a failed run stops short of the end; the calls made are the accepted events plus one for a failure |
| `Destinations.DriveClear` | src/ser.rs:27-31 | with no failing call, the whole trace is accepted, the result is `Ok` and one call is made per event |
| `Destinations.DriveStopsAt` | src/ser.rs:27-31 | if call `start + j` is the first scheduled failure, exactly the first `j` events are accepted, `j + 1` calls are made and that call's error is returned |
| `Destinations.DriveOkIff` | src/ser.rs:27-31 | a run succeeds if and only if none of its calls is scheduled to fail |
| `Destinations.DriveFailure` | src/ser.rs:29 | a failed run returns, unchanged, the error of the first failing call, and every earlier call was accepted |
| `Destinations.AnswerIsAttempt` | src/ser.rs:27 | a single answered call is an attempt of its one-event trace: accepted, or failed with nothing logged |
| `Destinations.AttemptThen` | src/ser.rs:27-31 | a step that succeeded followed by another step is an attempt of the two traces joined: logs, call counts and accepted counts add up, and the second step's result is the result |
| `Destinations.AttemptStops` | src/ser.rs:27-31 | a step that failed (`?` returning early) is an attempt of any longer trace that starts with it: nothing after the failing call is tried and its error is the result |
| `Destinations.AttemptIsDrive` | src/ser.rs:27-31 | any attempt of a trace logs exactly what `Drive` emits, makes exactly `Drive`'s number of calls and returns `Drive`'s result |
| `Adapters.WriteElements` | src/ser.rs:28-30 | the element loop attempts one `Elem` per element in order: the first `accepted` are logged, and either all were accepted or the next write's scheduled error is returned with nothing after it tried |
| `Adapters.SerializeSeq` | src/ser.rs:27-31 | open with the hint, the element loop, then close, returning on the first error: the first `accepted` events of the sequence trace are logged, no earlier call failed, and either the whole trace was accepted with `Ok` or the next call's scheduled error is returned and nothing after it is tried |
| `Adapters.WriteEntries` | src/ser.rs:113-115 | the entry loop attempts one `Entry` per pair in order: the first `accepted` are logged, and either all were accepted or the next write's scheduled error is returned with nothing after it tried |
| `Adapters.SerializeMap` | src/ser.rs:112-116 | open with the hint, the entry loop, then close, returning on the first error: the first `accepted` events of the map trace are logged, no earlier call failed, and either the whole trace was accepted with `Ok` or the next call's scheduled error is returned and nothing after it is tried |
| `Adapters.SeqSucceeds` | src/ser.rs:27-31 | on success the destination receives the open with the hint, every element once in traversal order, and one `End`; a reader recovers the hint and the elements |
| `Adapters.SeqOpenFails` | src/ser.rs:27 | a failing open returns its error: no element and no `End` is emitted, and only one call is made |
| `Adapters.SeqElementFails` | src/ser.rs:28-30 | if the write of element k is the first failure, its error is returned unchanged, only the elements before k are emitted, k + 2 calls are made and `End` is never called |
| `Adapters.SeqCloseFails` | src/ser.rs:31 | if only `end()` fails, every element was emitted and the error of `end()` is returned |
| `Adapters.SeqFailureIncomplete` | src/ser.rs:27-31 | a failed sequence never emits `End`, and a reader finds no complete sequence in what was accepted |
| `Adapters.SeqEmpty` | src/ser.rs:27-31 | with no failing call, an empty traversal with hint 0 succeeds in two calls, emitting exactly `BeginSeq(Some(0))` followed by `End` |
| `Adapters.MapSucceeds` | src/ser.rs:112-116 | on success the destination receives the open with the hint, every entry once in traversal order, and one `End`; a reader recovers the hint and the entries |
| `Adapters.MapOpenFails` | src/ser.rs:112 | a failing map open returns its error: no entry and no `End` is emitted |
| `Adapters.MapEntryFails` | src/ser.rs:113-115 | if the write of entry k is the first failure, its error is returned unchanged, only the entries before k are emitted and `End` is never called |
| `Adapters.MapCloseFails` | src/ser.rs:116 | if only `end()` fails, every entry was emitted and the error of `end()` is returned |
| `Adapters.MapFailureIncomplete` | src/ser.rs:112-116 | a failed map never emits `End`, and a reader finds no complete map in what was accepted |
| `Adapters.MapEmpty` | src/ser.rs:112-116 | with no failing call, an empty traversal with hint 0 succeeds in two calls, emitting exactly `BeginMap(Some(0))` followed by `End` |
| `Adapters.StrOutcome` | src/ser.rs:144 | a text value is one call: it emits exactly `Str` of the full text, or nothing on failure; no sequence or map writer is ever opened |
| `Events.DecodeSeqTrace` | src/ser.rs:27-31 | a reader of the sequence protocol recovers exactly the hint and the elements that were written |
| `Events.SeqTraceOfDecoded` | src/ser.rs:27-31 | every trace a reader accepts as a sequence is the protocol trace of what it decodes to |
| `Events.DecodeMapTrace` | src/ser.rs:112-116 | a reader of the map protocol recovers exactly the hint and the entries that were written |
| `Events.MapTraceOfDecoded` | src/ser.rs:112-116 | every trace a reader accepts as a map is the protocol trace of what it decodes to |
| `Ser.SerializeBinaryHeap` | src/ser.rs:17-33 | the priority queue performs the sequence trace with hint `Some(len())` over its heap-array traversal |
| `Ser.SerializeIndexSet` | src/ser.rs:35-50 | the set performs the sequence trace with hint `Some(len())` over its insertion-order traversal |
| `Ser.SerializeVec` | src/ser.rs:52-66 | the vector performs the sequence trace with hint `Some(len())` over its index-order traversal |
| `Ser.SerializeDeque` | src/ser.rs:68-82 | the deque performs the sequence trace with hint `Some(storage_len())` over its front-to-back traversal |
| `Ser.SerializeHistoryBuffer` | src/ser.rs:84-98 | the history buffer performs the sequence trace with hint `Some(len())` over `oldest_ordered()`, not its slot order |
| `Ser.SerializeIndexMap` | src/ser.rs:102-118 | the insertion-ordered map performs the map trace with hint `Some(len())` over its pairs in insertion order |
| `Ser.SerializeLinearMap` | src/ser.rs:120-135 | the linear map performs the map trace with hint `Some(len())` over its pairs in scan order |
| `Ser.SerializeString` | src/ser.rs:139-146 | the text buffer performs a single `Str` call carrying its full contents |
| `Ser.DequeHintMatchesCount` | src/ser.rs:76-80 | on success a reader decodes the hint `Some(storage_len())` and exactly the traversal, and that decoded hint equals the decoded element count exactly when `storage_len()` equals the traversal's length (a stated assumption, not a proved fact) |

## Left out

- serde's real `Serializer` backends and formats. A destination is an event log with a fault schedule keyed by call number.
- `SER::Ok`, the backend's success value, is modelled as the unit value `()`.
- Recursive serialization of elements, keys and values by their own `Serialize` impls. The element, key or value itself is handed to the destination.
- `serialize_entry` is modelled as one call. serde's default splits it into a key write and a value write; the source calls only `serialize_entry`.
- The container implementations: heap ordering, deque wrap-around, hashing in `IndexMap` and `IndexSet`, the linear map's scan, and the history buffer's slot layout. Each binding's length source and traversal are given values. So concrete push/pop histories, such as a full ring buffer dropping its oldest element, cannot be derived here.
- For the containers other than the deque, the model does not state that `len()` equals the traversal's length. That is the containers' own contract, and they are not part of this model.
- The trait bounds (`Ord`, `Eq`, `Hash`, `Storage`, `BinaryHeapKind`, `BuildHasher`). They are compile-time constraints with no behaviour.
- UTF-8 validity of the text buffer. Its contents are an opaque `string`.
- Deserialization. It is not in this file.
- Static typing of serde's writers (an element can only go to an open sequence writer). The model does not enforce this at each call; instead the lemmas show that every trace an adapter emits is a prefix of its well-formed protocol trace.
