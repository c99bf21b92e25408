/**
 * The `Serialize` bindings of the fixed-capacity containers.  A container is
 * seen only through what its binding reads: a length source and a
 * traversal, both given (the containers' internals are not part of this
 * model).  Each binding hands them to the sequence or map adapter; the text
 * buffer hands its whole contents to the destination as one string.
 *
 * Every binding is generic in the destination's event type `Event<T, K, V>`:
 * a sequence binding leaves the key and value types `K`, `V` free, a map
 * binding the element type `T`.
 */
module Ser {
  import opened Wrappers
  import opened Events
  import opened Destinations
  import opened Adapters

  /** A priority queue as its binding reads it: `len()` and the heap-array traversal
      (implementation-defined order, not sorted). */
  datatype BinaryHeap<T> = BinaryHeap(len: nat, iter: seq<T>)

  /** An insertion-ordered set: `len()` and its traversal in insertion order. */
  datatype IndexSet<T> = IndexSet(len: nat, iter: seq<T>)

  /** A bounded vector: `len()` and its traversal in index order. */
  datatype Vec<T> = Vec(len: nat, iter: seq<T>)

  /** A bounded deque: `storage_len()` and its front-to-back traversal.  The two are
      kept apart: nothing here identifies `storageLen` with the traversal's length. */
  datatype Deque<T> = Deque(storageLen: nat, iter: seq<T>) {
    /** The storage capability's contract, stated as an assumption: `storage_len()`
        counts exactly the elements the traversal visits. */
    predicate StorageLenMatches() { storageLen == |iter| }
  }

  /** A chronological ring buffer: `len()` and the `oldest_ordered()` traversal. */
  datatype HistoryBuffer<T> = HistoryBuffer(len: nat, oldestOrdered: seq<T>)

  /** An insertion-ordered map: `len()` and its pairs in insertion order. */
  datatype IndexMap<K, V> = IndexMap(len: nat, iter: seq<(K, V)>)

  /** A linear map: `len()` and its pairs in scan order (no ordering guarantee). */
  datatype LinearMap<K, V> = LinearMap(len: nat, iter: seq<(K, V)>)

  /** A bounded text buffer: the text it dereferences to. */
  datatype String = String(contents: string)

  method SerializeBinaryHeap<T, K, V, E>(heap: BinaryHeap<T>, dest: Destination<T, K, V, E>)
      returns (r: Result<(), E>)
    modifies dest
    ensures dest.Performed(SeqTrace(Some(heap.len), heap.iter), r)
  {
    ghost var start, log0 := dest.calls, dest.log;
    ghost var accepted;
    r, accepted := SerializeSeq(dest, Some(heap.len), heap.iter);
    AttemptIsDrive(dest.faults, start, log0, SeqTrace<T, K, V>(Some(heap.len), heap.iter), accepted, r, dest.calls, dest.log);
  }

  method SerializeIndexSet<T, K, V, E>(indexSet: IndexSet<T>, dest: Destination<T, K, V, E>)
      returns (r: Result<(), E>)
    modifies dest
    ensures dest.Performed(SeqTrace(Some(indexSet.len), indexSet.iter), r)
  {
    ghost var start, log0 := dest.calls, dest.log;
    ghost var accepted;
    r, accepted := SerializeSeq(dest, Some(indexSet.len), indexSet.iter);
    AttemptIsDrive(dest.faults, start, log0, SeqTrace<T, K, V>(Some(indexSet.len), indexSet.iter), accepted, r, dest.calls, dest.log);
  }

  method SerializeVec<T, K, V, E>(vec: Vec<T>, dest: Destination<T, K, V, E>)
      returns (r: Result<(), E>)
    modifies dest
    ensures dest.Performed(SeqTrace(Some(vec.len), vec.iter), r)
  {
    ghost var start, log0 := dest.calls, dest.log;
    ghost var accepted;
    r, accepted := SerializeSeq(dest, Some(vec.len), vec.iter);
    AttemptIsDrive(dest.faults, start, log0, SeqTrace<T, K, V>(Some(vec.len), vec.iter), accepted, r, dest.calls, dest.log);
  }

  method SerializeDeque<T, K, V, E>(deque: Deque<T>, dest: Destination<T, K, V, E>)
      returns (r: Result<(), E>)
    modifies dest
    ensures dest.Performed(SeqTrace(Some(deque.storageLen), deque.iter), r)
  {
    ghost var start, log0 := dest.calls, dest.log;
    ghost var accepted;
    r, accepted := SerializeSeq(dest, Some(deque.storageLen), deque.iter);
    AttemptIsDrive(dest.faults, start, log0, SeqTrace<T, K, V>(Some(deque.storageLen), deque.iter), accepted, r, dest.calls, dest.log);
  }

  method SerializeHistoryBuffer<T, K, V, E>(buffer: HistoryBuffer<T>, dest: Destination<T, K, V, E>)
      returns (r: Result<(), E>)
    modifies dest
    ensures dest.Performed(SeqTrace(Some(buffer.len), buffer.oldestOrdered), r)
  {
    ghost var start, log0 := dest.calls, dest.log;
    ghost var accepted;
    r, accepted := SerializeSeq(dest, Some(buffer.len), buffer.oldestOrdered);
    AttemptIsDrive(dest.faults, start, log0, SeqTrace<T, K, V>(Some(buffer.len), buffer.oldestOrdered), accepted, r, dest.calls, dest.log);
  }

  method SerializeIndexMap<T, K, V, E>(indexMap: IndexMap<K, V>, dest: Destination<T, K, V, E>)
      returns (r: Result<(), E>)
    modifies dest
    ensures dest.Performed(MapTrace(Some(indexMap.len), indexMap.iter), r)
  {
    ghost var start, log0 := dest.calls, dest.log;
    ghost var accepted;
    r, accepted := SerializeMap(dest, Some(indexMap.len), indexMap.iter);
    AttemptIsDrive(dest.faults, start, log0, MapTrace<T, K, V>(Some(indexMap.len), indexMap.iter), accepted, r, dest.calls, dest.log);
  }

  method SerializeLinearMap<T, K, V, E>(linearMap: LinearMap<K, V>, dest: Destination<T, K, V, E>)
      returns (r: Result<(), E>)
    modifies dest
    ensures dest.Performed(MapTrace(Some(linearMap.len), linearMap.iter), r)
  {
    ghost var start, log0 := dest.calls, dest.log;
    ghost var accepted;
    r, accepted := SerializeMap(dest, Some(linearMap.len), linearMap.iter);
    AttemptIsDrive(dest.faults, start, log0, MapTrace<T, K, V>(Some(linearMap.len), linearMap.iter), accepted, r, dest.calls, dest.log);
  }

  /** The text buffer is a single pass-through `serialize_str` of its full contents. */
  method SerializeString<T, K, V, E>(text: String, dest: Destination<T, K, V, E>)
      returns (r: Result<(), E>)
    modifies dest
    ensures dest.Performed(StrTrace(text.contents), r)
  {
    r := dest.WriteStr(text.contents);
    assert StrTrace<T, K, V>(text.contents) == [Str(text.contents)];
  }

  /** On success a reader recovers the hint `storage_len()` and the traversal, and the
      recovered hint equals the recovered element count exactly when `storage_len()`
      equals the traversal's length. */
  lemma DequeHintMatchesCount<T, K, V, E>(deque: Deque<T>, faults: map<nat, E>, start: nat)
    requires NoFaultIn(faults, start, |deque.iter| + 2)
    ensures var o := Drive(faults, start, SeqTrace<T, K, V>(Some(deque.storageLen), deque.iter));
      DecodeSeq(o.emitted) == Some((Some(deque.storageLen), deque.iter)) &&
      var (hint, elements) := DecodeSeq(o.emitted).value;
      (hint == Some(|elements|) <==> deque.StorageLenMatches())
  {
    SeqSucceeds<T, K, V, E>(faults, start, Some(deque.storageLen), deque.iter);
  }
}
