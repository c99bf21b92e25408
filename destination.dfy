/**
 * The abstract serializer backend.  A `Destination` records every call it
 * accepts as an event and answers each call, numbered from 0 in the order
 * it arrives, either with success or with the error its fault schedule holds
 * for that call number.  `Drive` is the pure specification of attempting a
 * whole trace call by call and stopping at the first failure.
 */
module Destinations {
  import opened Wrappers
  import opened Events

  /** What attempting a trace did: the events accepted, the value handed back
      to the caller, and how many calls the destination received. */
  datatype Run<T, K, V, E> = Run(emitted: seq<Event<T, K, V>>, result: Result<(), E>, attempts: nat)

  /** No call numbered in [from, from + count) is scheduled to fail. */
  predicate NoFaultIn<E>(faults: map<nat, E>, from: nat, count: nat)
  {
    forall n :: from <= n < from + count ==> n !in faults
  }

  /** The calls of `trace` are attempted in order, starting at call number `start`;
      the first call the schedule makes fail ends the run with that call's error. */
  function Drive<T, K, V, E>(faults: map<nat, E>, start: nat, trace: seq<Event<T, K, V>>): (o: Run<T, K, V, E>)
    ensures o.emitted <= trace
    ensures o.result.Err? ==> |o.emitted| < |trace|
    ensures o.attempts == |o.emitted| + (if o.result.Err? then 1 else 0)
    decreases |trace|
  {
    if trace == [] then Run([], Ok(()), 0)
    else if start in faults then Run([], Err(faults[start]), 1)
    else
      var rest := Drive(faults, start + 1, trace[1..]);
      Run([trace[0]] + rest.emitted, rest.result, rest.attempts + 1)
  }

  /** With no failure scheduled, every event of the trace is accepted and the run succeeds. */
  lemma {:induction false} DriveClear<T, K, V, E>(faults: map<nat, E>, start: nat, trace: seq<Event<T, K, V>>)
    requires NoFaultIn(faults, start, |trace|)
    ensures Drive(faults, start, trace) == Run(trace, Ok(()), |trace|)
    decreases |trace|
  {
    if trace != [] {
      assert start !in faults;
      DriveClear(faults, start + 1, trace[1..]);
      assert [trace[0]] + trace[1..] == trace;
    }
  }

  /** When call `start + j` is the first scheduled failure inside the trace, exactly the
      first `j` events are accepted, `j + 1` calls are made, and that call's error is returned. */
  lemma {:induction false} DriveStopsAt<T, K, V, E>(faults: map<nat, E>, start: nat, trace: seq<Event<T, K, V>>, j: nat)
    requires j < |trace| && NoFaultIn(faults, start, j) && start + j in faults
    ensures Drive(faults, start, trace) == Run(trace[..j], Err(faults[start + j]), j + 1)
    decreases j
  {
    if j > 0 {
      assert start !in faults;
      DriveStopsAt(faults, start + 1, trace[1..], j - 1);
      assert [trace[0]] + trace[1..][..j - 1] == trace[..j];
    }
  }

  /** A run succeeds if and only if none of its calls is scheduled to fail. */
  lemma {:induction false} DriveOkIff<T, K, V, E>(faults: map<nat, E>, start: nat, trace: seq<Event<T, K, V>>)
    ensures Drive(faults, start, trace).result.Ok? <==> NoFaultIn(faults, start, |trace|)
    decreases |trace|
  {
    if trace != [] && start !in faults {
      DriveOkIff(faults, start + 1, trace[1..]);
    }
  }

  /** A failed run hands back, unchanged, the error of the first call that failed, and
      every call before it was accepted. */
  lemma {:induction false} DriveFailure<T, K, V, E>(faults: map<nat, E>, start: nat, trace: seq<Event<T, K, V>>)
    requires Drive(faults, start, trace).result.Err?
    ensures var o := Drive(faults, start, trace);
      NoFaultIn(faults, start, |o.emitted|) && start + |o.emitted| in faults &&
      o.result == Err(faults[start + |o.emitted|])
    decreases |trace|
  {
    if start !in faults {
      DriveFailure(faults, start + 1, trace[1..]);
    }
  }

  /** One call carrying `ev`, number `c0`, answered according to the schedule, taking the
      call count from `c0` to `c1` and the log from `log0` to `log1`. */
  ghost predicate Answer<T, K, V, E>(faults: map<nat, E>, c0: nat, log0: seq<Event<T, K, V>>,
                                     ev: Event<T, K, V>, r: Result<(), E>, c1: nat, log1: seq<Event<T, K, V>>)
  {
    c1 == c0 + 1 &&
    r == (if c0 in faults then Err(faults[c0]) else Ok(())) &&
    log1 == (if r.Ok? then log0 + [ev] else log0)
  }

  /** The calls of `trace` were attempted in order from call number `c0`: the first `j`
      were accepted and appended to the log, and either that was all of them or call
      `c0 + j` failed with the error the schedule holds for it and nothing more was tried. */
  ghost predicate Attempt<T, K, V, E>(faults: map<nat, E>, c0: nat, log0: seq<Event<T, K, V>>,
                                      trace: seq<Event<T, K, V>>, j: nat, r: Result<(), E>,
                                      c1: nat, log1: seq<Event<T, K, V>>)
  {
    j <= |trace| && NoFaultIn(faults, c0, j) && log1 == log0 + trace[..j] &&
    (r.Ok? ==> j == |trace| && c1 == c0 + j) &&
    (r.Err? ==> j < |trace| && c0 + j in faults && r == Err(faults[c0 + j]) && c1 == c0 + j + 1)
  }

  /** A single answered call is an attempt of the one-event trace. */
  lemma AnswerIsAttempt<T, K, V, E>(faults: map<nat, E>, c0: nat, log0: seq<Event<T, K, V>>,
                                    ev: Event<T, K, V>, r: Result<(), E>, c1: nat, log1: seq<Event<T, K, V>>)
    requires Answer(faults, c0, log0, ev, r, c1, log1)
    ensures Attempt(faults, c0, log0, [ev], if r.Ok? then 1 else 0, r, c1, log1)
  {
    assert [ev][..0] == [] && [ev][..1] == [ev];
  }

  /** A completed attempt of `a` followed by an attempt of `b` is an attempt of `a + b`. */
  lemma AttemptThen<T, K, V, E>(faults: map<nat, E>, c0: nat, log0: seq<Event<T, K, V>>,
                                a: seq<Event<T, K, V>>, j1: nat, r1: Result<(), E>, c1: nat, log1: seq<Event<T, K, V>>,
                                b: seq<Event<T, K, V>>, j2: nat, r2: Result<(), E>, c2: nat, log2: seq<Event<T, K, V>>)
    requires Attempt(faults, c0, log0, a, j1, r1, c1, log1) && r1.Ok?
    requires Attempt(faults, c1, log1, b, j2, r2, c2, log2)
    ensures Attempt(faults, c0, log0, a + b, j1 + j2, r2, c2, log2)
  {
    assert a[..j1] == a;
    assert (a + b)[..j1 + j2] == a + b[..j2];
    assert log2 == log0 + (a + b)[..j1 + j2];
    forall n | c0 <= n < c0 + j1 + j2
      ensures n !in faults
    {
      if n >= c1 {
        assert c1 <= n < c1 + j2;
      }
    }
  }

  /** An attempt of `a` that failed is an attempt of any trace that starts with `a`:
      nothing after the failing call is tried. */
  lemma AttemptStops<T, K, V, E>(faults: map<nat, E>, c0: nat, log0: seq<Event<T, K, V>>,
                                 a: seq<Event<T, K, V>>, j: nat, r: Result<(), E>, c1: nat, log1: seq<Event<T, K, V>>,
                                 b: seq<Event<T, K, V>>)
    requires Attempt(faults, c0, log0, a, j, r, c1, log1) && r.Err?
    ensures Attempt(faults, c0, log0, a + b, j, r, c1, log1)
  {
    assert (a + b)[..j] == a[..j];
  }

  /** An attempt of a trace is exactly the run `Drive` prescribes for it. */
  lemma AttemptIsDrive<T, K, V, E>(faults: map<nat, E>, c0: nat, log0: seq<Event<T, K, V>>,
                                   trace: seq<Event<T, K, V>>, j: nat, r: Result<(), E>,
                                   c1: nat, log1: seq<Event<T, K, V>>)
    requires Attempt(faults, c0, log0, trace, j, r, c1, log1)
    ensures var o := Drive(faults, c0, trace);
      log1 == log0 + o.emitted && c1 == c0 + o.attempts && r == o.result
  {
    if r.Ok? {
      assert r.value == ();
      assert trace[..j] == trace;
      DriveClear(faults, c0, trace);
    } else {
      DriveStopsAt(faults, c0, trace, j);
    }
  }

  /** A serializer backend with a fault schedule and a log of the calls it accepted. */
  class Destination<T, K, V, E> {
    /** Call number n fails with faults[n]; every other call succeeds. */
    const faults: map<nat, E>
    /** The calls accepted so far, in order. */
    var log: seq<Event<T, K, V>>
    /** How many calls have been made, accepted or not. */
    var calls: nat

    constructor (faults: map<nat, E>)
      ensures this.faults == faults && log == [] && calls == 0
    {
      this.faults := faults;
      log := [];
      calls := 0;
    }

    /** One call carrying `ev`, answered according to the schedule. */
    twostate predicate Answered(new ev: Event<T, K, V>, new r: Result<(), E>)
      reads this
    {
      Answer(faults, old(calls), old(log), ev, r, calls, log)
    }

    /** The calls of `trace` were attempted from the call count on entry, as `Drive` prescribes. */
    twostate predicate Performed(new trace: seq<Event<T, K, V>>, new r: Result<(), E>)
      reads this
    {
      var o := Drive(faults, old(calls), trace);
      log == old(log) + o.emitted && calls == old(calls) + o.attempts && r == o.result
    }

    /** The calls of `trace` were attempted from the call count on entry, the first `j` of
        them were accepted, and either that was all of them or call `j` failed with the error
        the schedule holds for it. */
    twostate predicate Attempted(new trace: seq<Event<T, K, V>>, new j: nat, new r: Result<(), E>)
      reads this
    {
      Attempt(faults, old(calls), old(log), trace, j, r, calls, log)
    }

    method Accept(ev: Event<T, K, V>) returns (r: Result<(), E>)
      modifies this
      ensures Answered(ev, r)
    {
      if calls in faults {
        r := Err(faults[calls]);
      } else {
        r := Ok(());
        log := log + [ev];
      }
      calls := calls + 1;
    }

    /** `serialize_seq`: opens a sequence writer with a length hint. */
    method OpenSeq(hint: Option<nat>) returns (r: Result<(), E>)
      modifies this
      ensures Answered(BeginSeq(hint), r)
    {
      r := Accept(BeginSeq(hint));
    }

    /** `serialize_element` on an open sequence writer. */
    method WriteElement(x: T) returns (r: Result<(), E>)
      modifies this
      ensures Answered(Elem(x), r)
    {
      r := Accept(Elem(x));
    }

    /** `serialize_map`: opens a map writer with a length hint. */
    method OpenMap(hint: Option<nat>) returns (r: Result<(), E>)
      modifies this
      ensures Answered(BeginMap(hint), r)
    {
      r := Accept(BeginMap(hint));
    }

    /** `serialize_entry` on an open map writer. */
    method WriteEntry(k: K, v: V) returns (r: Result<(), E>)
      modifies this
      ensures Answered(Entry(k, v), r)
    {
      r := Accept(Entry(k, v));
    }

    /** `end` on an open sequence or map writer. */
    method Close() returns (r: Result<(), E>)
      modifies this
      ensures Answered(End, r)
    {
      r := Accept(End);
    }

    /** `serialize_str`: a single text value. */
    method WriteStr(s: string) returns (r: Result<(), E>)
      modifies this
      ensures Answered(Str(s), r)
    {
      r := Accept(Str(s));
    }
  }
}
