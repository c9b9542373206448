/**
 * The clear-all scan as its consumer sees it: a finite sequence of stream
 * events. `data` events carry a batch of matched keys; `end`, `error` and
 * the firing of the clear-all timer are terminal. The first terminal event
 * settles the outcome: after `end` and `error` the timer is cleared and the
 * stream emits nothing more, and the timer destroys the stream. When the
 * sequence runs out with no terminal event the scan has stalled, and the
 * timer, which always fires eventually, settles it.
 */
module Shred {
  import opened Outcomes
  import opened Keys

  datatype ScanEvent =
    | Batch(keys: seq<string>)      // 'data'
    | End                           // 'end'
    | StreamError(message: string)  // 'error'
    | TimerFired                    // the 10000 ms setTimeout callback

  predicate Terminal(e: ScanEvent)
  {
    !e.Batch?
  }

  /** No terminal event occurs among the first `n` events. */
  predicate PendingAfter(events: seq<ScanEvent>, n: nat)
    requires n <= |events|
  {
    forall j :: 0 <= j < n ==> events[j].Batch?
  }

  /** How a terminal event settles the clear-all promise. */
  function Settle(e: ScanEvent): (r: Result<()>)
    requires Terminal(e)
    ensures r.Ok? <==> e.End?
    ensures r == Err(ClearTimeout) <==> e.TimerFired?
    ensures e.StreamError? ==> r == Err(ScanFailure(e.message))
  {
    match e
    case End => Ok(())
    case StreamError(m) => Err(ScanFailure(m))
    case _ => Err(ClearTimeout)
  }

  /** The settled outcome: that of the first terminal event, or the timer's. */
  function Outcome(events: seq<ScanEvent>): (r: Result<()>)
    ensures r.Ok? ==> End in events
    ensures r.Err? && r.error.ScanFailure? ==> StreamError(r.error.message) in events
  {
    if events == [] then Err(ClearTimeout)
    else if Terminal(events[0]) then Settle(events[0])
    else Outcome(events[1..])
  }

  function Elems(keys: seq<string>): set<string>
  {
    set k | k in keys
  }

  /** The keys deleted: those of every batch delivered before the outcome settles. */
  function Deleted(events: seq<ScanEvent>): (deleted: set<string>)
    ensures forall i, k :: 0 <= i < |events| && PendingAfter(events, i + 1) && k in events[i].keys ==>
      k in deleted
    ensures forall k :: k in deleted ==>
      exists i :: 0 <= i < |events| && PendingAfter(events, i + 1) && k in events[i].keys
  {
    if events == [] || Terminal(events[0]) then {}
    else Elems(events[0].keys) + Deleted(events[1..])
  }

  /** The outcome is that of the first terminal event. */
  lemma {:induction false} FirstTerminalDecides(events: seq<ScanEvent>, i: nat)
    requires i < |events| && Terminal(events[i]) && PendingAfter(events, i)
    ensures Outcome(events) == Settle(events[i])
  {
    if i > 0 {
      FirstTerminalDecides(events[1..], i - 1);
    }
  }

  /** With no terminal event at all, the timer fires and the result is a timeout. */
  lemma {:induction false} StalledScanTimesOut(events: seq<ScanEvent>)
    requires PendingAfter(events, |events|)
    ensures Outcome(events) == Err(ClearTimeout)
  {
    if events != [] {
      StalledScanTimesOut(events[1..]);
    }
  }

  /**
   * Clear-all succeeds if and only if `end` arrives before any `error` and
   * before the timer fires.
   */
  lemma {:induction false} SucceedsIffEndFirst(events: seq<ScanEvent>)
    ensures Outcome(events).Ok? <==>
      exists i :: 0 <= i < |events| && events[i].End? && PendingAfter(events, i)
  {
    if events == [] {
    } else if Terminal(events[0]) {
      if events[0].End? {
        assert PendingAfter(events, 0);
      } else {
        forall i | 0 <= i < |events| && events[i].End? ensures !PendingAfter(events, i) {
          assert i > 0 && !events[0].Batch?;
        }
      }
    } else {
      SucceedsIffEndFirst(events[1..]);
      if Outcome(events).Ok? {
        var i :| 0 <= i < |events[1..]| && events[1..][i].End? && PendingAfter(events[1..], i);
        assert events[i + 1].End? && PendingAfter(events, i + 1);
      }
    }
  }

  /** Nothing after the first terminal event matters, to the outcome or to the deletions. */
  lemma {:induction false} LaterEventsIgnored(events: seq<ScanEvent>, later: seq<ScanEvent>)
    requires !PendingAfter(events, |events|)
    ensures Outcome(events + later) == Outcome(events)
    ensures Deleted(events + later) == Deleted(events)
  {
    assert events != [];
    assert (events + later)[0] == events[0];
    if !Terminal(events[0]) {
      assert (events + later)[1..] == events[1..] + later;
      assert !PendingAfter(events[1..], |events[1..]|) by {
        var j :| 0 <= j < |events| && !events[j].Batch?;
        assert j > 0 && !events[1..][j - 1].Batch?;
      }
      LaterEventsIgnored(events[1..], later);
    }
  }

  /**
   * The MATCH filter bounds the deletions: when every delivered key matches
   * the scan pattern of `prefix`, every deleted key lies in its namespace.
   */
  lemma {:induction false} MatchedBatchesStayInNamespace(prefix: string, events: seq<ScanEvent>)
    requires MatchFiltered(prefix, events)
    ensures forall k :: k in Deleted(events) ==> InNamespace(prefix, k)
  {
    if events != [] && !Terminal(events[0]) {
      forall k | k in events[0].keys ensures InNamespace(prefix, k) {
        ScanPatternSelectsNamespace(prefix, k);
      }
      MatchedBatchesStayInNamespace(prefix, events[1..]);
    }
  }

  /** The namespace keys of `data` every one of which a complete scan must deliver. */
  function NamespaceKeys(data: map<string, string>, prefix: string): set<string>
  {
    set k | k in data && InNamespace(prefix, k)
  }

  /** The MATCH filter: every key the scan delivers matches the pattern of `prefix`. */
  ghost predicate MatchFiltered(prefix: string, events: seq<ScanEvent>)
  {
    forall i, k :: 0 <= i < |events| && events[i].Batch? && k in events[i].keys ==>
      Matches(ScanPattern(prefix), k)
  }

  /** Every namespace key of `data` is delivered before the scan settles. */
  ghost predicate CoversNamespace(data: map<string, string>, prefix: string, events: seq<ScanEvent>)
  {
    NamespaceKeys(data, prefix) <= Deleted(events)
  }

  /**
   * Clear-all scope. When the scan delivers only keys matching its pattern
   * and, before it settles, every matching key of `data`, removing the
   * deleted keys leaves no key of the namespace and every other key as it was.
   */
  lemma ClearScope(data: map<string, string>, prefix: string, events: seq<ScanEvent>)
    requires MatchFiltered(prefix, events)
    requires CoversNamespace(data, prefix, events)
    ensures forall k :: k in data - Deleted(events) ==> !InNamespace(prefix, k)
    ensures forall k :: k in data && !InNamespace(prefix, k) ==>
      k in data - Deleted(events) && (data - Deleted(events))[k] == data[k]
  {
    MatchedBatchesStayInNamespace(prefix, events);
  }

  /** With no matching key in the store, clear-all changes nothing. */
  lemma EmptyNamespaceUntouched(data: map<string, string>, prefix: string, events: seq<ScanEvent>)
    requires MatchFiltered(prefix, events)
    requires NamespaceKeys(data, prefix) == {}
    ensures data - Deleted(events) == data
  {
    MatchedBatchesStayInNamespace(prefix, events);
    forall k | k in data ensures k !in Deleted(events) {
      assert k !in NamespaceKeys(data, prefix);
    }
    assert (data - Deleted(events)).Keys == data.Keys;
  }
}
