/** Raising and processing interrupt events with atomic bit stores (components/interrupt-event-armv7m), with interrupts
    between any two accesses to the word of pending events. */
module InterruptEvents {
  import opened Ids

  datatype Handler = Handler(task: nat, sigSet: BitSet)

  /** Accesses to the word, and handlings, in the order in which they happen. */
  datatype Access = Raise(event: nat) | Clear(event: nat) | Handle(event: nat)

  /** The event was raised and has not been cleared since. */
  ghost predicate Owed(log: seq<Access>, i: nat) {
    exists p :: 0 <= p < |log| && log[p] == Raise(i) && forall q | p < q < |log| :: log[q] != Clear(i)
  }

  ghost predicate HandledAfter(log: seq<Access>, p: nat, i: nat) {
    exists h :: p < h < |log| && log[h] == Handle(i)
  }

  /** Every event cleared is handled afterwards. */
  ghost predicate ClearedAreHandled(log: seq<Access>) {
    forall p: nat | p < |log| && log[p].Clear? :: HandledAfter(log, p, log[p].event)
  }

  lemma Appended(log: seq<Access>, a: Access, i: nat)
    ensures Owed(log + [a], i) <==> a == Raise(i) || (Owed(log, i) && a != Clear(i))
  {
    var longer := log + [a];
    if Owed(log, i) && a != Clear(i) {
      var p :| 0 <= p < |log| && log[p] == Raise(i) && forall q | p < q < |log| :: log[q] != Clear(i);
      assert longer[p] == Raise(i);
    }
    if a == Raise(i) { assert longer[|log|] == Raise(i); }
    if Owed(longer, i) && a != Raise(i) {
      var p :| 0 <= p < |longer| && longer[p] == Raise(i) && forall q | p < q < |longer| :: longer[q] != Clear(i);
      assert log[p] == Raise(i) && longer[|log|] == a;
      forall q | p < q < |log| ensures log[q] != Clear(i) { assert longer[q] == log[q]; }
    }
  }

  /** A raise is followed by a handling of its event that begins after it, unless the event is still pending. */
  lemma RaisesAreServed(log: seq<Access>, p: nat, i: nat)
    requires ClearedAreHandled(log) && p < |log| && log[p] == Raise(i)
    ensures Owed(log, i) || HandledAfter(log, p, i)
  {
    if !Owed(log, i) {
      var q :| p < q < |log| && log[q] == Clear(i);
      assert HandledAfter(log, q, i);
    }
  }

  /** Accesses that clear at most event i, at c, and end with its handling keep every cleared event handled. */
  lemma HandlingServes(before: seq<Access>, after: seq<Access>, c: nat, i: nat)
    requires ClearedAreHandled(before) && |before| <= c < |after| - 1 && before == after[..|before|]
    requires forall p | |before| <= p < |after| && p != c :: !after[p].Clear?
    requires after[c] == Clear(i) && after[|after| - 1] == Handle(i)
    ensures ClearedAreHandled(after)
  {
    forall p: nat | p < |after| && after[p].Clear? ensures HandledAfter(after, p, after[p].event) {
      if p < |before| {
        assert HandledAfter(before, p, before[p].event);
        var h :| p < h < |before| && before[h] == Handle(before[p].event);
        assert after[h] == before[h];
      } else {
        assert p == c;
      }
    }
  }

  lemma RaisesKeepServed(before: seq<Access>, after: seq<Access>)
    requires ClearedAreHandled(before) && |before| <= |after| && before == after[..|before|]
    requires forall p | |before| <= p < |after| :: after[p].Raise?
    ensures ClearedAreHandled(after)
  {
    forall p: nat | p < |after| && after[p].Clear? ensures HandledAfter(after, p, after[p].event) {
      assert HandledAfter(before, p, before[p].event);
      var h :| p < h < |before| && before[h] == Handle(before[p].event);
      assert after[h] == before[h];
    }
  }

  /** The events handled, in order. */
  function Handlings(log: seq<Access>): seq<nat> {
    if log == [] then []
    else Handlings(log[..|log| - 1]) + if log[|log| - 1].Handle? then [log[|log| - 1].event] else []
  }

  lemma HandlingsOfMore(log: seq<Access>, a: Access)
    ensures Handlings(log + [a]) == Handlings(log) + if a.Handle? then [a.event] else []
  {
    assert (log + [a])[..|log|] == log;
  }

  /** What is handled beyond a prefix of the log is in the log behind that prefix. */
  lemma {:induction false} HandledBeyond(before: seq<Access>, after: seq<Access>, k: nat)
    requires |before| <= |after| && before == after[..|before|] && |Handlings(before)| <= k < |Handlings(after)|
    ensures exists h :: |before| <= h < |after| && after[h] == Handle(Handlings(after)[k])
    decreases |after|
  {
    assert |before| == |after| ==> after == before;
    if |before| < |after| {
      var n := |after| - 1;
      assert after == after[..n] + [after[n]];
      HandlingsOfMore(after[..n], after[n]);
      if k < |Handlings(after[..n])| {
        HandledBeyond(before, after[..n], k);
      } else {
        assert after[n] == Handle(Handlings(after)[k]);
      }
    }
  }

  /** Every raise before the call of the loop has a handling after it when the loop is done. */
  lemma EarlierRaisesServed(before: seq<Access>, after: seq<Access>, handled: seq<nat>, p: nat, i: nat)
    requires ClearedAreHandled(before) && p < |before| && before[p] == Raise(i)
    requires |before| <= |after| && before == after[..|before|] && Handlings(after) == Handlings(before) + handled
    requires Owed(before, i) ==> i in handled
    ensures HandledAfter(after, p, i)
  {
    RaisesAreServed(before, p, i);
    hide Owed, ClearedAreHandled, Handlings;
    if Owed(before, i) {
      var k :| 0 <= k < |handled| && handled[k] == i;
      HandledBeyond(before, after, |Handlings(before)| + k);
    } else {
      var h :| p < h < |before| && before[h] == Handle(i);
      assert after[h] == before[h];
    }
  }

  /** The events in ascending order, each once. */
  function Ascending(events: BitSet): seq<nat>
    decreases |events|
  {
    if events == {} then [] else [Lowest(events)] + Ascending(events - {Lowest(events)})
  }

  lemma {:induction false} AscendingIsSorted(events: BitSet)
    ensures forall i: nat :: i in Ascending(events) <==> i in events
    ensures forall j, k | 0 <= j < k < |Ascending(events)| :: Ascending(events)[j] < Ascending(events)[k]
    ensures |Ascending(events)| == |events|
    decreases |events|
  {
    if events != {} {
      var first := Lowest(events);
      AscendingIsSorted(events - {first});
      assert Ascending(events) == [first] + Ascending(events - {first});
      forall k | 0 < k < |Ascending(events)| ensures first < Ascending(events)[k] {
        assert Ascending(events)[k] in events - {first};
      }
    }
  }

  /** The signals that the handlers of the given events send to task t. */
  function Sent(handlers: seq<Handler>, events: seq<nat>, t: nat): BitSet {
    if events == [] then {}
    else
      var i := events[|events| - 1];
      Sent(handlers, events[..|events| - 1], t)
      + if i < |handlers| && handlers[i].task == t then handlers[i].sigSet else {}
  }

  /** The signals pending after the given events have been handled. */
  ghost predicate AfterHandling(handlers: seq<Handler>, was: seq<BitSet>, events: seq<nat>, now: seq<BitSet>) {
    |now| == |was| && forall t: nat | t < |was| :: now[t] == was[t] + Sent(handlers, events, t)
  }

  lemma NothingHandled(handlers: seq<Handler>, was: seq<BitSet>)
    ensures AfterHandling(handlers, was, [], was)
  {
  }

  lemma OneMoreHandled(handlers: seq<Handler>, was: seq<BitSet>, events: seq<nat>, now: seq<BitSet>, i: nat,
                       next: seq<BitSet>)
    requires i < |handlers| && AfterHandling(handlers, was, events, now) && |next| == |now|
    requires forall t: nat | t < |now| :: next[t] == now[t] + if handlers[i].task == t then handlers[i].sigSet else {}
    ensures AfterHandling(handlers, was, events + [i], next)
  {
    assert (events + [i])[..|events|] == events;
  }

  lemma AscendingNext(events: BitSet)
    requires events != {}
    ensures Ascending(events) == [Lowest(events)] + Ascending(events - {Lowest(events)})
  {
  }

  class System {
    const handlers: seq<Handler>
    const signals: array<BitSet>   // pending, by task
    var word: BitSet               // the pending events
    ghost var log: seq<Access>

    predicate Known(events: BitSet) {
      forall i | i in events :: i < |handlers|
    }

    ghost predicate Ok()
      reads this
    {
      && (forall h | 0 <= h < |handlers| :: handlers[h].task < signals.Length)
      && Known(word)
      && forall i: nat :: i in word <==> Owed(log, i)
    }

    ghost predicate Valid()
      reads this
    {
      Ok() && ClearedAreHandled(log)
    }

    /** interrupt_event_raise: one atomic bit store. */
    method RaiseEvent(i: nat)
      requires Ok() && i < |handlers|
      modifies this`word, this`log
      ensures Ok() && word == old(word) + {i} && log == old(log) + [Raise(i)]
    {
      word := word + {i};
      log := log + [Raise(i)];
      forall j: nat ensures j in word <==> Owed(log, j) { Appended(old(log), Raise(i), j); }
    }

    /** The interrupts between two accesses raise any events. */
    method Interrupts(raised: BitSet)
      requires Ok() && Known(raised)
      modifies this`word, this`log
      ensures Ok() && word == old(word) + raised
      ensures |old(log)| <= |log| && old(log) == log[..|old(log)|]
      ensures forall p | |old(log)| <= p < |log| :: log[p].Raise?
      ensures Handlings(log) == Handlings(old(log))
    {
      var rest := raised;
      while rest != {}
        invariant rest <= raised && Ok() && word == old(word) + (raised - rest)
        invariant |old(log)| <= |log| && old(log) == log[..|old(log)|]
        invariant forall p | |old(log)| <= p < |log| :: log[p].Raise?
        invariant Handlings(log) == Handlings(old(log))
        decreases rest
      {
        var i := Lowest(rest);
        HandlingsOfMore(log, Raise(i));
        RaiseEvent(i);
        rest := rest - {i};
      }
    }

    method ClearEvent(i: nat)
      requires Ok()
      modifies this`word, this`log
      ensures Ok() && word == old(word) - {i} && log == old(log) + [Clear(i)]
    {
      word := word - {i};
      log := log + [Clear(i)];
      forall j: nat ensures j in word <==> Owed(log, j) { Appended(old(log), Clear(i), j); }
    }

    /** interrupt_event_handle */
    method HandleEvent(i: nat)
      requires Ok() && i < |handlers|
      modifies signals, this`log
      ensures Ok() && log == old(log) + [Handle(i)]
      ensures forall t | 0 <= t < signals.Length ::
                signals[t] == old(signals[t]) + if handlers[i].task == t then handlers[i].sigSet else {}
    {
      signals[handlers[i].task] := signals[handlers[i].task] + handlers[i].sigSet;
      log := log + [Handle(i)];
      forall j: nat ensures j in word <==> Owed(log, j) { Appended(old(log), Handle(i), j); }
    }

    /** One round of the loop of interrupt_event_process: event i is cleared and then handled. */
    method ClearAndHandle(i: nat, first: BitSet, second: BitSet)
      requires Valid() && i < |handlers| && Known(first) && Known(second)
      modifies this`word, this`log, signals
      ensures Valid()
      ensures word == (old(word) + first) - {i} + second
      ensures |old(log)| <= |log| && old(log) == log[..|old(log)|]
      ensures Handlings(log) == Handlings(old(log)) + [i]
      ensures forall t | 0 <= t < signals.Length ::
                signals[t] == old(signals[t]) + if handlers[i].task == t then handlers[i].sigSet else {}
    {
      hide Owed, ClearedAreHandled, Handlings;
      Interrupts(first);
      ghost var c := |log|;
      HandlingsOfMore(log, Clear(i));
      ClearEvent(i);
      Interrupts(second);
      HandlingsOfMore(log, Handle(i));
      HandleEvent(i);
      HandlingServes(old(log), log, c, i);
    }

    /** interrupt_event_process.  Between any two accesses arbitrary events are raised: arrivals(k) before access k.
        The call handles each event of its snapshot exactly once, in ascending order, and returns, however many events
        arrive; every raise before the call has a handling after it, and an event that arrives after its own bit was
        cleared stays pending. */
    method Process(arrivals: nat -> BitSet)
      requires Valid() && forall k :: Known(arrivals(k))
      modifies this`word, this`log, signals
      ensures Valid()
      ensures Handlings(log) == Handlings(old(log)) + Ascending(old(word) + arrivals(0))
      ensures AfterHandling(handlers, old(signals[..]), Ascending(old(word) + arrivals(0)), signals[..])
      ensures forall p: nat | p < |old(log)| && old(log)[p].Raise? :: HandledAfter(log, p, old(log)[p].event)
    {
      hide Owed, ClearedAreHandled, Handlings, AfterHandling;
      NothingHandled(handlers, signals[..]);
      Interrupts(arrivals(0));
      RaisesKeepServed(old(log), log);
      ghost var handled := HandleAll(word, arrivals);
      AscendingIsSorted(old(word) + arrivals(0));
      forall p: nat | p < |old(log)| && old(log)[p].Raise? ensures HandledAfter(log, p, old(log)[p].event) {
        EarlierRaisesServed(old(log), log, handled, p, old(log)[p].event);
      }
    }

    /** The loop over the snapshot. */
    method HandleAll(snapshot: BitSet, arrivals: nat -> BitSet) returns (ghost handled: seq<nat>)
      requires Valid() && Known(snapshot) && forall k :: Known(arrivals(k))
      modifies this`word, this`log, signals
      ensures Valid() && handled == Ascending(snapshot)
      ensures |old(log)| <= |log| && old(log) == log[..|old(log)|]
      ensures Handlings(log) == Handlings(old(log)) + handled
      ensures AfterHandling(handlers, old(signals[..]), handled, signals[..])
    {
      hide Owed, ClearedAreHandled, Handlings, AfterHandling, Ascending;
      NothingHandled(handlers, signals[..]);
      var tmp, k := snapshot, 1;
      handled := [];
      while tmp != {}
        invariant Valid() && Known(tmp)
        invariant handled + Ascending(tmp) == Ascending(snapshot)
        invariant |old(log)| <= |log| && old(log) == log[..|old(log)|]
        invariant Handlings(log) == Handlings(old(log)) + handled
        invariant AfterHandling(handlers, old(signals[..]), handled, signals[..])
        decreases tmp
      {
        var i := Lowest(tmp);
        AscendingNext(tmp);
        ghost var was := signals[..];
        ClearAndHandle(i, arrivals(k), arrivals(k + 1));
        OneMoreHandled(handlers, old(signals[..]), handled, was, i, signals[..]);
        assert handled + ([i] + Ascending(tmp - {i})) == (handled + [i]) + Ascending(tmp - {i});
        handled := handled + [i];
        tmp := tmp - {i};
        k := k + 2;
      }
      AscendingOfNone();
    }
  }

  lemma AscendingOfNone()
    ensures Ascending({}) == []
  {
  }
}
