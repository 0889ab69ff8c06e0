/** What the scheduling loop of Preemption does with the events and ticks of a run, counted from its actions. */
module PreemptionAccounts {
  import opened Ids
  import opened Sched
  import opened Preemption
  import opened PreemptionReturns
  import opened Counting
  import Inherit = SchedPrioInherit

  // ----- Events ----------------------------------------------------------------------------------------------

  predicate Raises(a: Action, e: nat) {
    a.Irq? && e in a.raised
  }

  predicate Handling(s: State, a: Action) {
    a.Deliver? && s.pc.Scheduling? && s.pc.point.Act?
  }

  /** The step calls interrupt_event_handle(e). */
  predicate Handles(s: State, a: Action, e: nat) {
    Handling(s, a) && s.pc.point.i == e
  }

  lemma RaisedStays(s: State, a: Action, e: nat)
    requires Inv(s) && Enabled(s, a) && !Erases(s, a)
    requires e in s.events + InHand(s) || Raises(a, e)
    ensures e in Do(s, a).events + InHand(Do(s, a)) || Handles(s, a, e)
  {
    hide Sched.Ok, Sched.Next;
  }

  lemma {:induction false} RaisedUntil(states: seq<State>, actions: seq<Action>, e: nat, i: nat, j: nat)
    requires IsRun(states, actions) && i < j < |states| == |actions| + 1 && Raises(actions[i], e)
    requires forall k: nat | i <= k < j :: !Erases(states[k], actions[k])
    ensures e in states[j].events + InHand(states[j]) || exists k: nat :: i < k < j && Handles(states[k], actions[k], e)
    decreases j
  {
    hide IsRun, Inv, Enabled, Do, Erases, InHand;
    StepAt(states, actions, j - 1);
    if i + 1 < j {
      RaisedUntil(states, actions, e, i, j - 1);
    }
    if i + 1 == j || e in states[j - 1].events + InHand(states[j - 1]) {
      RaisedStays(states[j - 1], actions[j - 1], e);
    }
  }

  /** An event that an interrupt raises is handled by a later step, before interrupts and preemption are next both
      enabled, unless a store that clears another bit erases a raise meanwhile. */
  lemma {:induction false} RaiseIsHandled(states: seq<State>, actions: seq<Action>, e: nat, i: nat, j: nat)
    requires IsRun(states, actions) && i < j < |states| == |actions| + 1 && Raises(actions[i], e)
    requires states[j].irqEnabled && !states[j].preemptDisabled
    requires forall k: nat | i <= k < j :: !Erases(states[k], actions[k])
    ensures exists k: nat :: i < k < j && Handles(states[k], actions[k], e)
  {
    RaisedUntil(states, actions, e, i, j);
    RunKeepsInv(states, actions, j);
    hide IsRun, Sched.Ok, Sched.Next;
  }

  /** The loop's copy of the events, less the handled ones. */
  function Copy(s: State): BitSet {
    if !s.pc.Scheduling? then {}
    else match s.pc.point
      case Handle(todo) => todo
      case Store(todo, _, _) => todo
      case Act(todo, _) => todo
      case _ => {}
  }

  /** How often event e is still to be handled: once for the copy, once if it was raised after its bit was cleared. */
  function Credit(s: State, e: nat): nat {
    var cleared := s.pc.Scheduling? && s.pc.point.Act? && s.pc.point.i == e;
    (if e in Copy(s) then 1 else 0) + (if e in s.events && (cleared || e !in Copy(s)) then 1 else 0)
  }

  lemma CreditStep(s: State, a: Action, e: nat)
    requires Inv(s) && Enabled(s, a)
    ensures Credit(Do(s, a), e) + (if Handles(s, a, e) then 1 else 0) <= Credit(s, e) + (if Raises(a, e) then 1 else 0)
  {
    hide Sched.Ok, Sched.Next;
  }

  ghost function RaiseSteps(actions: seq<Action>, e: nat): nat -> bool {
    (k: nat) => k < |actions| && Raises(actions[k], e)
  }

  ghost function HandleSteps(states: seq<State>, actions: seq<Action>, e: nat): nat -> bool {
    (k: nat) => k < |actions| && k < |states| && Handles(states[k], actions[k], e)
  }

  lemma StartOwesNothing(states: seq<State>, actions: seq<Action>, e: nat)
    requires IsRun(states, actions)
    ensures Credit(states[0], e) == 0 && TickAccount(states[0], states[0].timers, 0, 0, 0)
  {
  }

  /** No event is handled more often than it was raised. */
  lemma {:induction false} HandledWasRaised(states: seq<State>, actions: seq<Action>, e: nat, i: nat)
    requires IsRun(states, actions) && i < |states|
    ensures Count(i, HandleSteps(states, actions, e)) + Credit(states[i], e) <= Count(i, RaiseSteps(actions, e))
  {
    hide IsRun, Inv, Enabled, Do, Credit, Handles, Raises;
    RunLength(states, actions);
    if i == 0 {
      StartOwesNothing(states, actions, e);
    } else {
      HandledWasRaised(states, actions, e, i - 1);
      StepAt(states, actions, i - 1);
      CreditStep(states[i - 1], actions[i - 1], e);
    }
  }

  // ----- One pass over the events ----------------------------------------------------------------------------

  /** The events handled in steps i to j, in order. */
  ghost function Handled(states: seq<State>, actions: seq<Action>, i: nat, j: nat): seq<nat>
    requires i <= j <= |actions| && |states| == |actions| + 1
  {
    if i == j then []
    else Handled(states, actions, i, j - 1)
         + (if Handling(states[j - 1], actions[j - 1]) then [states[j - 1].pc.point.i] else [])
  }

  predicate InPass(s: State) {
    s.pc.Scheduling? && (s.pc.point.Handle? || s.pc.point.Store? || s.pc.point.Act?)
  }

  predicate AtPoint(s: State, p: Point) {
    s.pc.Scheduling? && s.pc.point == p
  }

  /** The events handled so far and the rest of the copy make up `all`, and come in ascending order. */
  ghost predicate HandledUpTo(done: seq<nat>, rest: BitSet, all: BitSet) {
    && (forall e: nat :: e in all <==> e in done || e in rest)
    && (forall k: nat, l: nat | k < l < |done| :: done[k] < done[l])
    && forall e, f | e in done && f in rest :: e < f
  }

  lemma HandledNext(done: seq<nat>, rest: BitSet, all: BitSet, i: nat)
    requires HandledUpTo(done, rest, all) && IsLowest(rest, i)
    ensures HandledUpTo(done + [i], rest - {i}, all)
  {
    var next := done + [i];
    assert forall e: nat :: e in next <==> e in done || e == i;
    forall k: nat, l: nat | k < l < |next| ensures next[k] < next[l] {
      assert next[k] in done;
    }
  }

  lemma PassStep(s: State, a: Action, done: seq<nat>, all: BitSet)
    requires Inv(s) && Enabled(s, a) && InPass(s) && HandledUpTo(done, Copy(s), all)
    ensures HandledUpTo(done + (if Handling(s, a) then [s.pc.point.i] else []), Copy(Do(s, a)), all)
  {
    hide Sched.Ok, Sched.Next;
    assert Inv(s) && s.preemptDisabled;
    if Handling(s, a) {
      var i := s.pc.point.i;
      assert IsLowest(Copy(s), i) && Copy(Do(s, a)) == Copy(s) - {i};
      HandledNext(done, Copy(s), all, i);
    } else {
      assert done + [] == done && Copy(Do(s, a)) == Copy(s);
    }
  }

  lemma PassStart(s: State, a: Action)
    requires Inv(s) && Enabled(s, a) && AtPoint(s, Snapshot) && InPass(Do(s, a))
    ensures Copy(Do(s, a)) == s.events
  {
    hide Sched.Ok, Sched.Next;
  }

  lemma {:induction false} PassSoFar(states: seq<State>, actions: seq<Action>, i: nat, j: nat)
    requires IsRun(states, actions) && i < j < |states| == |actions| + 1
    requires AtPoint(states[i], Snapshot) && forall k: nat | i < k < j :: InPass(states[k])
    requires InPass(states[i + 1])
    ensures HandledUpTo(Handled(states, actions, i + 1, j), Copy(states[j]), states[i].events)
    decreases j
  {
    hide IsRun, Inv, Enabled, Do, Handling, HandledUpTo, Copy, InPass, AtPoint;
    if i + 1 < j {
      PassSoFar(states, actions, i, j - 1);
      StepAt(states, actions, j - 1);
      PassStep(states[j - 1], actions[j - 1], Handled(states, actions, i + 1, j - 1), states[i].events);
    } else {
      StepAt(states, actions, i);
      PassStart(states[i], actions[i]);
      NothingHandled(states[i].events);
    }
  }

  lemma NothingHandled(all: BitSet)
    ensures HandledUpTo([], all, all)
  {
  }

  /** A pass of interrupt_event_process handles the events that were raised when it started, each exactly once and in
      ascending order, whatever interrupts raise meanwhile. */
  lemma {:induction false} PassHandlesTheSnapshot(states: seq<State>, actions: seq<Action>, i: nat, j: nat)
    requires IsRun(states, actions) && i + 1 < j < |states| == |actions| + 1
    requires AtPoint(states[i], Snapshot) && AtPoint(states[j], Ticks)
    requires forall k: nat | i < k < j :: InPass(states[k])
    ensures var done := Handled(states, actions, i + 1, j);
            && (forall e: nat :: e in states[i].events <==> e in done)
            && forall k: nat, l: nat | k < l < |done| :: done[k] < done[l]
  {
    hide IsRun, Handled;
    PassSoFar(states, actions, i, j);
    assert Copy(states[j]) == {};
  }

  // ----- Ticks -----------------------------------------------------------------------------------------------

  predicate CountsTick(a: Action) {
    a.Irq? && a.tick
  }

  /** The loop takes the one tick that is pending. */
  predicate TakesTick(s: State, a: Action) {
    a == Go && AtPoint(s, Ticks) && s.ticks == 1
  }

  /** The loop looks at a timer, and may signal a task. */
  predicate LooksAtTimer(s: State, a: Action) {
    !a.Irq? && s.pc.Scheduling? && s.pc.point.Expire? && s.pc.point.left > 0
  }

  function TimersLeft(s: State): nat {
    if s.pc.Scheduling? && s.pc.point.Expire? then s.pc.point.left else 0
  }

  ghost function TickSteps(actions: seq<Action>): nat -> bool {
    (k: nat) => k < |actions| && CountsTick(actions[k])
  }

  ghost function TakeSteps(states: seq<State>, actions: seq<Action>): nat -> bool {
    (k: nat) => k < |actions| && k < |states| && TakesTick(states[k], actions[k])
  }

  ghost function LookSteps(states: seq<State>, actions: seq<Action>): nat -> bool {
    (k: nat) => k < |actions| && k < |states| && LooksAtTimer(states[k], actions[k])
  }

  /** The ticks counted and not yet taken are the pending ones, up to two; the timers were looked at once for each tick
      taken, but for those the loop is still to look at. */
  ghost predicate TickAccount(s: State, timers: nat, counted: nat, taken: nat, looks: nat) {
    && s.timers == timers
    && (!s.pc.Halted? ==> taken <= counted && s.ticks == if counted - taken > 2 then 2 else counted - taken)
    && looks + TimersLeft(s) == timers * taken
  }

  lemma TickStep(s: State, a: Action, timers: nat, counted: nat, taken: nat, looks: nat)
    requires Inv(s) && Enabled(s, a) && TickAccount(s, timers, counted, taken, looks)
    ensures TickAccount(Do(s, a), timers,
                        counted + (if CountsTick(a) then 1 else 0), taken + (if TakesTick(s, a) then 1 else 0),
                        looks + (if LooksAtTimer(s, a) then 1 else 0))
  {
    hide Sched.Ok, Sched.Next;
    assert !s.pc.Halted?;
    assert timers * (taken + 1) == timers * taken + timers;
  }

  lemma {:induction false} TicksAreAccounted(states: seq<State>, actions: seq<Action>, i: nat)
    requires IsRun(states, actions) && i < |states|
    ensures TickAccount(states[i], states[0].timers, Count(i, TickSteps(actions)),
                        Count(i, TakeSteps(states, actions)), Count(i, LookSteps(states, actions)))
  {
    hide IsRun, Inv, Enabled, Do, TickAccount, CountsTick, TakesTick, LooksAtTimer;
    RunLength(states, actions);
    if i == 0 {
      StartOwesNothing(states, actions, 0);
    } else {
      TicksAreAccounted(states, actions, i - 1);
      StepAt(states, actions, i - 1);
      TickStep(states[i - 1], actions[i - 1], states[0].timers, Count(i - 1, TickSteps(actions)),
               Count(i - 1, TakeSteps(states, actions)), Count(i - 1, LookSteps(states, actions)));
    }
  }

  /** Whenever interrupts and preemption are both enabled, every timer has been looked at exactly once for every tick
      that interrupts counted. */
  lemma {:induction false} EveryTickReachesTheTimers(states: seq<State>, actions: seq<Action>, i: nat)
    requires IsRun(states, actions) && i < |states|
    requires states[i].irqEnabled && !states[i].preemptDisabled
    ensures Count(i, TakeSteps(states, actions)) == Count(i, TickSteps(actions))
    ensures Count(i, LookSteps(states, actions)) == states[0].timers * Count(i, TickSteps(actions))
  {
    TicksAreAccounted(states, actions, i);
    RunKeepsInv(states, actions, i);
    hide IsRun, Sched.Ok, Sched.Next;
  }

  lemma HaltStep(s: State, a: Action)
    requires Inv(s) && Enabled(s, a)
    ensures !s.pc.Halted?
    ensures Do(s, a).pc.Halted? <==>
              a == Go && ((AtPoint(s, Ticks) && s.ticks > 1)
                          || (AtPoint(s, Pick) && s.sched.Next().Chosen? && s.sched.Next().task >= |s.saved|))
  {
    hide Sched.Ok, Sched.Next;
  }

  /** The run halts exactly when the loop looks for ticks and finds two or more counted since it took the last, or when
      the scheduler picks something that is no task. */
  lemma {:induction false} HaltsExactlyWhen(states: seq<State>, actions: seq<Action>, i: nat)
    requires IsRun(states, actions) && i < |actions| && |states| == |actions| + 1
    ensures states[i].sched.Ok() && !states[i].pc.Halted?
    ensures states[i + 1].pc.Halted? <==>
            && actions[i] == Go
            && ((AtPoint(states[i], Ticks)
                 && Count(i, TickSteps(actions)) >= Count(i, TakeSteps(states, actions)) + 2)
                || (AtPoint(states[i], Pick) && states[i].sched.Next().Chosen?
                    && states[i].sched.Next().task >= |states[i].saved|))
  {
    hide IsRun, Enabled, Do;
    TicksAreAccounted(states, actions, i);
    StepAt(states, actions, i);
    HaltStep(states[i], actions[i]);
  }
}
