/** Where control goes in the runs of Preemption: what the loop finds when it wakes, what a task comes
    back to after a switch, when the scheduler is entered, and when the current task changes. */
module PreemptionReturns {
  import opened Ids
  import opened Sched
  import opened Preemption
  import Inherit = SchedPrioInherit

  // ----- Sleeping --------------------------------------------------------------------------------------------

  /** The events that the interrupts of steps i to j raise. */
  function Raised(actions: seq<Action>, i: nat, j: nat): BitSet
    requires i <= j <= |actions|
  {
    if i == j then {}
    else Raised(actions, i, j - 1) + (if actions[j - 1].Irq? then actions[j - 1].raised else {})
  }

  /** How many interrupts of steps i to j count a tick. */
  function Ticked(actions: seq<Action>, i: nat, j: nat): nat
    requires i <= j <= |actions|
  {
    if i == j then 0
    else Ticked(actions, i, j - 1) + (if actions[j - 1].Irq? && actions[j - 1].tick then 1 else 0)
  }

  lemma SleepStep(s: State, a: Action)
    requires Inv(s) && Enabled(s, a) && Asleep(s) && Asleep(Do(s, a))
    ensures a.Irq? && Do(s, a).events == s.events + a.raised
    ensures Do(s, a).ticks == if a.tick && s.ticks < 2 then s.ticks + 1 else s.ticks
  {
    hide Sched.Ok, Sched.Next;
  }

  /** Nobody sleeps on an event or a tick: those that wait while the loop sleeps are exactly the ones that interrupts
      brought since it fell asleep. */
  lemma {:induction false} SleepersMissNothing(states: seq<State>, actions: seq<Action>, i: nat, j: nat)
    requires IsRun(states, actions) && i < j < |states| == |actions| + 1
    requires !Asleep(states[i]) && forall k: nat | i < k <= j :: Asleep(states[k])
    ensures states[j].events == Raised(actions, i + 1, j)
    ensures states[j].ticks == if Ticked(actions, i + 1, j) > 2 then 2 else Ticked(actions, i + 1, j)
    decreases j
  {
    hide IsRun, Inv, Do, Enabled, Asleep;
    if j == i + 1 {
      FallsAsleepIdle(states, actions, i);
    } else {
      SleepersMissNothing(states, actions, i, j - 1);
      StepAt(states, actions, j - 1);
      SleepStep(states[j - 1], actions[j - 1]);
    }
  }

  // ----- Coming back -----------------------------------------------------------------------------------------

  lemma LoopKeepsTasks(s: State, a: Action)
    requires Inv(s) && Enabled(s, a) && s.pc.Scheduling?
    ensures var r := Do(s, a); r.saved == s.saved && r.current == s.current
    ensures var pc := Do(s, a).pc;
            pc.Halted? || ((pc.Scheduling? || pc.Decided?) && pc.caller == s.pc.caller)
  {
    hide Sched.Ok, Sched.Next;
  }

  /** Where a task comes back to when it was switched away by its own call or by an interrupt. */
  predicate IsBack(s: State, c: Caller) {
    match c
    case Yielding(ret) => s.pc == Resumed(ret) && s.preemptDisabled == ret && !s.irqEnabled
    case Interrupt => s.pc == App && !s.preemptDisabled && s.irqEnabled
  }

  /** The context that is saved for it in between. */
  function Context(c: Caller): Saved {
    match c
    case Yielding(ret) => Yielded(ret, ret)
    case Interrupt => Interrupted
  }

  ghost predicate IsAway(s: State, t: nat, c: Caller) {
    t < |s.saved| && s.saved[t] == Context(c)
  }

  lemma SwitchesAway(s: State, a: Action)
    requires Inv(s) && Enabled(s, a) && s.pc.Decided? && s.pc.to != s.current
    ensures Do(s, a).current == s.pc.to && IsAway(Do(s, a), s.current, s.pc.caller)
  {
    hide Sched.Ok, Sched.Next;
  }

  lemma AwayStep(s: State, a: Action, t: nat, c: Caller)
    requires Inv(s) && Enabled(s, a) && t != s.current && IsAway(s, t, c)
    ensures IsAway(Do(s, a), t, c)
    ensures Do(s, a).current == t ==> IsBack(Do(s, a), c)
  {
    hide Sched.Ok, Sched.Next;
    if s.pc.Scheduling? { LoopKeepsTasks(s, a); }
  }

  lemma {:induction false} StaysAway(states: seq<State>, actions: seq<Action>, i: nat, j: nat, t: nat, c: Caller)
    requires IsRun(states, actions) && i < j < |states|
    requires states[i].pc.Decided? && states[i].pc.caller == c && states[i].pc.to != states[i].current == t
    requires forall k: nat | i < k < j :: states[k].current != t
    ensures IsAway(states[j], t, c)
    ensures states[j].current == t ==> IsBack(states[j], c)
    decreases j
  {
    hide IsRun, Inv, Enabled, Do, IsBack, IsAway;
    RunLength(states, actions);
    StepAt(states, actions, j - 1);
    if i + 1 == j {
      SwitchesAway(states[i], actions[i]);
    } else {
      StaysAway(states, actions, i, j - 1, t, c);
      AwayStep(states[j - 1], actions[j - 1], t, c);
    }
  }

  /** A task that is switched away in yield_common(ret) or by an interrupt comes back, when it next is the current task,
      to where it left: to the end of yield_common with preemption as ret says, or to its own code with interrupts and
      preemption enabled.  Its saved context does not change while it is away. */
  lemma {:induction false} SwitchedTasksComeBack(states: seq<State>, actions: seq<Action>, i: nat, j: nat)
    requires IsRun(states, actions) && i < j < |states|
    requires states[i].pc.Decided? && states[i].pc.to != states[i].current
    requires forall k: nat | i < k < j :: states[k].current != states[i].current
    requires states[j].current == states[i].current
    ensures states[i].pc.caller.Yielding? ==>
              && states[j].pc == Resumed(states[i].pc.caller.returnDisabled)
              && states[j].preemptDisabled == states[i].pc.caller.returnDisabled
    ensures states[i].pc.caller.Interrupt? ==>
              states[j].pc == App && !states[j].preemptDisabled && states[j].irqEnabled
    ensures forall k: nat | i < k <= j :: IsAway(states[k], states[i].current, states[i].pc.caller)
  {
    hide IsRun, IsAway;
    var t, c := states[i].current, states[i].pc.caller;
    StaysAway(states, actions, i, j, t, c);
    forall k: nat | i < k <= j ensures IsAway(states[k], t, c) {
      StaysAway(states, actions, i, k, t, c);
    }
  }

  // ----- What a call or an interrupt returns to --------------------------------------------------------------

  /** The task executes its own code or a kernel call. */
  predicate Executes(s: State, t: nat) {
    s.current == t && (s.pc.App? || s.pc.Kernel?)
  }

  /** When task t next executes, it is in a kernel call; else in its own code. */
  predicate OwesKernel(s: State, t: nat)
    requires t < |s.saved|
  {
    if t == s.current then
      match s.pc
      case Kernel => true
      case Scheduling(c, _) => c.Yielding? && c.returnDisabled
      case Decided(c, _) => c.Yielding? && c.returnDisabled
      case Resumed(ret) => ret
      case _ => false
    else
      match s.saved[t]
      case Entry => true
      case Yielded(ret, _) => ret
      case Interrupted => false
  }

  ghost predicate SameDebt(s: State, r: State, t: nat) {
    && |r.saved| == |s.saved|
    && (t < |s.saved| && !r.pc.Halted? ==> (OwesKernel(r, t) <==> OwesKernel(s, t)))
  }

  lemma SwitchKeepsDebt(s: State, a: Action, t: nat)
    requires Inv(s) && Enabled(s, a) && s.pc.Decided?
    ensures SameDebt(s, Do(s, a), t)
  {
    hide Sched.Ok, Sched.Next;
  }

  lemma StepKeepsDebt(s: State, a: Action, t: nat)
    requires Inv(s) && Enabled(s, a) && (s.current == t ==> !a.PreemptDisable? && !a.PreemptEnable?)
    ensures SameDebt(s, Do(s, a), t)
  {
    hide Sched.Ok, Sched.Next;
    if s.pc.Scheduling? {
      LoopKeepsTasks(s, a);
    } else if s.pc.Decided? {
      SwitchKeepsDebt(s, a, t);
    }
  }

  lemma OwnStepOwes(s: State, a: Action)
    requires Inv(s) && Enabled(s, a) && Executes(s, s.current)
    ensures var t := Do(s, a);
            |t.saved| == |s.saved| && t.current == s.current && (OwesKernel(t, s.current) <==> (
              if a.PreemptDisable? then true else if a.PreemptEnable? then false else s.pc.Kernel?))
  {
    hide Sched.Ok, Sched.Next;
  }

  lemma HaltedStays(s: State, a: Action)
    requires Enabled(s, a)
    ensures !s.pc.Halted?
  {
    hide Sched.Ok, Sched.Next;
  }

  lemma {:induction false} OwedUntil(states: seq<State>, actions: seq<Action>, i: nat, j: nat, t: nat)
    requires IsRun(states, actions) && i < j < |states| && Executes(states[i], t)
    requires forall k: nat | i < k < j :: !Executes(states[k], t)
    requires !states[j].pc.Halted?
    ensures t < |states[j].saved|
    ensures OwesKernel(states[j], t) <==> (if actions[i].PreemptDisable? then true
                                           else if actions[i].PreemptEnable? then false else states[i].pc.Kernel?)
    decreases j
  {
    hide IsRun, Inv, Enabled, Do, OwesKernel;
    RunLength(states, actions);
    StepAt(states, actions, j - 1);
    if i + 1 == j {
      OwnStepOwes(states[i], actions[i]);
    } else {
      HaltedStays(states[j - 1], actions[j - 1]);
      OwedUntil(states, actions, i, j - 1, t);
      OnlyExecutorsToggle(states[j - 1], actions[j - 1], t);
      StepKeepsDebt(states[j - 1], actions[j - 1], t);
    }
  }

  lemma OnlyExecutorsToggle(s: State, a: Action, t: nat)
    requires Enabled(s, a) && !Executes(s, t)
    ensures s.current == t ==> !a.PreemptDisable? && !a.PreemptEnable?
  {
    hide Sched.Ok, Sched.Next;
  }

  /** Control returns to where it left.  After preempt_enable() a task next executes its own code, with preemption and
      interrupts enabled; after block() or yield() it next executes its kernel call, with preemption disabled; an
      interrupt comes back to what it interrupted; whatever is scheduled, raised and switched in between. */
  lemma {:induction false} ControlReturns(states: seq<State>, actions: seq<Action>, i: nat, j: nat, t: nat)
    requires IsRun(states, actions) && i < j < |states|
    requires Executes(states[i], t) && Executes(states[j], t)
    requires forall k: nat | i < k < j :: !Executes(states[k], t)
    ensures actions[i].PreemptEnable? ==> states[j].pc == App && !states[j].preemptDisabled && states[j].irqEnabled
    ensures actions[i].PreemptDisable? || actions[i].BlockOn? || actions[i].Yield? ==>
              states[j].pc == Kernel && states[j].preemptDisabled && states[j].irqEnabled
    ensures actions[i].Irq? ==> states[j].pc == states[i].pc
  {
    hide IsRun, Sched.Ok, Sched.Next;
    RunLength(states, actions);
    StepAt(states, actions, i);
    RunKeepsInv(states, actions, j);
    OwedUntil(states, actions, i, j, t);
  }

  // ----- When the scheduler runs and the task changes --------------------------------------------------------

  /** The loop starts in a step. */
  predicate EntersLoop(s: State, t: State) {
    !s.pc.Scheduling? && t.pc.Scheduling?
  }

  /** The scheduling loop starts exactly when the task blocks or yields, when an interrupt finds preemption enabled, and
      when preempt_enable() finds a preemption pending; and who started it stays recorded until it has decided. */
  lemma SchedulerRunsWhenNeeded(states: seq<State>, actions: seq<Action>, i: nat)
    requires IsRun(states, actions) && i < |actions|
    ensures var s, a, t := states[i], actions[i], states[i + 1];
            && (EntersLoop(s, t) <==> a.BlockOn? || a.Yield? || (a.Irq? && !s.preemptDisabled)
                                      || (s.pc.EnableTest? && s.preemptPending))
            && (EntersLoop(s, t) ==> t.pc.point.LoopTop?)
            && (EntersLoop(s, t) ==>
                  t.pc.caller == if a.Irq? then Interrupt else Yielding(a.BlockOn? || a.Yield?))
            && (s.pc.Scheduling? && t.pc.Scheduling? ==> t.pc.caller == s.pc.caller)
            && (t.pc.Decided? ==> s.pc.Scheduling? && t.pc.caller == s.pc.caller)
  {
    hide IsRun, Sched.Ok, Sched.Next;
    StepAt(states, actions, i);
  }

  /** The current task changes only to the task the scheduler picks, with nothing pending. */
  lemma OnlySwitchesToScheduled(states: seq<State>, actions: seq<Action>, i: nat)
    requires IsRun(states, actions) && i < |actions| && states[i].sched.Ok()
    requires states[i + 1].current != states[i].current
    ensures states[i].sched.Next() == Inherit.Chosen(states[i + 1].current) && states[i + 1].sched == states[i].sched
    ensures !states[i].preemptPending && states[i].events == {} && states[i].ticks == 0
  {
    hide IsRun, Sched.Ok, Sched.Next;
    StepAt(states, actions, i);
  }

  lemma PendingStep(s: State, a: Action)
    requires Enabled(s, a)
    ensures a.Irq? || a.Unblock? || a.UnlockMutex? || a.Deliver? ==> Do(s, a).preemptPending
    ensures s.preemptPending && !Do(s, a).preemptPending ==> s.pc.Scheduling? && s.pc.point.Snapshot?
  {
    hide Sched.Ok, Sched.Next;
  }

  /** A pending preemption stays pending until a pass of the loop starts. */
  lemma {:induction false} PendingIsLookedAt(states: seq<State>, actions: seq<Action>, i: nat, j: nat)
    requires IsRun(states, actions) && i < j < |states|
    requires actions[i].Irq? || actions[i].Unblock? || actions[i].UnlockMutex? || actions[i].Deliver?
    requires !states[j].preemptPending
    ensures exists k: nat :: i < k < j && states[k].pc.Scheduling? && states[k].pc.point.Snapshot?
    decreases j
  {
    hide IsRun, Inv, Enabled, Do;
    RunLength(states, actions);
    StepAt(states, actions, j - 1);
    PendingStep(states[j - 1], actions[j - 1]);
    if i + 1 < j && !states[j - 1].preemptPending {
      PendingIsLookedAt(states, actions, i, j - 1);
    }
  }
}
