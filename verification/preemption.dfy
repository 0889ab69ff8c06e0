/** Preemption under interrupts on ppce500: components/context-switch-preempt-ppce500,
    components/interrupt-event, components/interrupt-event-ppce500 and the interrupt wrapper of
    packages/ppce500/vectable.s, as one state machine.

    A step is one access to the state that interrupts share, or one stretch of code run with interrupts disabled.
    While interrupts are enabled an interrupt step can come between any two steps. */
module Preemption {
  import opened Ids
  import opened Sched
  import Inherit = SchedPrioInherit

  /** Who runs the scheduling loop: yield_common with its argument, or the interrupt wrapper. */
  datatype Caller = Yielding(returnDisabled: bool) | Interrupt

  /** Where the scheduling loop stands (preempt_irq_invoke_scheduler around interrupt_event_get_next). */
  datatype Point =
    | LoopTop                                  // about to enable interrupts
    | Snapshot                                 // interrupt_event_process: about to clear pending and copy the events
    | Handle(todo: BitSet)                     // the while loop over the copy
    | Store(todo: BitSet, i: nat, word: BitSet)  // interrupt_event &= ~(1 << i): loaded and masked, not yet stored
    | Act(todo: BitSet, i: nat)                // about to call interrupt_event_handle(i)
    | Ticks                                    // timer_tick_process: about to get and clear the ticks
    | Expire(left: nat)                        // the loop over the timers, with so many still to look at
    | Pick                                     // about to call sched_get_next
    | IdleTest                                 // interrupt_event_wait, interrupts disabled
    | IdleWait                                 // asleep until an interrupt
    | Picked(next: nat)                        // get_next returned, interrupts still enabled
    | Test(next: nat)                          // interrupts disabled, about to test preempt_pending

  datatype Pc =
    | App                                      // task code outside the kernel
    | Kernel                                   // a kernel call of the task, preemption disabled
    | EnableTest                               // preempt_enable, interrupts disabled, about to test preempt_pending
    | EnableDone                               // preempt_enable, preemption enabled, about to enable interrupts
    | Scheduling(caller: Caller, point: Point)
    | Decided(caller: Caller, to: nat)         // the loop returned with interrupts disabled
    | Resumed(returnDisabled: bool)            // yield_common after the switch, about to enable interrupts
    | Halted                                   // a fatal error or a failed assertion ended the run

  /** The saved context of a task that is not current. */
  datatype Saved =
    | Entry                                            // never run: context_init
    | Yielded(returnDisabled: bool, restore: bool)     // switched away by yield_common; restore is the frame's flag
    | Interrupted                                      // switched away by the interrupt wrapper

  /** timers is the configured number of timers; unserved is a history variable, the events raised and not handled
      since. */
  datatype State = State(
    timers: nat, sched: Sched, current: nat, saved: seq<Saved>, pc: Pc,
    preemptDisabled: bool, preemptPending: bool, irqEnabled: bool,
    events: BitSet, ticks: nat, unserved: BitSet)

  datatype Action =
    | Irq(raised: BitSet, tick: bool)   // an interrupt whose handler raises events and may count a tick
    | PreemptDisable
    | Unblock(task: nat)                // unblock() within a kernel call
    | LockMutex(mutex: nat)             // mutex_core_locked_by(current)
    | UnlockMutex(mutex: nat)           // mutex_core_unlocked
    | BlockOn(blocker: nat)             // block_on(blocker), block()
    | Yield                             // yield() with the task left runnable
    | PreemptEnable
    | Go                                // the next step of preempt_enable, the scheduling loop or a switch
    | Deliver(task: nat)                // the event handler or the timer loop sends a signal to a task

  // ----- The steps -------------------------------------------------------------------------------------------

  /** Second half of a context switch: make task `to` current and restore its flags (context_switch_first). */
  function SwitchTo(s: State, to: nat): State
    requires to < |s.saved|
  {
    match s.saved[to]
    case Entry => s.(current := to, pc := Kernel, irqEnabled := true)
    case Yielded(ret, restore) => s.(current := to, pc := Resumed(ret),
                                     preemptDisabled := s.preemptDisabled && restore, irqEnabled := false)
    case Interrupted => s.(current := to, pc := App, preemptDisabled := false, irqEnabled := true)
  }

  predicate CanGo(s: State) {
    s.pc.EnableTest? || s.pc.EnableDone? || s.pc.Decided? || s.pc.Resumed?
    || (s.pc.Scheduling? && !s.pc.point.Act?)
  }

  predicate CanDeliver(s: State) {
    s.pc.Scheduling? && (s.pc.point.Act? || (s.pc.point.Expire? && s.pc.point.left > 0))
  }

  ghost predicate Enabled(s: State, a: Action) {
    && s.sched.Ok()
    && s.current < s.sched.TaskCount() == |s.saved|
    && match a
       case Irq(_, _) => s.irqEnabled && !s.pc.Halted?
       case PreemptDisable => s.pc.App?
       case Unblock(t) => s.pc.Kernel? && t < |s.saved|
       // A task that has no wait to finish is runnable, and only such a task locks.
       case LockMutex(m) => s.pc.Kernel? && s.sched.Runnable(s.current) && s.sched.CanLock(m, s.current)
       case UnlockMutex(m) => s.pc.Kernel? && (s.sched.Phact? ==> m < |s.sched.tables.mutexToIndex|)
       case BlockOn(t) => s.pc.Kernel? && (t < |s.saved| || t == TASK_ID_NONE)
       case Yield => s.pc.Kernel?
       case PreemptEnable => s.pc.Kernel?
       case Go =>
         && CanGo(s)
         && !Answer(s).CycleFound?
         && (s.pc.Decided? ==> s.pc.to < |s.saved|)
       case Deliver(t) => CanDeliver(s) && t < |s.saved|
  }

  /** An interrupt: its handler raises events and counts a tick, then rtos_internal_preempt_irq_scheduler_wrapper
      sets preempt_pending and, when preemption is enabled, disables it and enters the scheduling loop. */
  function IrqStep(s: State, raised: BitSet, tick: bool): State {
    var t := s.(events := s.events + raised, unserved := s.unserved + raised,
                ticks := if tick && s.ticks < 2 then s.ticks + 1 else s.ticks, preemptPending := true);
    if s.preemptDisabled then t
    else t.(preemptDisabled := true, irqEnabled := false, pc := Scheduling(Interrupt, LoopTop))
  }

  /** A step of the scheduling loop, in which sched_get_next answers `choice`. */
  function LoopStep(s: State, c: Caller, p: Point, choice: Inherit.Choice): State
    requires !p.Act? && !choice.CycleFound?
  {
    match p
    case LoopTop => s.(irqEnabled := true, pc := Scheduling(c, Snapshot))
    case Snapshot => s.(preemptPending := false, pc := Scheduling(c, Handle(s.events)))
    case Handle(todo) =>
      if todo == {} then s.(pc := Scheduling(c, Ticks))
      else s.(pc := Scheduling(c, Store(todo, Lowest(todo), s.events - {Lowest(todo)})))
    case Store(todo, i, word) => s.(events := word, pc := Scheduling(c, Act(todo, i)))
    case Ticks =>
      if s.ticks > 1 then s.(ticks := 0, pc := Halted)
      else if s.ticks == 1 then s.(ticks := 0, pc := Scheduling(c, Expire(s.timers)))
      else s.(pc := Scheduling(c, Pick))
    case Expire(left) => s.(pc := Scheduling(c, if left > 0 then Expire(left - 1) else Pick))
    case Pick =>
      (match choice
       case Nobody => s.(irqEnabled := false, pc := Scheduling(c, IdleTest))
       case Chosen(t) => if t < |s.saved| then s.(pc := Scheduling(c, Picked(t))) else s.(pc := Halted))
    case IdleTest =>
      if s.events == {} && s.ticks == 0 then s.(irqEnabled := true, pc := Scheduling(c, IdleWait))
      else s.(irqEnabled := true, pc := Scheduling(c, Snapshot))
    case IdleWait => s.(irqEnabled := true, pc := Scheduling(c, Snapshot))
    case Picked(t) => s.(irqEnabled := false, pc := Scheduling(c, Test(t)))
    case Test(t) => if s.preemptPending then s.(pc := Scheduling(c, LoopTop)) else s.(pc := Decided(c, t))
  }

  /** What sched_get_next answers, where the loop is about to call it. */
  function Answer(s: State): Inherit.Choice
    requires s.sched.Ok()
  {
    if s.pc.Scheduling? && s.pc.point.Pick? then s.sched.Next() else Inherit.Nobody
  }

  function GoStep(s: State): State
    requires CanGo(s) && s.sched.Ok() && s.current < |s.saved|
    requires !Answer(s).CycleFound?
    requires s.pc.Decided? ==> s.pc.to < |s.saved|
  {
    match s.pc
    case EnableTest =>
      if s.preemptPending then s.(irqEnabled := true, pc := Scheduling(Yielding(false), LoopTop))
      else s.(preemptDisabled := false, pc := EnableDone)
    case EnableDone => s.(irqEnabled := true, pc := App)
    case Scheduling(c, p) => LoopStep(s, c, p, Answer(s))
    case Decided(Yielding(ret), to) =>
      if to == s.current then s.(preemptDisabled := ret, pc := Resumed(ret))
      else SwitchTo(s.(saved := s.saved[s.current := Yielded(ret, ret)]), to)
    case Decided(Interrupt, to) =>
      if to == s.current then s.(preemptDisabled := false, irqEnabled := true, pc := App)
      else SwitchTo(s.(saved := s.saved[s.current := Interrupted]), to)
    case Resumed(ret) => s.(irqEnabled := true, pc := if ret then Kernel else App)
  }

  /** The event handler (after which bit i leaves the copy) or the timer loop sends a signal, which unblocks a task. */
  function DeliverStep(s: State, t: nat): State
    requires s.sched.Ok() && t < s.sched.TaskCount()
    requires CanDeliver(s)
  {
    var r := s.(sched := s.sched.SetRunnable(t), preemptPending := true);
    match s.pc.point
    case Act(todo, i) => r.(unserved := s.unserved - {i}, pc := Scheduling(s.pc.caller, Handle(todo - {i})))
    case Expire(left) => r.(pc := Scheduling(s.pc.caller, Expire(left - 1)))
  }

  ghost function Do(s: State, a: Action): State
    requires Enabled(s, a)
  {
    match a
    case Irq(raised, tick) => IrqStep(s, raised, tick)
    case PreemptDisable => s.(preemptDisabled := true, pc := Kernel)
    case Unblock(t) => s.(sched := s.sched.SetRunnable(t), preemptPending := true)
    case LockMutex(m) => s.(sched := s.sched.Lock(m, s.current))
    case UnlockMutex(m) => s.(sched := s.sched.Unlock(m), preemptPending := true)
    case BlockOn(t) => s.(sched := s.sched.Block(s.current, t), pc := Scheduling(Yielding(true), LoopTop))
    case Yield => s.(pc := Scheduling(Yielding(true), LoopTop))
    case PreemptEnable => s.(irqEnabled := false, pc := EnableTest)
    case Go => GoStep(s)
    case Deliver(t) => DeliverStep(s, t)
  }

  /** start(): every task runnable with a fresh context, task 0 current with preemption disabled. */
  ghost predicate Init(s: State) {
    && s.sched.AtStart() && |s.saved| == s.sched.TaskCount()
    && (forall t: nat | t < |s.saved| :: s.saved[t] == Entry)
    && s.current == 0
    && s.pc == Kernel && s.preemptDisabled && s.irqEnabled && !s.preemptPending
    && s.events == {} && s.ticks == 0 && s.unserved == {}
  }

  ghost predicate Steps(s: State, a: Action, t: State) {
    Enabled(s, a) && t == Do(s, a)
  }

  /** A run: its states and the actions between them. */
  ghost predicate IsRun(states: seq<State>, actions: seq<Action>) {
    && |states| == |actions| + 1
    && Init(states[0])
    && forall i: nat {:trigger actions[i]} | i < |actions| :: Steps(states[i], actions[i], states[i + 1])
  }

  // ----- The scheduling invariant ----------------------------------------------------------------------------

  /** Nothing is waiting for the scheduler and its choice is the current task. */
  ghost predicate Settled(s: State)
    requires s.sched.Ok()
  {
    !s.preemptPending && s.events == {} && s.ticks == 0 && s.sched.Next() == Inherit.Chosen(s.current)
  }

  /** What the state owes at each point of the scheduling loop, unless a preemption is pending. */
  ghost predicate LoopInv(s: State, p: Point)
    requires s.sched.Ok()
  {
    match p
    case LoopTop => true
    case Snapshot => s.irqEnabled
    case Handle(todo) => s.irqEnabled && (s.preemptPending || s.events <= todo)
    case Store(todo, i, word) =>
      s.irqEnabled && IsLowest(todo, i) && word <= s.events - {i} && (s.preemptPending || s.events <= todo)
    case Act(todo, i) => s.irqEnabled && IsLowest(todo, i) && (s.preemptPending || s.events <= todo - {i})
    case Ticks => s.irqEnabled && (s.preemptPending || s.events == {})
    case Expire(left) => s.irqEnabled && (s.preemptPending || (s.events == {} && s.ticks == 0))
    case Pick => s.irqEnabled && (s.preemptPending || (s.events == {} && s.ticks == 0))
    case IdleTest => !s.irqEnabled && (s.preemptPending || (s.events == {} && s.ticks == 0))
                     && s.sched.Next() == Inherit.Nobody
    case IdleWait => s.irqEnabled && s.sched.Next() == Inherit.Nobody
    case Picked(t) => s.irqEnabled && t < |s.saved| && s.sched.Next() == Inherit.Chosen(t)
                      && (s.preemptPending || (s.events == {} && s.ticks == 0))
    case Test(t) => !s.irqEnabled && t < |s.saved| && s.sched.Next() == Inherit.Chosen(t)
                    && (s.preemptPending || (s.events == {} && s.ticks == 0))
  }

  ghost predicate Inv(s: State) {
    && s.sched.Ok() && s.current < |s.saved| == s.sched.TaskCount()
    && (forall t: nat | t < |s.saved| && s.saved[t].Yielded? :: s.saved[t].restore == s.saved[t].returnDisabled)
    && match s.pc
       case App => s.irqEnabled && !s.preemptDisabled && Settled(s)
       case Kernel => s.irqEnabled && s.preemptDisabled && (s.preemptPending || Settled(s))
       case EnableTest => !s.irqEnabled && s.preemptDisabled && (s.preemptPending || Settled(s))
       case EnableDone => !s.irqEnabled && !s.preemptDisabled && Settled(s)
       case Scheduling(c, p) => s.preemptDisabled && LoopInv(s, p)
       case Decided(c, to) => !s.irqEnabled && s.preemptDisabled && !s.preemptPending && s.events == {} && s.ticks == 0
                              && to < |s.saved| && s.sched.Next() == Inherit.Chosen(to)
       case Resumed(ret) => !s.irqEnabled && s.preemptDisabled == ret && Settled(s)
       case Halted => s.preemptDisabled
  }

  lemma IrqKeepsInv(s: State, raised: BitSet, tick: bool)
    requires Inv(s) && s.irqEnabled && !s.pc.Halted?
    ensures Inv(IrqStep(s, raised, tick))
  {
    hide Sched.Ok, Sched.Next;
  }

  /** interrupt_event_process */
  lemma ProcessKeepsInv(s: State)
    requires Inv(s) && s.pc.Scheduling?
    requires s.pc.point.LoopTop? || s.pc.point.Snapshot? || s.pc.point.Handle? || s.pc.point.Store?
    ensures Inv(LoopStep(s, s.pc.caller, s.pc.point, Answer(s)))
  {
    hide Sched.Ok, Sched.Next;
  }

  /** timer_tick_process */
  lemma TicksKeepInv(s: State)
    requires Inv(s) && s.pc.Scheduling? && s.sched.Ok() && (s.pc.point.Ticks? || s.pc.point.Expire?)
    ensures Inv(LoopStep(s, s.pc.caller, s.pc.point, Answer(s)))
    ensures !LoopStep(s, s.pc.caller, s.pc.point, Answer(s)).pc.Scheduling?
            || !LoopStep(s, s.pc.caller, s.pc.point, Answer(s)).pc.point.IdleWait?
  {
    hide Sched.Ok, Sched.Next;
  }

  /** timer_tick_process, sched_get_next, interrupt_event_wait and the test of preempt_pending */
  lemma PickKeepsInv(s: State)
    requires Inv(s) && s.pc.Scheduling? && s.sched.Ok()
    requires s.pc.point.Ticks? || s.pc.point.Expire? || (s.pc.point.Pick? && !Answer(s).CycleFound?)
             || s.pc.point.IdleTest? || s.pc.point.IdleWait? || s.pc.point.Picked? || s.pc.point.Test?
    ensures var r := LoopStep(s, s.pc.caller, s.pc.point, Answer(s));
            Inv(r) && (r.pc.Scheduling? && r.pc.point.IdleWait? ==> r.events == {} && r.ticks == 0)
  {
    hide Sched.Ok, Sched.Next;
    if s.pc.point.Ticks? || s.pc.point.Expire? { TicksKeepInv(s); }
  }

  lemma SwitchKeepsInv(s: State)
    requires Inv(s) && s.pc.Decided?
    ensures Inv(GoStep(s)) && GoStep(s).current == s.pc.to && |GoStep(s).saved| == |s.saved|
    ensures forall t: nat | t < |s.saved| ::
              GoStep(s).saved[t] ==
              if t != s.current || s.pc.to == s.current then s.saved[t]
              else if s.pc.caller.Interrupt? then Interrupted
              else Yielded(s.pc.caller.returnDisabled, s.pc.caller.returnDisabled)
  {
    hide Sched.Ok, Sched.Next;
  }

  lemma DeliverKeepsInv(s: State, t: nat)
    requires Inv(s) && Enabled(s, Deliver(t))
    ensures Inv(DeliverStep(s, t))
  {
    hide Sched.Ok, Sched.Next;
  }

  lemma {:induction false} StepKeepsInv(s: State, a: Action)
    requires Inv(s) && Enabled(s, a)
    ensures Inv(Do(s, a))
  {
    hide Sched.Ok, Sched.Next;
    match a
    case Irq(raised, tick) => IrqKeepsInv(s, raised, tick);
    case Deliver(t) => DeliverKeepsInv(s, t);
    case LockMutex(m) => if !s.preemptPending { s.sched.LockKeepsNext(m, s.current); }
    case Go =>
      match s.pc {
        case Scheduling(c, p) =>
          if p.LoopTop? || p.Snapshot? || p.Handle? || p.Store? { ProcessKeepsInv(s); } else { PickKeepsInv(s); }
        case Decided(c, to) => SwitchKeepsInv(s);
        case _ =>
      }
    case _ =>
  }

  lemma StartHasInv(s: State)
    requires Init(s)
    ensures Inv(s)
  {
    s.sched.StartPicksTaskZero();
  }

  lemma {:induction false} RunKeepsInv(states: seq<State>, actions: seq<Action>, i: nat)
    requires IsRun(states, actions) && i < |states|
    ensures Inv(states[i])
  {
    hide Inv, Init, Enabled, Do;
    if i == 0 {
      StartHasInv(states[0]);
    } else {
      RunKeepsInv(states, actions, i - 1);
      assert Steps(states[i - 1], actions[i - 1], states[i]);
      StepKeepsInv(states[i - 1], actions[i - 1]);
    }
  }

  /** Every step of a run is enabled in a state with the invariant. */
  lemma StepAt(states: seq<State>, actions: seq<Action>, i: nat)
    requires IsRun(states, actions) && i < |actions|
    ensures |states| == |actions| + 1 && Inv(states[i]) && Inv(states[i + 1])
    ensures Enabled(states[i], actions[i]) && states[i + 1] == Do(states[i], actions[i])
  {
    RunKeepsInv(states, actions, i);
    RunKeepsInv(states, actions, i + 1);
    assert Steps(states[i], actions[i], states[i + 1]);
  }

  /** The scheduling requirement, in every state of every run and whatever interrupts come when: whenever interrupts
      and preemption are both enabled, no preemption is pending, no raised event or tick waits, and the running task
      is the one the scheduler picks for the present scheduler state. */
  lemma {:induction false} RunningTaskIsScheduled(states: seq<State>, actions: seq<Action>, i: nat)
    requires IsRun(states, actions) && i < |states|
    requires states[i].irqEnabled && !states[i].preemptDisabled
    ensures states[i].sched.Ok() && states[i].sched.Next() == Inherit.Chosen(states[i].current)
    ensures !states[i].preemptPending && states[i].events == {} && states[i].ticks == 0
  {
    RunKeepsInv(states, actions, i);
  }

  /** The flags are in every reachable state as the internal assertions of the source demand: a kernel call runs with
      preemption disabled and interrupts enabled, task code with both enabled, the scheduling loop returns with
      interrupts disabled, and yield_common returns with preemption as its argument says. */
  lemma {:induction false} AssertionsHold(states: seq<State>, actions: seq<Action>, i: nat)
    requires IsRun(states, actions) && i < |states|
    ensures var s := states[i];
            && (s.pc.App? ==> s.irqEnabled && !s.preemptDisabled)
            && (s.pc.Kernel? ==> s.irqEnabled && s.preemptDisabled)
            && (s.pc.Scheduling? ==> s.preemptDisabled)
            && (s.pc.Decided? ==> !s.irqEnabled && s.preemptDisabled && s.pc.to < |s.saved|)
            && (s.pc.Resumed? ==> !s.irqEnabled && s.preemptDisabled == s.pc.returnDisabled)
  {
    RunKeepsInv(states, actions, i);
  }

  /** A kernel section, from the disabling of preemption, the return of yield() or the first switch to a task up to the
      task's first own action, is entered by the scheduled task, and interrupts in it change neither the task nor the
      scheduler state: whatever the task then does, it does as the task the scheduler picks. */
  lemma {:induction false} KernelSectionsAreScheduled(states: seq<State>, actions: seq<Action>, i: nat, j: nat)
    requires IsRun(states, actions) && i < j < |states| && !states[i].pc.Kernel?
    requires forall k: nat | i < k <= j :: states[k].pc.Kernel?
    requires forall k: nat | i < k < j :: actions[k].Irq?
    ensures states[j].sched == states[i].sched && states[j].sched.Ok()
    ensures states[j].sched.Next() == Inherit.Chosen(states[j].current) && states[j].current == states[i + 1].current
    decreases j
  {
    hide IsRun, Inv, Enabled, Do;
    RunLength(states, actions);
    StepAt(states, actions, j - 1);
    if i + 1 < j {
      KernelSectionsAreScheduled(states, actions, i, j - 1);
      InterruptedSection(states[j - 1], actions[j - 1]);
    } else {
      EntersScheduled(states[i], actions[i]);
    }
  }

  lemma InterruptedSection(s: State, a: Action)
    requires Inv(s) && Enabled(s, a) && s.pc.Kernel? && a.Irq?
    ensures Do(s, a).sched == s.sched && Do(s, a).current == s.current
  {
  }

  lemma EntersScheduled(s: State, a: Action)
    requires Inv(s) && Enabled(s, a) && !s.pc.Kernel? && Do(s, a).pc.Kernel?
    ensures var t := Do(s, a); t.sched == s.sched && t.sched.Ok() && t.sched.Next() == Inherit.Chosen(t.current)
  {
    hide Sched.Ok, Sched.Next;
  }

  // ----- When the loop sleeps --------------------------------------------------------------------------------

  predicate Asleep(s: State) {
    s.pc.Scheduling? && s.pc.point.IdleWait?
  }

  /** The loop goes to sleep only when no event and no tick waits and the scheduler has no task to run. */
  lemma FallsAsleepIdle(states: seq<State>, actions: seq<Action>, i: nat)
    requires IsRun(states, actions) && i < |actions| && !Asleep(states[i]) && Asleep(states[i + 1])
    ensures states[i + 1].events == {} && states[i + 1].ticks == 0
    ensures states[i + 1].sched.Ok() && states[i + 1].sched.Next() == Inherit.Nobody
  {
    hide IsRun, Inv, Enabled, Do;
    StepAt(states, actions, i);
    FallAsleepStep(states[i], actions[i]);
  }

  lemma FallAsleepStep(s: State, a: Action)
    requires Inv(s) && Enabled(s, a) && !Asleep(s) && Asleep(Do(s, a))
    ensures var t := Do(s, a);
            t.events == {} && t.ticks == 0 && t.sched.Ok() && t.sched.Next() == Inherit.Nobody
  {
    hide Sched.Ok, Sched.Next;
    match a
    case Go => assert s.pc.Scheduling?;
    case _ =>
  }

  // ----- The scheduling loop ends when interrupts stop -------------------------------------------------------

  /** How many events the loop still handles if none are raised. */
  function Due(s: State): nat
    requires s.pc.Scheduling?
  {
    match s.pc.point
    case Handle(todo) => |s.events + todo|
    case Store(todo, i, word) => |word + (todo - {i})| + 1
    case Act(todo, i) => |s.events + (todo - {i})| + 1
    case _ => |s.events|
  }

  /** Events and timers still to be looked at, and whether another pass is due. */
  function Work(s: State): nat
    requires s.pc.Scheduling?
  {
    2 * (Due(s) + (if s.ticks > 0 then s.timers + 1 else 0) + (if s.pc.point.Expire? then s.pc.point.left else 0))
    + (if s.preemptPending || s.pc.point.LoopTop? || s.pc.point.Snapshot? then 1 else 0)
  }

  function Position(p: Point): nat {
    match p
    case Handle(_) => 10 case Store(_, _, _) => 9 case Act(_, _) => 8 case Ticks => 7 case Expire(_) => 6
    case Pick => 5 case IdleTest => 4 case Picked(_) => 4 case Test(_) => 3 case IdleWait => 2
    case LoopTop => 2 case Snapshot => 1
  }

  function Rank(s: State): nat
    requires s.pc.Scheduling?
  {
    11 * Work(s) + Position(s.pc.point)
  }

  ghost predicate Lower(t: State, s: State)
    requires s.pc.Scheduling?
  {
    t.pc.Scheduling? ==> Rank(t) < Rank(s)
  }

  lemma CardOfRest(bits: BitSet, i: nat)
    requires i in bits
    ensures |bits| == |bits - {i}| + 1
  {
    assert bits == (bits - {i}) + {i};
  }

  lemma HandleKeepsDue(events: BitSet, todo: BitSet, i: nat)
    requires i in todo
    ensures |events + todo| == |(events - {i}) + (todo - {i})| + 1
  {
    CardOfRest(events + todo, i);
    assert (events - {i}) + (todo - {i}) == events + todo - {i};
  }

  lemma LoadShrinks(s: State, c: Caller, todo: BitSet, i: nat)
    requires s.pc == Scheduling(c, Handle(todo)) && i in todo
    ensures Lower(s.(pc := Scheduling(c, Store(todo, i, s.events - {i}))), s)
  {
    HandleKeepsDue(s.events, todo, i);
  }

  lemma HandleShrinks(s: State, c: Caller, todo: BitSet)
    requires s.pc == Scheduling(c, Handle(todo))
    ensures Lower(LoopStep(s, c, Handle(todo), Inherit.Nobody), s)
  {
    if todo == {} {
      assert s.events + todo == s.events;
    } else {
      LoadShrinks(s, c, todo, Lowest(todo));
    }
  }

  lemma SnapshotShrinks(s: State, c: Caller)
    requires s.pc == Scheduling(c, Snapshot)
    ensures Lower(LoopStep(s, c, Snapshot, Inherit.Nobody), s)
  {
    assert s.events + s.events == s.events;
  }

  lemma StoreShrinks(s: State, c: Caller, todo: BitSet, i: nat, word: BitSet)
    requires s.pc == Scheduling(c, Store(todo, i, word))
    ensures Lower(LoopStep(s, c, Store(todo, i, word), Inherit.Nobody), s)
  {
  }

  lemma TicksShrink(s: State, c: Caller, p: Point)
    requires s.pc == Scheduling(c, p) && (p.LoopTop? || p.Ticks? || p.Expire?)
    ensures Lower(LoopStep(s, c, p, Inherit.Nobody), s)
  {
  }

  lemma PickShrinks(s: State, c: Caller, p: Point, choice: Inherit.Choice)
    requires s.pc == Scheduling(c, p) && !choice.CycleFound?
    requires p.Pick? || p.IdleTest? || p.Picked? || p.Test?
    requires p.IdleTest? ==> s.preemptPending || (s.events == {} && s.ticks == 0)
    ensures Lower(LoopStep(s, c, p, choice), s)
  {
    match p
    case Pick => IdleIsLower(s, c, choice);
    case _ =>
  }

  lemma IdleIsLower(s: State, c: Caller, choice: Inherit.Choice)
    requires s.pc == Scheduling(c, Pick) && !choice.CycleFound?
    ensures Lower(LoopStep(s, c, Pick, choice), s)
  {
  }

  lemma DeliverShrinks(s: State, t: nat)
    requires s.sched.Ok() && CanDeliver(s) && t < s.sched.TaskCount()
    ensures Lower(DeliverStep(s, t), s)
  {
  }

  lemma {:induction false} RunStepShrinks(states: seq<State>, actions: seq<Action>, k: nat)
    requires IsRun(states, actions) && k < |actions| && !actions[k].Irq?
    requires states[k].pc.Scheduling? && !states[k].pc.point.IdleWait?
    ensures Lower(states[k + 1], states[k])
  {
    RunKeepsInv(states, actions, k);
    var s, a := states[k], actions[k];
    assert Enabled(s, a) && states[k + 1] == Do(s, a);
    match a
    case Deliver(t) => DeliverShrinks(s, t);
    case Go =>
      var c, p := s.pc.caller, s.pc.point;
      if p.Snapshot? { SnapshotShrinks(s, c); }
      else if p.Handle? { HandleShrinks(s, c, p.todo); }
      else if p.Store? { StoreShrinks(s, c, p.todo, p.i, p.word); }
      else if p.LoopTop? || p.Ticks? || p.Expire? { TicksShrink(s, c, p); }
      else { PickShrinks(s, c, p, Answer(s)); }
  }

  lemma {:induction false} Descent(ranks: seq<nat>)
    requires |ranks| > 0 && forall k: nat | k + 1 < |ranks| :: ranks[k + 1] < ranks[k]
    ensures |ranks| - 1 <= ranks[0]
  {
    if |ranks| > 1 {
      assert forall k: nat | k + 1 < |ranks[1..]| :: ranks[1..][k + 1] < ranks[1..][k];
      Descent(ranks[1..]);
    }
  }

  ghost predicate Looping(s: State) {
    s.pc.Scheduling? && !s.pc.point.IdleWait?
  }

  /** Only interrupts keep the scheduling loop going: between interrupts every step of it lowers a natural number, so
      after at most that many steps it returns, or goes to sleep with no task to run and nothing left to look at. */
  lemma {:induction false} LoopEndsWithoutInterrupts(states: seq<State>, actions: seq<Action>, i: nat, n: nat)
    requires IsRun(states, actions) && i + n < |states|
    requires Looping(states[i]) && forall k: nat | i <= k <= i + n :: Looping(states[k])
    requires forall k: nat | i <= k < i + n :: !actions[k].Irq?
    ensures n <= Rank(states[i])
    ensures i + n + 1 < |states| && Asleep(states[i + n + 1]) ==>
              states[i + n + 1].events == {} && states[i + n + 1].ticks == 0
  {
    hide IsRun, Rank, Looping;
    RunLength(states, actions);
    if i + n + 1 < |states| && Asleep(states[i + n + 1]) {
      LoopingIsAwake(states[i + n]);
      FallsAsleepIdle(states, actions, i + n);
    }
    var ranks := seq<nat>(n + 1, k requires 0 <= k <= n => RankOf(states[i + k]));
    forall k: nat | k + 1 < |ranks| ensures ranks[k + 1] < ranks[k] {
      RankFalls(states, actions, i + k);
    }
    Descent(ranks);
    RankIsRank(states[i]);
  }

  lemma RunLength(states: seq<State>, actions: seq<Action>)
    requires IsRun(states, actions)
    ensures |states| == |actions| + 1
  {
  }

  ghost function RankOf(s: State): nat {
    if Looping(s) then Rank(s) else 0
  }

  lemma LoopingIsAwake(s: State)
    requires Looping(s)
    ensures !Asleep(s)
  {
  }

  lemma RankIsRank(s: State)
    requires Looping(s)
    ensures s.pc.Scheduling? && RankOf(s) == Rank(s)
  {
  }

  lemma RankFalls(states: seq<State>, actions: seq<Action>, k: nat)
    requires IsRun(states, actions) && k < |actions| && !actions[k].Irq?
    requires Looping(states[k]) && Looping(states[k + 1])
    ensures RankOf(states[k + 1]) < RankOf(states[k])
  {
    RunStepShrinks(states, actions, k);
  }

  // ----- Are raised events served? ---------------------------------------------------------------------------

  /** The event whose bit the loop is clearing and which it is about to handle. */
  function InHand(s: State): BitSet {
    if !s.pc.Scheduling? then {}
    else match s.pc.point
      case Store(_, i, _) => {i}
      case Act(_, i) => {i}
      case _ => {}
  }

  /** Every event raised and not handled since is still raised or about to be handled. */
  ghost predicate NoneLost(s: State) {
    s.unserved <= s.events + InHand(s)
  }

  /** No event was raised since the interrupt word was loaded for clearing a bit, but those the store cannot erase. */
  ghost predicate Intact(s: State) {
    s.pc.Scheduling? && s.pc.point.Store? ==> s.events <= s.pc.point.word + {s.pc.point.i}
  }

  /** An interrupt between the load and the store that clear bit i raises an event that the loaded word lacks. */
  predicate Torn(s: State, a: Action) {
    a.Irq? && s.pc.Scheduling? && s.pc.point.Store? && !(a.raised <= s.pc.point.word + {s.pc.point.i})
  }

  lemma {:induction false} UntornStepServes(s: State, a: Action)
    requires Inv(s) && Enabled(s, a) && NoneLost(s) && Intact(s) && !Torn(s, a)
    ensures NoneLost(Do(s, a)) && Intact(Do(s, a))
  {
    hide Sched.Ok, Sched.Next;
    match a
    case Go =>
      match s.pc {
        case Scheduling(c, p) =>
        case Decided(c, to) =>
        case _ =>
      }
    case _ =>
  }

  /** In a run without torn raises no raise is lost: whenever interrupts and preemption are both enabled, every raised
      event has been handled after it was raised. */
  lemma {:induction false} EveryRaiseIsServed(states: seq<State>, actions: seq<Action>, i: nat)
    requires IsRun(states, actions) && i < |states|
    requires forall k: nat | k < i :: !Torn(states[k], actions[k])
    ensures NoneLost(states[i]) && Intact(states[i])
    ensures states[i].irqEnabled && !states[i].preemptDisabled ==> states[i].unserved == {}
  {
    RunKeepsInv(states, actions, i);
    if i > 0 {
      EveryRaiseIsServed(states, actions, i - 1);
      RunKeepsInv(states, actions, i - 1);
      UntornStepServes(states[i - 1], actions[i - 1]);
    }
  }

  /** A raise that lands between the load and the store survives the store exactly when it is not torn. */
  lemma {:induction false} TornRaiseIsLost(s: State, raised: BitSet, tick: bool)
    requires Inv(s) && NoneLost(s) && Intact(s) && s.pc.Scheduling? && s.pc.point.Store?
    ensures var t := IrqStep(s, raised, tick);
            Enabled(s, Irq(raised, tick)) && Enabled(t, Go)
            && (NoneLost(Do(t, Go)) <==> !Torn(s, Irq(raised, tick)))
  {
    hide Sched.Ok, Sched.Next;
    var p := s.pc.point;
    var t := IrqStep(s, raised, tick);
    assert t.pc == s.pc;
    if !(raised <= p.word + {p.i}) {
      var j :| j in raised && j !in p.word + {p.i};
      assert j in t.unserved && j !in Do(t, Go).events + InHand(Do(t, Go));
    }
  }

  /** The step stores the word for clearing a bit. */
  predicate Stores(s: State, a: Action) {
    a == Go && s.pc.Scheduling? && s.pc.point.Store?
  }

  /** It stores a word that lacks an event raised since the word was loaded. */
  ghost predicate Erases(s: State, a: Action) {
    Stores(s, a) && !Intact(s)
  }

  /** What the word loaded for clearing a bit lacks was raised since and is not served. */
  ghost predicate LackIsUnserved(s: State) {
    s.pc.Scheduling? && s.pc.point.Store? ==> s.events <= s.pc.point.word + {s.pc.point.i} + s.unserved
  }

  lemma StepKeepsLack(s: State, a: Action)
    requires Inv(s) && Enabled(s, a) && LackIsUnserved(s)
    ensures LackIsUnserved(Do(s, a))
  {
    hide Sched.Ok, Sched.Next;
  }

  /** A step loses a raise if and only if it stores a word that lacks an event raised since the load. */
  lemma StepLosesIff(s: State, a: Action)
    requires Inv(s) && Enabled(s, a) && NoneLost(s) && LackIsUnserved(s)
    ensures NoneLost(Do(s, a)) <==> !Erases(s, a)
  {
    hide Sched.Ok, Sched.Next;
    if Stores(s, a) {
      var p := s.pc.point;
      if !Intact(s) {
        var j :| j in s.events && j !in p.word + {p.i};
        assert j in Do(s, a).unserved && j !in Do(s, a).events + InHand(Do(s, a));
      }
    } else {
      match a
      case Go =>
        match s.pc {
          case Scheduling(c, p) =>
          case Decided(c, to) =>
          case _ =>
        }
      case _ =>
    }
  }

  lemma {:induction false} RunKeepsLack(states: seq<State>, actions: seq<Action>, i: nat)
    requires IsRun(states, actions) && i < |states|
    ensures LackIsUnserved(states[i])
  {
    hide Do, Enabled, LackIsUnserved, Inv;
    if i == 0 {
      StartLosesNone(states, actions);
    } else {
      RunKeepsLack(states, actions, i - 1);
      RunKeepsInv(states, actions, i - 1);
      assert Steps(states[i - 1], actions[i - 1], states[i]);
      StepKeepsLack(states[i - 1], actions[i - 1]);
    }
  }

  lemma StartLosesNone(states: seq<State>, actions: seq<Action>)
    requires IsRun(states, actions)
    ensures NoneLost(states[0]) && LackIsUnserved(states[0])
  {
  }

  /** In a run no raise is ever lost if and only if no step that clears a bit stores a word that lacks an event raised
      since it was loaded, however many interrupts come in between. */
  lemma {:induction false} RaisesLostIffStoreErases(states: seq<State>, actions: seq<Action>, n: nat)
    requires IsRun(states, actions) && n < |states| == |actions| + 1
    ensures (forall i: nat | i <= n :: NoneLost(states[i]))
            <==> forall i: nat | i < n :: !Erases(states[i], actions[i])
  {
    hide IsRun, NoneLost, Erases;
    if n == 0 {
      StartLosesNone(states, actions);
    } else {
      RaisesLostIffStoreErases(states, actions, n - 1);
      if NoneLost(states[n - 1]) { RunStepLosesIff(states, actions, n - 1); }
    }
  }

  lemma RunStepLosesIff(states: seq<State>, actions: seq<Action>, i: nat)
    requires IsRun(states, actions) && i < |actions| && NoneLost(states[i])
    ensures NoneLost(states[i + 1]) <==> !Erases(states[i], actions[i])
  {
    RunKeepsInv(states, actions, i);
    RunKeepsLack(states, actions, i);
    assert Steps(states[i], actions[i], states[i + 1]);
    hide Do, Enabled, Inv, NoneLost, Erases;
    StepLosesIff(states[i], actions[i]);
  }

  ghost predicate Reachable(s: State) {
    exists states, actions :: IsRun(states, actions) && states[|actions|] == s
  }

  lemma ReachStep(s: State, a: Action) returns (t: State)
    requires Reachable(s) && Enabled(s, a)
    ensures t == Do(s, a) && Reachable(t)
  {
    hide Init, Enabled, Do;
    t := Do(s, a);
    var states, actions :| IsRun(states, actions) && states[|actions|] == s;
    var states', actions' := states + [t], actions + [a];
    forall i: nat | i < |actions'| ensures Steps(states'[i], actions'[i], states'[i + 1]) {
      if i < |actions| { assert actions'[i] == actions[i]; } else { assert Steps(s, a, t); }
    }
    assert IsRun(states', actions') && states'[|actions'|] == t;
  }

  /** One task, nothing raised yet. */
  lemma OneTaskStarts() returns (s: State)
    ensures Reachable(s)
    ensures s == State(0, Kochab([0]), 0, [Entry], Kernel, true, false, true, {}, 0, {})
  {
    s := State(0, Kochab([0]), 0, [Entry], Kernel, true, false, true, {}, 0, {});
    var actions: seq<Action> := [];
    assert IsRun([s], actions) && [s][|actions|] == s;
  }

  /** The task yields with event 0 raised. */
  lemma OneEventRaised() returns (s: State)
    ensures Reachable(s)
    ensures s == State(0, Kochab([0]), 0, [Entry], Scheduling(Yielding(true), LoopTop), true, true, true, {0}, 0, {0})
  {
    s := OneTaskStarts();
    s := ReachStep(s, Irq({0}, false));
    assert s.events == {0} && s.unserved == {0};
    s := ReachStep(s, Yield);
  }

  /** The loop has copied the events. */
  lemma OneEventCopied() returns (s: State)
    ensures Reachable(s)
    ensures s == State(0, Kochab([0]), 0, [Entry], Scheduling(Yielding(true), Handle({0})),
                       true, false, true, {0}, 0, {0})
  {
    s := OneEventRaised();
    s := ReachStep(s, Go);
    s := ReachStep(s, Go);
  }

  lemma OneEventLoaded() returns (s: State)
    ensures Reachable(s)
    ensures s == State(0, Kochab([0]), 0, [Entry], Scheduling(Yielding(true), Store({0}, 0, {})),
                       true, false, true, {0}, 0, {0})
  {
    var t := OneEventCopied();
    assert Lowest({0}) == 0 && t.events - {0} == {};
    s := ReachStep(t, Go);
  }

  /** Raises do get lost: event 0 is about to be cleared when an interrupt raises event 1 between the load and the
      store of the interrupt word. */
  lemma SomeRunLosesARaise() returns (s: State)
    ensures Reachable(s) && 1 in s.unserved && !NoneLost(s)
  {
    s := OneEventLoaded();
    s := ReachStep(s, Irq({1}, false));
    assert 1 in s.unserved && s.pc == Scheduling(Yielding(true), Store({0}, 0, {}));
    s := ReachStep(s, Go);
    assert 1 !in s.events + InHand(s);
  }
}
