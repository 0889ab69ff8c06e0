/** Runs of the kernel objects in which the scheduler picks who makes the next step, and Kochab's inheritance graph in
    them: who lends the scheduled task its priority, and which steps close a cycle. */
module KernelSchedule {
  import opened Ids
  import opened Kernel
  import opened KernelSafety
  import opened KernelTheorems
  import opened Sched
  import opened Timeouts
  import Inherit = SchedPrioInherit

  /** The step is made by the task the scheduler picks, or by no task. */
  ghost predicate ByScheduled(s: State, a: Action)
    requires Ok(s)
  {
    Actor(a) != TASK_ID_NONE ==> s.sched.Next() == Inherit.Chosen(Actor(a))
  }

  // ----- Who lends the scheduled task its priority -------------------------------------------------------------

  /** Task u waits for a mutex that task v holds. */
  ghost predicate WaitsForHolder(s: State, u: nat, v: nat) {
    exists m: nat :: WaitsForMutex(s, u, m) && m < |s.holder| && s.holder[m] == v
  }

  /** From task top to task c, n tasks each wait for a mutex that the next one holds. */
  ghost predicate HolderChain(s: State, top: nat, c: nat, n: nat)
    requires Ok(s) && s.sched.Kochab? && top < |s.pc|
  {
    && Inherit.Hop(s.sched.blockedOn, top, n) == c
    && forall k: nat | k < n ::
         WaitsForHolder(s, Inherit.Hop(s.sched.blockedOn, top, k), Inherit.Hop(s.sched.blockedOn, top, k + 1))
  }

  /** Before the chain of top first meets c, each task on it waits for a mutex that the next one holds. */
  lemma HopIsHeld(states: seq<State>, actions: seq<Action>, i: nat, top: nat, c: nat, n: nat, j: nat)
    requires IsRun(states, actions) && i < |states| && Ok(states[i]) && states[i].sched.Kochab?
    requires top < |states[i].pc| && c < |states[i].pc| && j < n
    requires Inherit.Hop(states[i].sched.blockedOn, top, n) == c
    requires forall k: nat | k < n :: Inherit.Hop(states[i].sched.blockedOn, top, k) != c
    ensures var b := states[i].sched.blockedOn;
            WaitsForHolder(states[i], Inherit.Hop(b, top, j), Inherit.Hop(b, top, j + 1))
  {
    var s, b := states[i], states[i].sched.blockedOn;
    hide Sched.Ok, IsRun;
    var u := Inherit.Hop(b, top, j);
    Inherit.HopAdds(b, top, j, n - j);
    if Inherit.Stops(b, u) { Inherit.StoppedStays(b, u, n - j); }
    Inherit.StoppedStays(b, TASK_ID_NONE, n - j - 1);
    Inherit.HopAdds(b, top, j, 1);
    assert Inherit.Hop(b, u, 1) == b[u] by { assert Inherit.Hop(b, b[u], 0) == b[u]; }
    assert s.sched.BlockerOf(u) == b[u];
    BlockedOnTrueHolder(states, actions, i, u);
    assert WaitsForMutex(s, u, s.mutexWaiters[u]);
  }

  /** Priority inheritance in every run of Kochab: the scheduled task c is runnable, and it is reached from some task
      top along tasks each of which waits for a mutex that the next one holds right now, while every task of higher
      priority than top is stuck behind a task that waits for no mutex. */
  lemma {:induction false} ScheduledInherits(states: seq<State>, actions: seq<Action>, i: nat, c: nat)
    requires IsRun(states, actions) && i < |states| && states[i].sched.Kochab?
    requires Ok(states[i]) && states[i].sched.Next() == Inherit.Chosen(c)
    ensures var s, b := states[i], states[i].sched.blockedOn;
            && c < |s.pc| && s.sched.Runnable(c)
            && exists top: nat, n: nat :: top < |s.pc| && HolderChain(s, top, c, n)
                 && forall t: nat | t < top :: Inherit.Ends(b, t, TASK_ID_NONE)
  {
    var s, b := states[i], states[i].sched.blockedOn;
    hide Sched.Ok;
    var top := Inherit.FirstChain(b, 0);
    var k: nat :| Inherit.Hop(b, top, k) == c && Inherit.Stops(b, Inherit.Hop(b, top, k));
    var n := Inherit.FirstMeeting(b, top, c, k);
    forall j: nat | j < n
      ensures WaitsForHolder(s, Inherit.Hop(b, top, j), Inherit.Hop(b, top, j + 1))
    {
      HopIsHeld(states, actions, i, top, c, n, j);
    }
    assert HolderChain(s, top, c, n);
  }

  // ----- Which steps close a cycle -----------------------------------------------------------------------------

  /** On whom an attempt on mutex m blocks, TASK_ID_NONE if on nobody: the mutex is taken, time is left, and no wake-up
      is pending, not even from the task's own timer set to 0 ticks. */
  function BlocksOnHolder(s: State, m: nat, timing: Timing, pending: bool): nat {
    if m < |s.holder| && StillTime(s.clock, timing) && !pending
       && (timing.Until? ==> TimerArgument(s.clock, timing) != 0)
    then s.holder[m] else TASK_ID_NONE
  }

  /** The task on which step a blocks the acting task: on its call, again after a signal it does not wait for, or when
      its retry finds the mutex taken. */
  function NewBlocker(s: State, a: Action): nat {
    match a
    case Lock(t, m, timing) =>
      if t < |s.signals| then BlocksOnHolder(s, m, timing, TASK_TIMER in s.signals[t]) else TASK_ID_NONE
    case Resume(t) =>
      if t < |s.pc| == |s.signals| && s.pc[t].Waiting? && s.pc[t].purpose.ForMutex? then
        if TASK_TIMER in s.signals[t] then BlocksOnHolder(s, s.pc[t].purpose.mutex, s.pc[t].timing, false)
        else s.pc[t].blocker
      else TASK_ID_NONE
    case _ => TASK_ID_NONE
  }

  /** The chain of the task on which step a blocks the acting task passes through the acting task. */
  ghost predicate ClosesCycle(s: State, a: Action) {
    var h := NewBlocker(s, a);
    Ok(s) && s.sched.Kochab? && h < |s.pc| && Inherit.Lends(s.sched.blockedOn, h, Actor(a))
  }

  /** The graph after a step: the acting task is blocked on its new blocker, or else no task is newly blocked on
      another. */
  ghost predicate GraphChange(b: seq<nat>, c: seq<nat>, t: nat, h: nat) {
    if h < |b| then t < |b| && h != t && c == b[t := h] else Inherit.Loosens(b, c)
  }

  lemma Overlaps(bits: BitSet)
    ensures TASK_TIMER in bits <==> bits * {TASK_TIMER} != {}
  {
    if TASK_TIMER in bits { assert TASK_TIMER in bits * {TASK_TIMER}; }
  }

  lemma AttemptGraph(s: State, t: nat, m: nat, timing: Timing)
    requires Ok(s) && s.sched.Kochab? && t < |s.pc| && m < |s.holder| && s.holder[m] != t
    requires s.sched.Runnable(t) && AttemptOk(s, t, m)
    ensures var r := MutexAttempt(s, t, m, timing);
            r.sched.Kochab? && GraphChange(s.sched.blockedOn, r.sched.blockedOn, t,
                                           BlocksOnHolder(s, m, timing, TASK_TIMER in s.signals[t]))
  {
    hide Inherit.IsBlockGraph, StillTime, TimerArgument;
    assert s.holder[m] < |s.pc| || s.holder[m] == TASK_ID_NONE by { assert IsTaskOrNone(s, s.holder[m]); }
    var r := MutexAttempt(s, t, m, timing);
    if s.holder[m] != TASK_ID_NONE && StillTime(s.clock, timing) {
      var w := s.(mutexWaiters := s.mutexWaiters[t := m]);
      var timed := StartTimer(w, t, timing);
      Overlaps(timed.signals[t]);
      assert w.sched.blockedOn[t := t] == w.sched.blockedOn;
    }
  }

  lemma WakeGraph(w: Woken, id: nat, none: nat, t: nat)
    requires w.sched.Ok() && w.sched.Kochab? && t <= w.sched.TaskCount() == |w.waiters| == |w.signals|
    ensures var r := Wake(w, id, none, t);
            r.sched.Kochab? && Inherit.Loosens(w.sched.blockedOn, r.sched.blockedOn)
    decreases |w.waiters| - t
  {
    if t < |w.waiters| {
      if w.waiters[t] == id {
        WakeGraph(Woken(w.waiters[t := none], w.signals[t := w.signals[t] + {TASK_TIMER}], w.sched.SetRunnable(t)),
                  id, none, t + 1);
      } else {
        WakeGraph(w, id, none, t + 1);
      }
    }
  }

  lemma UnlockGraph(s: State, m: nat)
    requires Ok(s) && s.sched.Kochab? && m < |s.holder|
    ensures var r := UnlockStep(s, m); r.sched.Kochab? && Inherit.Loosens(s.sched.blockedOn, r.sched.blockedOn)
  {
    hide Inherit.IsBlockGraph, Wake;
    WakeGraph(Woken(s.mutexWaiters, s.signals, s.sched.Unlock(m)), m, MUTEX_ID_NONE, 0);
  }

  lemma PostGraph(s: State, k: nat)
    requires Ok(s) && s.sched.Kochab? && k < |s.value|
    ensures var r := PostStep(s, k); r.sched.Kochab? && Inherit.Loosens(s.sched.blockedOn, r.sched.blockedOn)
  {
    hide Inherit.IsBlockGraph, Wake;
    if s.value[k] == 0 { WakeGraph(Woken(s.semWaiters, s.signals, s.sched), k, SEM_ID_NONE, 0); }
  }

  lemma WaitGraph(s: State, t: nat, p: Pc)
    requires Ok(s) && s.sched.Kochab? && t < |s.pc| && p.Waiting? && WaitOk(s, p) && p.blocker == TASK_ID_NONE
    requires p.timing.Until? ==> StillTime(s.clock, p.timing)
    ensures var r := StartWait(s, t, p); r.sched.Kochab? && Inherit.Loosens(s.sched.blockedOn, r.sched.blockedOn)
  {
    hide Inherit.IsBlockGraph, StillTime, TimerArgument;
  }

  lemma SemAttemptGraph(s: State, t: nat, k: nat, timing: Timing)
    requires Ok(s) && s.sched.Kochab? && t < |s.pc| && k < |s.value| && s.sched.Runnable(t)
    ensures var r := SemAttempt(s, t, k, timing);
            r.sched.Kochab? && Inherit.Loosens(s.sched.blockedOn, r.sched.blockedOn)
  {
    hide Inherit.IsBlockGraph, StartWait;
    if s.value[k] == 0 && StillTime(s.clock, timing) {
      WaitGraph(s.(semWaiters := s.semWaiters[t := k]), t,
                Waiting(ForSemaphore(k), {TASK_TIMER}, TASK_ID_NONE, timing));
    }
  }

  lemma OtherGraph(s: State, a: Action)
    requires Ok(s) && s.sched.Kochab? && Enabled(s, a) && !a.Lock? && !a.Resume?
    ensures var r := Do(s, a); r.sched.Kochab? && Inherit.Loosens(s.sched.blockedOn, r.sched.blockedOn)
  {
    hide Inherit.IsBlockGraph, StartWait, UnlockStep, PostStep, SemAttempt;
    match a
    case Unlock(_, m) => UnlockGraph(s, m);
    case Post(_, k) => PostGraph(s, k);
    case WaitSignals(t, requested) => WaitGraph(s, t, SignalWait(requested));
    case Sleep(t, ticks) =>
      WaitGraph(if ticks == 0 then Send(s, t, {TASK_TIMER}) else s, t, SignalWait({TASK_TIMER}));
    case SemWait(t, k, timing) => SemAttemptGraph(s, t, k, timing);
    case _ =>
  }

  lemma ResumeGraph(s: State, t: nat)
    requires Inv(s) && s.sched.Kochab? && Enabled(s, Resume(t))
    ensures var r := Do(s, Resume(t));
            r.sched.Kochab? && GraphChange(s.sched.blockedOn, r.sched.blockedOn, t, NewBlocker(s, Resume(t)))
  {
    assert TaskInv(s, t) && WaitOk(s, s.pc[t]);
    hide Inherit.IsBlockGraph, BlocksOnHolder, MutexAttempt, SemAttempt, Inv;
    var p := s.pc[t];
    Overlaps(s.signals[t]);
    if s.signals[t] * p.requested != {} {
      var got := s.(signals := s.signals[t := s.signals[t] - p.requested]);
      match p.purpose
      case ForMutex(m) =>
        AttemptGraph(got, t, m, p.timing);
        SameBlocker(s, got, m, p.timing);
      case ForSemaphore(k) => SemAttemptGraph(got, t, k, p.timing);
      case ForSignals =>
    }
  }

  lemma SameBlocker(s: State, got: State, m: nat, timing: Timing)
    requires got.holder == s.holder && got.clock == s.clock
    ensures BlocksOnHolder(got, m, timing, false) == BlocksOnHolder(s, m, timing, false)
  {
  }

  lemma StepGraph(s: State, a: Action)
    requires Inv(s) && s.sched.Kochab? && Enabled(s, a)
    ensures var r := Do(s, a);
            r.sched.Kochab? && GraphChange(s.sched.blockedOn, r.sched.blockedOn, Actor(a), NewBlocker(s, a))
  {
    hide Inherit.IsBlockGraph, MutexAttempt, BlocksOnHolder;
    match a
    case Lock(t, m, timing) => AttemptGraph(s, t, m, timing);
    case Resume(t) => ResumeGraph(s, t);
    case _ => OtherGraph(s, a);
  }

  /** A step of Kochab from an acyclic graph leads to an acyclic one unless it closes a cycle, and never if it does. */
  lemma {:induction false} StepStaysAcyclicIff(s: State, a: Action)
    requires Inv(s) && s.sched.Kochab? && Enabled(s, a) && Inherit.Acyclic(s.sched.blockedOn)
    ensures Do(s, a).sched.Kochab? && Inherit.IsBlockGraph(Do(s, a).sched.blockedOn)
    ensures Inherit.Acyclic(Do(s, a).sched.blockedOn) <==> !ClosesCycle(s, a)
  {
    StepGraph(s, a);
    var b, h := s.sched.blockedOn, NewBlocker(s, a);
    assert Ok(s) && Do(s, a).sched.Ok();
    hide Inv, Enabled, Do;
    assert |b| == |s.pc|;
    if h < |b| {
      Inherit.BlockingClosesIff(b, Actor(a), h);
      assert Do(s, a).sched.blockedOn == b[Actor(a) := h];
    } else {
      Inherit.LooserIsAcyclic(b, Do(s, a).sched.blockedOn);
    }
  }

  ghost predicate AcyclicGraph(s: State) {
    Ok(s) && s.sched.Kochab? && Inherit.IsBlockGraph(s.sched.blockedOn) && Inherit.Acyclic(s.sched.blockedOn)
  }

  /** In a run of Kochab the inheritance graph is acyclic in every state, so that sched_get_next terminates in all of
      them, if and only if no step blocks its task on a task whose chain leads back to it.  The condition is about
      the state before each step. */
  lemma {:induction false} AcyclicIffNoStepCloses(states: seq<State>, actions: seq<Action>, n: nat)
    requires IsRun(states, actions) && n < |states| && states[0].sched.Kochab?
    ensures (forall i: nat | i <= n :: AcyclicGraph(states[i]))
            <==> forall i: nat | i < n :: !ClosesCycle(states[i], actions[i])
  {
    hide IsRun, AcyclicGraph, ClosesCycle;
    RunStarts(states, actions);
    if n == 0 {
      StartsAcyclic(states[0]);
    } else {
      AcyclicIffNoStepCloses(states, actions, n - 1);
      if AcyclicGraph(states[n - 1]) { RunStepStaysAcyclicIff(states, actions, n - 1); }
    }
  }

  lemma RunStepStaysAcyclicIff(states: seq<State>, actions: seq<Action>, i: nat)
    requires IsRun(states, actions) && i < |actions| && AcyclicGraph(states[i])
    ensures AcyclicGraph(states[i + 1]) <==> !ClosesCycle(states[i], actions[i])
  {
    RunKeepsInv(states, actions, i);
    RunKeepsInv(states, actions, i + 1);
    assert Ok(states[i + 1]);
    StepOf(states, actions, i);
    hide Inv, Do, Enabled, IsRun, ClosesCycle, Ok;
    StepStaysAcyclicIff(states[i], actions[i]);
  }

  lemma StepOf(states: seq<State>, actions: seq<Action>, i: nat)
    requires IsRun(states, actions) && i < |actions|
    ensures Enabled(states[i], actions[i]) && states[i + 1] == Do(states[i], actions[i])
    ensures states[i + 1].sched.Kochab? == states[i].sched.Kochab?
  {
    assert Steps(states[i], actions[i], states[i + 1]);
    RunFrame(states, actions, i);
  }

  lemma StartsAcyclic(s: State)
    requires Init(s) && s.sched.Kochab?
    ensures AcyclicGraph(s)
  {
    forall t: nat | t < |s.sched.blockedOn| ensures s.sched.blockedOn[t] == t { assert s.sched.Runnable(t); }
  }

  /** A run whose every step is made by the scheduled task or by no task. */
  ghost predicate IsScheduledRun(states: seq<State>, actions: seq<Action>) {
    && IsRun(states, actions) && |states| == |actions| + 1
    && forall i: nat {:trigger actions[i]} | i < |actions| :: Ok(states[i]) && ByScheduled(states[i], actions[i])
  }

  /** sched_get_next returns: its walk meets no chain without end. */
  ghost predicate Returns(s: State) {
    Ok(s) && s.sched.Kochab? && Inherit.IsBlockGraph(s.sched.blockedOn) && !Inherit.WalkLoops(s.sched.blockedOn, 0)
  }

  lemma AcyclicReturns(s: State)
    requires AcyclicGraph(s)
    ensures Returns(s)
  {
    Inherit.AcyclicWalks(s.sched.blockedOn);
  }

  /** When the scheduled task closes a cycle, sched_get_next does not return in the next state. */
  lemma ClosingEndsReturns(s: State, a: Action)
    requires Inv(s) && s.sched.Kochab? && Enabled(s, a) && ByScheduled(s, a) && ClosesCycle(s, a)
    ensures !Returns(Do(s, a))
  {
    StepGraph(s, a);
    var b, h := s.sched.blockedOn, NewBlocker(s, a);
    assert |b| == |s.pc| && Actor(a) < |b|;
    hide Inv, Enabled, Do, Ok;
    Inherit.ClosingLoopsAtOnce(b, Actor(a), h);
    assert Do(s, a).sched.blockedOn == b[Actor(a) := h];
  }

  lemma RunReturnsStep(states: seq<State>, actions: seq<Action>, i: nat)
    requires IsScheduledRun(states, actions) && i < |actions| && AcyclicGraph(states[i])
    ensures Returns(states[i + 1]) <==> !ClosesCycle(states[i], actions[i])
  {
    RunKeepsInv(states, actions, i);
    StepOf(states, actions, i);
    assert Ok(states[i]) && ByScheduled(states[i], actions[i]);
    hide Inv, Do, Enabled, IsRun, ClosesCycle, Ok, ByScheduled, Returns;
    RunStepStaysAcyclicIff(states, actions, i);
    if ClosesCycle(states[i], actions[i]) {
      ClosingEndsReturns(states[i], actions[i]);
    } else {
      AcyclicReturns(states[i + 1]);
    }
  }

  /** In a scheduled run of Kochab sched_get_next returns in every state if and only if no step blocks its task on a
      task whose chain leads back to it.  The condition is about the state before each step. */
  lemma {:induction false} ReturnsIffNoStepCloses(states: seq<State>, actions: seq<Action>, n: nat)
    requires IsScheduledRun(states, actions) && n < |states| && states[0].sched.Kochab?
    ensures (forall i: nat | i <= n :: Returns(states[i]))
            <==> forall i: nat | i < n :: !ClosesCycle(states[i], actions[i])
  {
    hide IsRun, AcyclicGraph, ClosesCycle, Returns;
    RunStarts(states, actions);
    if n == 0 {
      StartsAcyclic(states[0]);
      AcyclicReturns(states[0]);
    } else {
      ReturnsIffNoStepCloses(states, actions, n - 1);
      AcyclicIffNoStepCloses(states, actions, n - 1);
      if AcyclicGraph(states[n - 1]) { RunReturnsStep(states, actions, n - 1); }
    }
  }

  // ----- A run that closes a cycle -----------------------------------------------------------------------------

  /** Such a run takes the given actions and leads to s. */
  ghost predicate ReachedBy(s: State, actions: seq<Action>) {
    exists states :: IsScheduledRun(states, actions) && states[|actions|] == s
  }

  lemma ReachedFirst(s: State)
    requires Init(s)
    ensures ReachedBy(s, []) && Ok(s)
  {
    hide Sched.Ok;
    var actions: seq<Action> := [];
    assert IsScheduledRun([s], actions) && [s][|actions|] == s;
  }

  lemma RunNext(states: seq<State>, actions: seq<Action>, a: Action)
    requires IsRun(states, actions) && Enabled(states[|actions|], a)
    ensures IsRun(states + [Do(states[|actions|], a)], actions + [a])
  {
    hide Init, Enabled, Do;
    var s := states[|actions|];
    var states', actions' := states + [Do(s, a)], actions + [a];
    forall i: nat | i < |actions'| ensures Steps(states'[i], actions'[i], states'[i + 1]) {
      if i < |actions| { assert actions'[i] == actions[i]; } else { assert Steps(s, a, Do(s, a)); }
    }
  }

  lemma ScheduledNext(states: seq<State>, actions: seq<Action>, a: Action)
    requires IsScheduledRun(states, actions) && Ok(states[|actions|])
    requires Enabled(states[|actions|], a) && ByScheduled(states[|actions|], a)
    ensures IsScheduledRun(states + [Do(states[|actions|], a)], actions + [a])
  {
    hide IsRun, Enabled, Do, ByScheduled, Ok;
    RunNext(states, actions, a);
    var states', actions' := states + [Do(states[|actions|], a)], actions + [a];
    forall i: nat | i < |actions'| ensures Ok(states'[i]) && ByScheduled(states'[i], actions'[i]) {
      if i < |actions| { assert actions'[i] == actions[i]; }
    }
  }

  lemma ReachedNext(s: State, actions: seq<Action>, a: Action) returns (r: State)
    requires ReachedBy(s, actions) && Ok(s) && Enabled(s, a) && ByScheduled(s, a)
    ensures r == Do(s, a) && ReachedBy(r, actions + [a]) && Ok(r)
  {
    hide IsRun, Enabled, Do, ByScheduled, Ok;
    r := Do(s, a);
    var states :| IsScheduledRun(states, actions) && states[|actions|] == s;
    ScheduledNext(states, actions, a);
    assert IsScheduledRun(states + [r], actions + [a]) && (states + [r])[|actions + [a]|] == r;
  }

  /** Two tasks and two mutexes. */
  function TwoByTwo(blockedOn: seq<nat>, signals: BitSet, pc: seq<Pc>, holder: seq<nat>, waiters: seq<nat>): State {
    State(Kochab(blockedOn), [signals, {}], pc, 0, holder, waiters, [], [SEM_ID_NONE, SEM_ID_NONE], [], 256, false,
          [], [])
  }

  /** Whom the scheduler picks of two tasks. */
  lemma ZeroIsPicked()
    ensures Inherit.ReferenceGetNext([0, 1]) == Inherit.Chosen(0)
  {
    assert Inherit.ResolveBlockChain([0, 1], 0, {}) == Inherit.EndsIn(0);
  }

  lemma OneIsPicked()
    ensures Inherit.ReferenceGetNext([TASK_ID_NONE, 1]) == Inherit.Chosen(1)
    ensures Inherit.ReferenceGetNext([1, 1]) == Inherit.Chosen(1)
  {
    assert Inherit.ResolveBlockChain([TASK_ID_NONE, 1], 0, {}) == Inherit.EndsIn(TASK_ID_NONE);
    assert Inherit.ResolveBlockChain([TASK_ID_NONE, 1], 1, {}) == Inherit.EndsIn(1);
    assert Inherit.ReferenceFrom([TASK_ID_NONE, 1], 1) == Inherit.Chosen(1);
    assert Inherit.ResolveBlockChain([1, 1], 1, {0}) == Inherit.EndsIn(1);
    assert Inherit.ResolveBlockChain([1, 1], 0, {}) == Inherit.EndsIn(1);
  }

  lemma CycleIsMet()
    ensures Inherit.WalkLoops([1, 0], 0)
  {
    assert Inherit.ResolveBlockChain([1, 0], 1, {0}) == Inherit.CycleAsserted;
    assert Inherit.ResolveBlockChain([1, 0], 0, {}) == Inherit.CycleAsserted;
    Inherit.AssertsIffWalkLoops([1, 0], 0);
  }

  const FREE: nat := TASK_ID_NONE
  const NOT_WAITING: seq<nat> := [MUTEX_ID_NONE, MUTEX_ID_NONE]

  /** The start, and task 0's first step. */
  lemma TwoTasksStart() returns (s: State, a: Action)
    ensures s == TwoByTwo([0, 1], {}, [Outside, Outside], [FREE, FREE], NOT_WAITING) && a == WaitSignals(0, {1})
    ensures ReachedBy(s, []) && Ok(s) && Enabled(s, a)
  {
    s, a := TwoByTwo([0, 1], {}, [Outside, Outside], [FREE, FREE], NOT_WAITING), WaitSignals(0, {1});
    ReachedFirst(s);
  }

  lemma FirstWait(s: State)
    requires s == TwoByTwo([0, 1], {}, [Outside, Outside], [FREE, FREE], NOT_WAITING) && Ok(s)
    requires Enabled(s, WaitSignals(0, {1}))
    ensures Do(s, WaitSignals(0, {1}))
            == TwoByTwo([TASK_ID_NONE, 1], {}, [SignalWait({1}), Outside], [FREE, FREE], NOT_WAITING)
  {
    hide Sched.Ok, Ok;
    assert s.signals[0] * {1} == {};
    var r := StartWait(s, 0, SignalWait({1}));
    assert r.sched.blockedOn == [TASK_ID_NONE, 1] && r.pc == [SignalWait({1}), Outside];
  }

  /** Task 0 waits for a signal. */
  lemma ZeroWaits() returns (s: State)
    ensures ReachedBy(s, [WaitSignals(0, {1})]) && Ok(s)
    ensures s == TwoByTwo([TASK_ID_NONE, 1], {}, [SignalWait({1}), Outside], [FREE, FREE], NOT_WAITING)
  {
    var t, a := TwoTasksStart();
    FirstWait(t);
    ZeroIsPicked();
    hide Sched.Ok, Ok, Do, Enabled, Inherit.ReferenceGetNext;
    s := ReachedNext(t, [], a);
    assert [] + [a] == [WaitSignals(0, {1})];
  }

  /** Task 1 takes mutex 0. */
  lemma OneHoldsZero() returns (s: State)
    ensures ReachedBy(s, [WaitSignals(0, {1}), Lock(1, 0, Forever)]) && Ok(s)
    ensures s == TwoByTwo([TASK_ID_NONE, 1], {}, [SignalWait({1}), Outside], [1, FREE], NOT_WAITING)
  {
    var t := ZeroWaits();
    OneIsPicked();
    hide Sched.Ok, Ok, SemAttempt, UnlockStep, PostStep, ResumeStep, StartWait, Inherit.ReferenceGetNext;
    s := ReachedNext(t, [WaitSignals(0, {1})], Lock(1, 0, Forever));
    assert [WaitSignals(0, {1})] + [Lock(1, 0, Forever)] == [WaitSignals(0, {1}), Lock(1, 0, Forever)];
  }

  /** An interrupt event sends the signal. */
  lemma ZeroIsSent() returns (s: State)
    ensures ReachedBy(s, [WaitSignals(0, {1}), Lock(1, 0, Forever), Event(0, {1})]) && Ok(s)
    ensures s == TwoByTwo([0, 1], {1}, [SignalWait({1}), Outside], [1, FREE], NOT_WAITING)
  {
    var t := OneHoldsZero();
    hide Sched.Ok, Ok;
    var before := [WaitSignals(0, {1}), Lock(1, 0, Forever)];
    s := ReachedNext(t, before, Event(0, {1}));
    assert before + [Event(0, {1})] == [WaitSignals(0, {1}), Lock(1, 0, Forever), Event(0, {1})];
    assert s.signals[0] == {1};
    assert s.sched.blockedOn == [0, 1] && s.signals == [{1}, {}];
  }

  /** Task 0 receives it. */
  lemma ZeroWakes() returns (s: State)
    ensures ReachedBy(s, [WaitSignals(0, {1}), Lock(1, 0, Forever), Event(0, {1}), Resume(0)]) && Ok(s)
    ensures s == TwoByTwo([0, 1], {}, [Outside, Outside], [1, FREE], NOT_WAITING)
  {
    var t := ZeroIsSent();
    ZeroIsPicked();
    hide Sched.Ok, Ok, MutexAttempt, SemAttempt, UnlockStep, PostStep, StartWait, Inherit.ReferenceGetNext;
    var before := [WaitSignals(0, {1}), Lock(1, 0, Forever), Event(0, {1})];
    assert 1 in t.signals[0] * {1};
    s := ReachedNext(t, before, Resume(0));
    assert before + [Resume(0)] == [WaitSignals(0, {1}), Lock(1, 0, Forever), Event(0, {1}), Resume(0)];
    assert s.signals[0] == {};
    assert s.signals == [{}, {}] && s.pc == [Outside, Outside];
  }

  const FIRST_STEPS: seq<Action> := [WaitSignals(0, {1}), Lock(1, 0, Forever), Event(0, {1}), Resume(0)]

  /** Task 0 takes mutex 1. */
  lemma EachHoldsOne() returns (s: State)
    ensures ReachedBy(s, FIRST_STEPS + [Lock(0, 1, Forever)]) && Ok(s)
    ensures s == TwoByTwo([0, 1], {}, [Outside, Outside], [1, 0], NOT_WAITING)
  {
    var t := ZeroWakes();
    ZeroIsPicked();
    hide Sched.Ok, Ok, SemAttempt, UnlockStep, PostStep, ResumeStep, StartWait, Inherit.ReferenceGetNext;
    s := ReachedNext(t, FIRST_STEPS, Lock(0, 1, Forever));
  }

  /** Task 0 waits for mutex 0. */
  lemma ZeroBlocks() returns (s: State)
    ensures ReachedBy(s, FIRST_STEPS + [Lock(0, 1, Forever)] + [Lock(0, 0, Forever)]) && Ok(s)
    ensures s == TwoByTwo([1, 1], {}, [Waiting(ForMutex(0), {TASK_TIMER}, 1, Forever), Outside], [1, 0],
                          [0, MUTEX_ID_NONE])
  {
    var t := EachHoldsOne();
    ZeroIsPicked();
    hide Sched.Ok, Ok, SemAttempt, UnlockStep, PostStep, ResumeStep, Inherit.ReferenceGetNext;
    s := ReachedNext(t, FIRST_STEPS + [Lock(0, 1, Forever)], Lock(0, 0, Forever));
    assert s.sched.blockedOn == [1, 1];
  }

  /** Without a lock order the scheduled tasks themselves can close a cycle: two tasks that lock two mutexes in opposite
      orders end up blocked on each other, and sched_get_next does not return. */
  lemma OppositeOrdersDeadlock() returns (s: State)
    ensures ReachedBy(s, [WaitSignals(0, {1}), Lock(1, 0, Forever), Event(0, {1}), Resume(0),
                          Lock(0, 1, Forever), Lock(0, 0, Forever), Lock(1, 1, Forever)])
    ensures s.sched == Kochab([1, 0]) && Inherit.WalkLoops([1, 0], 0)
  {
    var t := ZeroBlocks();
    OneIsPicked();
    CycleIsMet();
    hide Sched.Ok, Ok, SemAttempt, UnlockStep, PostStep, ResumeStep, Inherit.ReferenceGetNext, Inherit.WalkLoops;
    var before := FIRST_STEPS + [Lock(0, 1, Forever)] + [Lock(0, 0, Forever)];
    s := ReachedNext(t, before, Lock(1, 1, Forever));
    assert before + [Lock(1, 1, Forever)]
           == [WaitSignals(0, {1}), Lock(1, 0, Forever), Event(0, {1}), Resume(0),
               Lock(0, 1, Forever), Lock(0, 0, Forever), Lock(1, 1, Forever)];
    assert s.sched.blockedOn == [1, 0];
  }
}
