/** What the kernel objects promise over every run, whatever the scheduler picks and whatever signals interrupts and
    timers send. */
module KernelTheorems {
  import opened Ids
  import opened Kernel
  import opened KernelSafety
  import opened Sched
  import opened Timeouts
  import opened Modular
  import Inherit = SchedPrioInherit

  predicate WaitsForMutex(s: State, t: nat, m: nat) {
    t < |s.pc| && s.pc[t].Waiting? && s.pc[t].purpose == ForMutex(m)
  }

  predicate WaitsForSemaphore(s: State, t: nat, k: nat) {
    t < |s.pc| && s.pc[t].Waiting? && s.pc[t].purpose == ForSemaphore(k)
  }

  /** Task t itself receives bit b in this step: it polls for it, or its wait for it ends. */
  predicate Receives(s: State, a: Action, t: nat, b: nat) {
    t < |s.pc| == |s.signals| && b in s.signals[t]
    && match a
       case PollSignals(u, requested) => u == t && b in requested
       case Resume(u) => u == t && s.pc[t].Waiting? && b in s.pc[t].requested
       case _ => false
  }

  // ----- What one step can change ------------------------------------------------------------------------------

  /** The task that makes the step; TASK_ID_NONE for interrupts and ticks. */
  function Actor(a: Action): nat {
    match a
    case Lock(t, _, _) => t case TryLock(t, _) => t case Unlock(t, _) => t
    case SemWait(t, _, _) => t case SemTryWait(t, _) => t case Post(t, _) => t case SetMax(t, _, _) => t
    case WaitSignals(t, _) => t case PollSignals(t, _) => t case SendSignals(t, _, _) => t case Sleep(t, _) => t
    case Resume(t) => t
    case Event(_, _) => TASK_ID_NONE case Tick => TASK_ID_NONE
  }

  predicate SameSizes(s: State, r: State) {
    && |r.pc| == |s.pc| == |r.signals| == |s.signals| && |r.holder| == |s.holder| && |r.value| == |s.value|
    && r.sched.Kochab? == s.sched.Kochab? && s.clock <= r.clock
  }

  /** A mutex changes hands only when its holder unlocks it or the acting task takes it free and ends its call. */
  predicate HolderChange(s: State, a: Action, r: State, m: nat)
    requires SameSizes(s, r) && m < |s.holder|
  {
    || r.holder[m] == s.holder[m]
    || (s.holder[m] == TASK_ID_NONE && r.holder[m] == Actor(a) < |r.pc| && r.pc[Actor(a)] == Outside)
    || (a == Unlock(s.holder[m], m) && r.holder[m] == TASK_ID_NONE)
  }

  /** Only the acting task moves, and a wait it is in after the step is the one it was in or the one it called for. */
  predicate PcChange(s: State, a: Action, r: State, t: nat)
    requires SameSizes(s, r) && t < |s.pc|
  {
    || r.pc[t] == s.pc[t]
    || (t == Actor(a) && (r.pc[t].Waiting? ==>
          || (s.pc[t].Waiting? && r.pc[t].purpose == s.pc[t].purpose && r.pc[t].timing == s.pc[t].timing)
          || (s.pc[t] == Outside && r.pc[t].purpose == ForSignals && r.pc[t].timing == Forever)
          || (s.pc[t] == Outside && r.pc[t].purpose.ForMutex? && a == Lock(t, r.pc[t].purpose.mutex, r.pc[t].timing)
              && a.m < |s.holder| && s.holder[a.m] != TASK_ID_NONE)
          || (s.pc[t] == Outside && r.pc[t].purpose.ForSemaphore?
              && a == SemWait(t, r.pc[t].purpose.sem, r.pc[t].timing))))
  }

  ghost predicate Frame(s: State, a: Action, r: State) {
    && SameSizes(s, r)
    && (forall m: nat | m < |s.holder| :: HolderChange(s, a, r, m))
    && (forall t: nat | t < |s.pc| :: PcChange(s, a, r, t))
    && (forall t: nat, b: nat | t < |s.pc| && b in s.signals[t] :: b in r.signals[t] || Receives(s, a, t, b))
  }

  /** What an attempt on a mutex or a semaphore does for task t. */
  ghost predicate Attempted(s: State, t: nat, purpose: Purpose, timing: Timing, r: State) {
    && SameSizes(s, r) && t < |s.pc|
    && r.pc == s.pc[t := r.pc[t]]
    && (r.pc[t].Waiting? ==>
          r.pc[t].purpose == purpose && r.pc[t].timing == timing
          && (purpose.ForMutex? ==> purpose.mutex < |s.holder| && s.holder[purpose.mutex] != TASK_ID_NONE))
    && (forall m: nat | m < |s.holder| ::
          r.holder[m] == s.holder[m] || (s.holder[m] == TASK_ID_NONE && r.holder[m] == t && r.pc[t] == Outside))
    && forall u: nat | u < |s.pc| :: s.signals[u] <= r.signals[u]
  }

  lemma MutexAttempted(s: State, t: nat, m: nat, timing: Timing)
    requires Ok(s) && t < |s.pc| && m < |s.holder| && s.sched.Runnable(t) && AttemptOk(s, t, m)
    ensures Attempted(s, t, ForMutex(m), timing, MutexAttempt(s, t, m, timing))
  {
    hide Sched.Ok;
  }

  lemma SemAttempted(s: State, t: nat, k: nat, timing: Timing)
    requires Ok(s) && t < |s.pc| && k < |s.value| && s.sched.Runnable(t)
    ensures Attempted(s, t, ForSemaphore(k), timing, SemAttempt(s, t, k, timing))
  {
    hide Sched.Ok;
  }

  predicate Calls(a: Action, t: nat, purpose: Purpose, timing: Timing) {
    match a
    case Lock(u, m, tm) => u == t && purpose == ForMutex(m) && timing == tm
    case SemWait(u, k, tm) => u == t && purpose == ForSemaphore(k) && timing == tm
    case _ => false
  }

  lemma CallFrame(s: State, a: Action, t: nat, purpose: Purpose, timing: Timing, r: State)
    requires Attempted(s, t, purpose, timing, r) && Calls(a, t, purpose, timing) && s.pc[t] == Outside
    ensures Frame(s, a, r)
  {
  }

  lemma BackFrame(s: State, got: State, t: nat, r: State)
    requires t < |s.pc| && s.pc[t].Waiting? && |s.signals| == |s.pc|
    requires got == s.(signals := s.signals[t := s.signals[t] - s.pc[t].requested])
    requires Attempted(got, t, s.pc[t].purpose, s.pc[t].timing, r)
    ensures Frame(s, Resume(t), r)
  {
  }

  lemma ResumeFrame(s: State, t: nat)
    requires Enabled(s, Resume(t))
    ensures Frame(s, Resume(t), ResumeStep(s, t))
  {
    hide Sched.Ok;
    var p := s.pc[t];
    if s.signals[t] * p.requested != {} && !p.purpose.ForSignals? {
      var got := s.(signals := s.signals[t := s.signals[t] - p.requested]);
      match p.purpose
      case ForMutex(m) =>
        MutexAttempted(got, t, m, p.timing);
        BackFrame(s, got, t, MutexAttempt(got, t, m, p.timing));
      case ForSemaphore(k) =>
        SemAttempted(got, t, k, p.timing);
        BackFrame(s, got, t, SemAttempt(got, t, k, p.timing));
    }
  }

  lemma WakeFrame(s: State, a: Action)
    requires Enabled(s, a) && (a.Unlock? || a.Post?)
    ensures Frame(s, a, Do(s, a))
  {
    hide Sched.Ok;
  }

  lemma WaitFrame(s: State, a: Action)
    requires Enabled(s, a) && (a.WaitSignals? || a.Sleep?)
    ensures Frame(s, a, Do(s, a))
  {
    hide Sched.Ok;
  }

  lemma SignalFrame(s: State, a: Action)
    requires Enabled(s, a) && (a.PollSignals? || a.SendSignals? || a.Event? || a.Tick?)
    ensures Frame(s, a, Do(s, a))
  {
    hide Sched.Ok;
  }

  lemma TryFrame(s: State, a: Action)
    requires Enabled(s, a) && (a.TryLock? || a.SemTryWait? || a.SetMax?)
    ensures Frame(s, a, Do(s, a))
  {
    hide Sched.Ok;
  }

  lemma StepFrame(s: State, a: Action)
    requires Enabled(s, a)
    ensures Frame(s, a, Do(s, a))
  {
    hide Sched.Ok;
    match a
    case Resume(t) => ResumeFrame(s, t);
    case Lock(t, m, timing) =>
      MutexAttempted(s, t, m, timing);
      CallFrame(s, a, t, ForMutex(m), timing, MutexAttempt(s, t, m, timing));
    case SemWait(t, k, timing) =>
      SemAttempted(s, t, k, timing);
      CallFrame(s, a, t, ForSemaphore(k), timing, SemAttempt(s, t, k, timing));
    case _ =>
      if a.Unlock? || a.Post? { WakeFrame(s, a); }
      else if a.TryLock? || a.SemTryWait? || a.SetMax? { TryFrame(s, a); }
      else if a.WaitSignals? || a.Sleep? { WaitFrame(s, a); }
      else { SignalFrame(s, a); }
  }

  lemma {:induction false} RunFrame(states: seq<State>, actions: seq<Action>, i: nat)
    requires IsRun(states, actions) && i < |actions|
    ensures Frame(states[i], actions[i], states[i + 1])
  {
    assert Steps(states[i], actions[i], states[i + 1]);
    StepFrame(states[i], actions[i]);
  }

  lemma RunStarts(states: seq<State>, actions: seq<Action>)
    requires IsRun(states, actions)
    ensures |states| == |actions| + 1 && Init(states[0])
  {
  }

  lemma StartSizes(s: State)
    requires Init(s)
    ensures SameSizes(s, s)
  {
    hide Sched.Ok;
  }

  lemma {:induction false} RunSizes(states: seq<State>, actions: seq<Action>, i: nat)
    requires IsRun(states, actions) && i < |states|
    ensures SameSizes(states[0], states[i])
  {
    hide IsRun, HolderChange, PcChange, Receives;
    RunStarts(states, actions);
    if i == 0 {
      StartSizes(states[0]);
    } else {
      RunSizes(states, actions, i - 1);
      RunFrame(states, actions, i - 1);
    }
  }

  // ----- Mutexes: true holders and no lost wake-ups ------------------------------------------------------------

  /** A task blocked on another task is waiting for, and registered with, a mutex that the other holds right now, even
      after time-outs and unrelated signals. */
  lemma {:induction false} BlockedOnTrueHolder(states: seq<State>, actions: seq<Action>, i: nat, t: nat)
    requires IsRun(states, actions) && i < |states| && t < |states[i].pc|
    requires states[i].sched.BlockerOf(t) != t && states[i].sched.BlockerOf(t) != TASK_ID_NONE
    ensures Ok(states[i])
    ensures var s := states[i];
            var m := s.mutexWaiters[t];
            m < |s.holder| && WaitsForMutex(s, t, m) && s.holder[m] == s.sched.BlockerOf(t)
  {
    RunKeepsInv(states, actions, i);
    var s := states[i];
    assert TaskInv(s, t) && WaitOk(s, s.pc[t]) && !s.sched.Runnable(t);
    assert TASK_TIMER !in s.signals[t] * s.pc[t].requested;
  }

  /** A task that waits for a mutex without a pending wake-up is registered for it, and another task holds it. */
  lemma {:induction false} NoLostMutexWakeup(states: seq<State>, actions: seq<Action>, i: nat, t: nat, m: nat)
    requires IsRun(states, actions) && i < |states| && WaitsForMutex(states[i], t, m)
    ensures Ok(states[i])
    ensures var s := states[i];
            TASK_TIMER !in s.signals[t] ==>
              s.mutexWaiters[t] == m && m < |s.holder| && s.holder[m] < |s.pc| && s.holder[m] != t
  {
    RunKeepsInv(states, actions, i);
    assert TaskInv(states[i], t);
  }

  /** From the step that takes a mutex to its holder's own unlock the holder field names the holder. */
  lemma {:induction false} HolderKeepsMutex(states: seq<State>, actions: seq<Action>, i: nat, j: nat, t: nat, m: nat)
    requires IsRun(states, actions) && i <= j < |states| && m < |states[i].holder|
    requires t < |states[i].pc| && states[i].holder[m] == t
    requires forall k: nat | i <= k < j :: actions[k] != Unlock(t, m)
    ensures m < |states[j].holder| && states[j].holder[m] == t
    decreases j
  {
    hide Sched.Ok;
    if i < j {
      HolderKeepsMutex(states, actions, i, j - 1, t, m);
      RunFrame(states, actions, j - 1);
      RunSizes(states, actions, i);
      RunSizes(states, actions, j - 1);
      assert HolderChange(states[j - 1], actions[j - 1], states[j], m);
    }
  }

  // ----- Lock order keeps the inheritance graph acyclic --------------------------------------------------------

  /** Whenever a call has to wait for a mutex, the mutex ranks above all those its task holds. */
  predicate Ordered(rank: seq<nat>, s: State, a: Action) {
    a.Lock? && a.m < |s.holder| == |rank| && s.holder[a.m] != TASK_ID_NONE ==>
      forall h | 0 <= h < |s.holder| && s.holder[h] == a.t :: rank[h] < rank[a.m]
  }

  ghost predicate OrderInv(rank: seq<nat>, s: State)
    requires |rank| == |s.holder|
  {
    forall t: nat, m: nat | WaitsForMutex(s, t, m) && m < |s.holder| ::
      forall h | 0 <= h < |s.holder| && s.holder[h] == t :: rank[h] < rank[m]
  }

  lemma OrderStep(rank: seq<nat>, s: State, a: Action, r: State)
    requires Ok(s) && Frame(s, a, r) && |rank| == |s.holder| && OrderInv(rank, s) && Ordered(rank, s, a)
    ensures OrderInv(rank, r)
  {
    forall t: nat, m: nat | WaitsForMutex(r, t, m) && m < |r.holder|
      ensures forall h | 0 <= h < |r.holder| && r.holder[h] == t :: rank[h] < rank[m]
    {
      assert PcChange(s, a, r, t);
      forall h | 0 <= h < |r.holder| && r.holder[h] == t ensures rank[h] < rank[m] {
        assert HolderChange(s, a, r, h);
        if WaitsForMutex(s, t, m) { assert s.holder[h] == t; }
      }
    }
  }

  function Top(rank: seq<nat>): (top: nat)
    ensures forall m | 0 <= m < |rank| :: rank[m] < top
  {
    if |rank| == 0 then 0
    else
      var rest := Top(rank[..|rank| - 1]);
      if rank[|rank| - 1] < rest then rest else rank[|rank| - 1] + 1
  }

  lemma {:induction false} RunOrder(rank: seq<nat>, states: seq<State>, actions: seq<Action>, i: nat)
    requires IsRun(states, actions) && i < |states| && |rank| == |states[0].holder|
    requires forall k: nat | k < i :: Ordered(rank, states[k], actions[k])
    ensures |states[i].holder| == |rank| && OrderInv(rank, states[i])
  {
    hide Sched.Ok;
    if i > 0 {
      RunOrder(rank, states, actions, i - 1);
      RunFrame(states, actions, i - 1);
      assert Ordered(rank, states[i - 1], actions[i - 1]);
      OrderStep(rank, states[i - 1], actions[i - 1], states[i]);
    }
  }

  /** If tasks only ever wait for mutexes that rank above all those they hold, then in every state of every run of
      Kochab the inheritance graph has no cycle, so sched_get_next terminates. */
  lemma {:induction false} LockOrderKeepsSchedulerTerminating(
      rank: seq<nat>, states: seq<State>, actions: seq<Action>, i: nat)
    requires IsRun(states, actions) && i < |states| && states[i].sched.Kochab? && |rank| == |states[0].holder|
    requires forall k: nat | k < i :: Ordered(rank, states[k], actions[k])
    ensures Inherit.IsBlockGraph(states[i].sched.blockedOn) && Inherit.Acyclic(states[i].sched.blockedOn)
    ensures !Inherit.ReferenceGetNext(states[i].sched.blockedOn).CycleFound?
  {
    var s := states[i];
    RunKeepsInv(states, actions, i);
    RunOrder(rank, states, actions, i);
    var b := s.sched.blockedOn;
    var height := seq(|b|, t requires 0 <= t < |b| => WaitRank(rank, s.pc[t]));
    forall t: nat | t < |b| && b[t] != t && b[t] != TASK_ID_NONE ensures height[t] < height[b[t]] {
      BlockedOnTrueHolder(states, actions, i, t);
      assert s.sched.BlockerOf(t) == b[t];
      var u := b[t];
      if s.pc[u].Waiting? && s.pc[u].purpose.ForMutex? {
        assert WaitsForMutex(s, u, s.pc[u].purpose.mutex) && WaitOk(s, s.pc[u]);
      }
    }
    Inherit.ClimbingIsAcyclic(b, height);
    Inherit.AcyclicAnswers(b, 0);
  }

  function WaitRank(rank: seq<nat>, p: Pc): int {
    if p.Waiting? && p.purpose.ForMutex? && p.purpose.mutex < |rank| then rank[p.purpose.mutex] else Top(rank)
  }

  // ----- Semaphores --------------------------------------------------------------------------------------------

  /** A semaphore's value is the number of posts less the number of successful waits: always modulo its width, exactly
      if and only if that number fits the width, and without exception when maxima are configured, in which case the
      value never exceeds the maximum. */
  lemma {:induction false} SemaphoreCounts(states: seq<State>, actions: seq<Action>, i: nat, k: nat)
    requires IsRun(states, actions) && i < |states| && k < |states[i].value|
    ensures Ok(states[i])
    ensures var s := states[i];
            && s.takes[k] <= s.posts[k] && s.value[k] == Wrap(s.posts[k] - s.takes[k], s.semRange)
            && (s.value[k] == s.posts[k] - s.takes[k] <==> s.posts[k] - s.takes[k] < s.semRange)
            && (s.maxEnabled ==> s.value[k] == s.posts[k] - s.takes[k] <= s.max[k])
  {
    RunKeepsInv(states, actions, i);
    SemMeaning(states[i], k);
  }

  lemma SemMeaning(s: State, k: nat)
    requires Inv(s) && k < |s.value|
    ensures s.takes[k] <= s.posts[k] && s.value[k] == Wrap(s.posts[k] - s.takes[k], s.semRange)
    ensures s.value[k] == s.posts[k] - s.takes[k] <==> s.posts[k] - s.takes[k] < s.semRange
    ensures s.maxEnabled ==> s.value[k] == s.posts[k] - s.takes[k] <= s.max[k]
  {
    assert SemOk(s.value[k], s.max[k], s.posts[k], s.takes[k], s.semRange, s.maxEnabled);
    assert s.value[k] < s.semRange;
    hide Wrap;
    if s.posts[k] - s.takes[k] < s.semRange { WrapSmall(s.posts[k] - s.takes[k], s.semRange); }
  }

  /** Although sem_post looks for waiters only when the value is zero, a positive value means that every task waiting
      for the semaphore has its wake-up pending and is runnable. */
  lemma {:induction false} NoLostSemaphoreWakeup(states: seq<State>, actions: seq<Action>, i: nat, t: nat, k: nat)
    requires IsRun(states, actions) && i < |states| && WaitsForSemaphore(states[i], t, k)
    ensures Ok(states[i])
    ensures var s := states[i];
            k < |s.value|
            && (s.value[k] > 0 ==> TASK_TIMER in s.signals[t] && s.sched.Runnable(t))
            && (TASK_TIMER !in s.signals[t] ==> s.semWaiters[t] == k)
  {
    RunKeepsInv(states, actions, i);
    var s := states[i];
    assert TaskInv(s, t) && WaitOk(s, s.pc[t]);
    assert TASK_TIMER in s.signals[t] ==> TASK_TIMER in s.signals[t] * s.pc[t].requested;
  }

  // ----- Signals -----------------------------------------------------------------------------------------------

  lemma {:induction false} RunSignals(states: seq<State>, actions: seq<Action>, i: nat, t: nat, b: nat)
    requires IsRun(states, actions) && i < |actions| && t < |states[i].signals| && b in states[i].signals[t]
    ensures t < |states[i + 1].signals|
    ensures b in states[i + 1].signals[t] || Receives(states[i], actions[i], t, b)
  {
    RunFrame(states, actions, i);
  }

  /** A bit pending for a task is still pending at any later point of the run, or the task has received it since. */
  lemma {:induction false} SignalsArrive(states: seq<State>, actions: seq<Action>, i: nat, j: nat, t: nat, b: nat)
    requires IsRun(states, actions) && i <= j < |states| && t < |states[i].signals| && b in states[i].signals[t]
    ensures t < |states[j].signals|
    ensures b in states[j].signals[t] || exists k: nat :: i <= k < j && Receives(states[k], actions[k], t, b)
    decreases j
  {
    hide Init, Steps, Receives;
    if i < j {
      SignalsArrive(states, actions, i, j - 1, t, b);
      if b in states[j - 1].signals[t] {
        RunSignals(states, actions, j - 1, t, b);
      } else {
        RunSizes(states, actions, j - 1);
        RunSizes(states, actions, j);
      }
    }
  }

  // ----- Calls that wait ---------------------------------------------------------------------------------------

  /** In this step task t tries to take what it wants under the given timing: on the call, or back from a wait. */
  predicate Tries(s: State, a: Action, t: nat, purpose: Purpose, timing: Timing) {
    || Calls(a, t, purpose, timing)
    || match a
       case Resume(u) => u == t && t < |s.pc| == |s.signals| && s.pc[t].Waiting?
                         && s.signals[t] * s.pc[t].requested != {}
                         && s.pc[t].purpose == purpose && s.pc[t].timing == timing
       case _ => false
  }

  predicate Available(s: State, purpose: Purpose) {
    match purpose
    case ForMutex(m) => m < |s.holder| && s.holder[m] == TASK_ID_NONE
    case ForSemaphore(k) => k < |s.value| && s.value[k] != 0
    case ForSignals => false
  }

  /** What task t wanted is its own now, and nothing else has changed hands. */
  predicate Acquired(s: State, r: State, t: nat, purpose: Purpose) {
    match purpose
    case ForMutex(m) => m < |s.holder| && r.holder == s.holder[m := t] && r.value == s.value && r.takes == s.takes
    case ForSemaphore(k) => k < |s.value| == |s.takes| && s.value[k] > 0 && r.holder == s.holder
                            && r.value == s.value[k := s.value[k] - 1] && r.takes == s.takes[k := s.takes[k] + 1]
    case ForSignals => false
  }

  predicate NothingAcquired(s: State, r: State) {
    r.holder == s.holder && r.value == s.value && r.takes == s.takes
  }

  /** What is available is acquired and the call returns; otherwise nothing is acquired and the call returns only when
      its time is over. */
  predicate Outcome(s: State, r: State, t: nat, purpose: Purpose, timing: Timing) {
    && t < |r.pc|
    && (if Available(s, purpose) then r.pc[t] == Outside && Acquired(s, r, t, purpose)
        else
          && NothingAcquired(s, r)
          && (r.pc[t] == Outside <==> !StillTime(s.clock, timing))
          && (r.pc[t].Waiting? ==> r.pc[t].purpose == purpose && r.pc[t].timing == timing))
  }

  lemma MutexOutcome(s: State, t: nat, m: nat, timing: Timing)
    requires Ok(s) && t < |s.pc| && m < |s.holder| && s.sched.Runnable(t) && AttemptOk(s, t, m)
    ensures Outcome(s, MutexAttempt(s, t, m, timing), t, ForMutex(m), timing)
  {
    hide Sched.Ok, Sched.SetRunnable, Sched.Block, Sched.Lock;
  }

  lemma SemOutcome(s: State, t: nat, k: nat, timing: Timing)
    requires Ok(s) && t < |s.pc| && k < |s.value| && s.sched.Runnable(t)
    ensures Outcome(s, SemAttempt(s, t, k, timing), t, ForSemaphore(k), timing)
  {
    hide Sched.Ok, Sched.SetRunnable, Sched.Block;
  }

  lemma AttemptOutcome(s: State, a: Action, t: nat, purpose: Purpose, timing: Timing)
    requires Enabled(s, a) && Tries(s, a, t, purpose, timing) && purpose != ForSignals
    ensures Outcome(s, Do(s, a), t, purpose, timing)
  {
    hide Sched.Ok, MutexAttempt, SemAttempt;
    match a
    case Lock(_, m, _) => MutexOutcome(s, t, m, timing);
    case SemWait(_, k, _) => SemOutcome(s, t, k, timing);
    case Resume(_) =>
      var got := s.(signals := s.signals[t := s.signals[t] - s.pc[t].requested]);
      match purpose {
        case ForMutex(m) => MutexOutcome(got, t, m, timing);
        case ForSemaphore(k) => SemOutcome(got, t, k, timing);
      }
  }

  /** Between states i and j of a run task t is in one call, made by action i, and at j the call has just returned. */
  ghost predicate CallOver(states: seq<State>, actions: seq<Action>, i: nat, j: nat, t: nat,
                           purpose: Purpose, timing: Timing)
    requires |states| == |actions| + 1
  {
    && i < j < |states| && Calls(actions[i], t, purpose, timing)
    && (forall k: nat | i < k < j :: t < |states[k].pc| && states[k].pc[t].Waiting?)
    && t < |states[j].pc| && states[j].pc[t] == Outside
  }

  /** A waiting task leaves its wait only by its own resuming, and while it waits it waits for the same. */
  lemma WaitGoesOn(s: State, a: Action, r: State, t: nat)
    requires Enabled(s, a) && Frame(s, a, r) && t < |s.pc| && s.pc[t].Waiting?
    ensures r.pc[t] != s.pc[t] ==> a == Resume(t)
    ensures r.pc[t].Waiting? ==> r.pc[t].purpose == s.pc[t].purpose && r.pc[t].timing == s.pc[t].timing
  {
    assert PcChange(s, a, r, t);
  }

  lemma {:induction false} WaitsForCall(states: seq<State>, actions: seq<Action>, i: nat, k: nat, t: nat,
                                        purpose: Purpose, timing: Timing)
    requires IsRun(states, actions) && i < k < |states| && Calls(actions[i], t, purpose, timing)
    requires forall l: nat | i < l <= k :: t < |states[l].pc| && states[l].pc[t].Waiting?
    ensures states[k].pc[t].purpose == purpose && states[k].pc[t].timing == timing
    decreases k
  {
    hide Sched.Ok, Do, Frame, Outcome;
    assert Steps(states[k - 1], actions[k - 1], states[k]);
    RunFrame(states, actions, k - 1);
    if i + 1 < k {
      WaitsForCall(states, actions, i, k - 1, t, purpose, timing);
      WaitGoesOn(states[k - 1], actions[k - 1], states[k], t);
    } else {
      AttemptOutcome(states[i], actions[i], t, purpose, timing);
      CallWaits(states[i], states[k], t, purpose, timing);
    }
  }

  lemma CallWaits(s: State, r: State, t: nat, purpose: Purpose, timing: Timing)
    requires Outcome(s, r, t, purpose, timing) && r.pc[t].Waiting?
    ensures r.pc[t].purpose == purpose && r.pc[t].timing == timing
  {
  }

  /** mutex_lock, mutex_lock_timeout, sem_wait and sem_wait_timeout in every run: the step with which the call returns
      takes the mutex, or one unit of the semaphore, and nothing else; only a call with a timeout whose time is over
      returns without, and then it takes nothing.  Whatever other tasks do, no earlier step of the call takes
      anything. */
  lemma {:induction false} CallsReturnHolding(states: seq<State>, actions: seq<Action>, i: nat, j: nat, t: nat,
                                              purpose: Purpose, timing: Timing)
    requires IsRun(states, actions) && CallOver(states, actions, i, j, t, purpose, timing)
    ensures var s, r := states[j - 1], states[j];
            if Available(s, purpose) then Acquired(s, r, t, purpose)
            else NothingAcquired(s, r) && timing.Until? && !StillTime(s.clock, timing)
    ensures forall k: nat | i <= k < j - 1 && Actor(actions[k]) == t :: NothingAcquired(states[k], states[k + 1])
  {
    forall k: nat | i <= k < j && Actor(actions[k]) == t
      ensures if k == j - 1 then Outcome(states[k], states[j], t, purpose, timing)
              else NothingAcquired(states[k], states[k + 1])
    {
      CallStep(states, actions, i, j, k, t, purpose, timing);
    }
    LastIsOwn(states, actions, i, j, t, purpose, timing);
  }

  /** The step with which a call returns is the task's own. */
  lemma LastIsOwn(states: seq<State>, actions: seq<Action>, i: nat, j: nat, t: nat, purpose: Purpose, timing: Timing)
    requires IsRun(states, actions) && CallOver(states, actions, i, j, t, purpose, timing)
    ensures Actor(actions[j - 1]) == t
  {
    hide Sched.Ok, Do, Frame;
    if i < j - 1 {
      assert Steps(states[j - 1], actions[j - 1], states[j]);
      RunFrame(states, actions, j - 1);
      assert Frame(states[j - 1], actions[j - 1], states[j]);
      WaitGoesOn(states[j - 1], actions[j - 1], states[j], t);
    }
  }

  lemma CallStep(states: seq<State>, actions: seq<Action>, i: nat, j: nat, k: nat, t: nat,
                 purpose: Purpose, timing: Timing)
    requires IsRun(states, actions) && CallOver(states, actions, i, j, t, purpose, timing)
    requires i <= k < j && Actor(actions[k]) == t
    ensures if k == j - 1 then Outcome(states[k], states[j], t, purpose, timing)
            else NothingAcquired(states[k], states[k + 1])
  {
    hide Sched.Ok, Do;
    var s, a, r := states[k], actions[k], states[k + 1];
    assert Steps(s, a, r);
    if k > i { WaitsForCall(states, actions, i, k, t, purpose, timing); }
    if a.Resume? && s.signals[t] * s.pc[t].requested == {} {
      BlocksAgain(s, t);
    } else {
      AttemptOutcome(s, a, t, purpose, timing);
    }
  }

  lemma BlocksAgain(s: State, t: nat)
    requires Enabled(s, Resume(t)) && s.signals[t] * s.pc[t].requested == {}
    ensures var r := Do(s, Resume(t)); r.pc == s.pc && NothingAcquired(s, r)
  {
    hide Sched.Ok;
  }

  /** The request of a call that waits for signals: signal_wait_set, or sleep for the task-timer signal. */
  predicate Requests(a: Action, t: nat, requested: BitSet) {
    match a
    case WaitSignals(u, r) => u == t && r == requested
    case Sleep(u, _) => u == t && requested == {TASK_TIMER}
    case _ => false
  }

  /** Between states i and j of a run task t is in one such call, made by action i, and at j it has just returned. */
  ghost predicate SignalCallOver(states: seq<State>, actions: seq<Action>, i: nat, j: nat, t: nat, requested: BitSet)
    requires |states| == |actions| + 1
  {
    && i < j < |states| && Requests(actions[i], t, requested)
    && (forall k: nat | i < k < j :: t < |states[k].pc| && states[k].pc[t].Waiting?)
    && t < |states[j].pc| && states[j].pc[t] == Outside
  }

  lemma RequestWaits(s: State, a: Action, t: nat, requested: BitSet)
    requires Enabled(s, a) && Requests(a, t, requested)
    ensures var r := Do(s, a);
            && t < |r.pc| == |r.signals| == |s.signals|
            && r.pc[t] == SignalWait(requested) && s.signals[t] <= r.signals[t]
  {
    hide Sched.Ok;
  }

  /** What a step does to a task in such a wait: only its own resuming with a requested signal pending ends it and
      takes signals; without one it blocks the task again. */
  lemma RequestStep(s: State, a: Action, t: nat, requested: BitSet)
    requires Enabled(s, a) && t < |s.pc| && s.pc[t] == SignalWait(requested)
    ensures var r := Do(s, a);
            && t < |r.pc| == |r.signals| == |s.signals|
            && (a == Resume(t) && s.signals[t] * requested == {} ==> !r.sched.Runnable(t))
            && (if a == Resume(t) && s.signals[t] * requested != {}
                then r.pc[t] == Outside && r.signals == s.signals[t := s.signals[t] - requested] && r.sched == s.sched
                else r.pc[t] == SignalWait(requested) && s.signals[t] <= r.signals[t])
  {
    hide Sched.Ok;
    StepFrame(s, a);
    var r := Do(s, a);
    WaitGoesOn(s, a, r, t);
    if a == Resume(t) {
      if s.signals[t] * requested == {} { BlocksAgain(s, t); }
    } else {
      forall b | b in s.signals[t] ensures b in r.signals[t] { assert b in r.signals[t] || Receives(s, a, t, b); }
    }
  }

  lemma {:induction false} WaitsForRequest(states: seq<State>, actions: seq<Action>, i: nat, k: nat, t: nat,
                                           requested: BitSet)
    requires IsRun(states, actions) && i < k < |states| && Requests(actions[i], t, requested)
    requires forall l: nat | i < l <= k :: t < |states[l].pc| && states[l].pc[t].Waiting?
    ensures t < |states[i].signals| && t < |states[k].signals|
    ensures states[k].pc[t] == SignalWait(requested) && states[i].signals[t] <= states[k].signals[t]
    decreases k
  {
    hide Do, Enabled;
    assert Steps(states[k - 1], actions[k - 1], states[k]);
    if i + 1 < k {
      WaitsForRequest(states, actions, i, k - 1, t, requested);
      RequestStep(states[k - 1], actions[k - 1], t, requested);
    } else {
      RequestWaits(states[i], actions[i], t, requested);
    }
  }

  /** signal_wait_set in every run, and sleep likewise: the call returns with the task's own resuming, when some of the
      requested signals are pending; it takes exactly those that are, and until then, whatever happens in between, no
      signal pending since the call is taken from the task. */
  lemma {:induction false} WaitTakesRequested(states: seq<State>, actions: seq<Action>, i: nat, j: nat, t: nat,
                                              requested: BitSet)
    requires IsRun(states, actions) && SignalCallOver(states, actions, i, j, t, requested)
    ensures i + 1 < j && actions[j - 1] == Resume(t)
    ensures var s, r := states[j - 1], states[j];
            && t < |states[i].signals| && t < |s.signals|
            && s.signals[t] * requested != {}
            && r.signals == s.signals[t := s.signals[t] - requested] && r.sched == s.sched
    ensures forall k: nat | i < k < j :: t < |states[k].signals| && states[i].signals[t] <= states[k].signals[t]
  {
    hide Do, Enabled;
    assert Steps(states[j - 1], actions[j - 1], states[j]);
    if i + 1 == j {
      RequestWaits(states[i], actions[i], t, requested);
    } else {
      WaitsForRequest(states, actions, i, j - 1, t, requested);
      RequestStep(states[j - 1], actions[j - 1], t, requested);
      forall k: nat | i < k < j
        ensures t < |states[k].signals| && states[i].signals[t] <= states[k].signals[t]
      {
        WaitsForRequest(states, actions, i, k, t, requested);
      }
    }
  }

  /** When a mutex is unlocked it is free, and every task that waits for it, in any run, is runnable with its wake-up
      pending: registered tasks are woken by the unlock, all others had been before. */
  lemma {:induction false} UnlockWakesWaiters(states: seq<State>, actions: seq<Action>, i: nat, t: nat, m: nat, u: nat)
    requires IsRun(states, actions) && i < |actions| && actions[i] == Unlock(t, m) && WaitsForMutex(states[i], u, m)
    ensures var r := states[i + 1];
            && m < |r.holder| && r.holder[m] == TASK_ID_NONE
            && WaitsForMutex(r, u, m) && u < |r.signals| && TASK_TIMER in r.signals[u] && r.sched.Runnable(u)
  {
    RunKeepsInv(states, actions, i);
    RunKeepsInv(states, actions, i + 1);
    var s, r := states[i], states[i + 1];
    assert Steps(s, actions[i], r);
    hide Sched.Ok;
    assert TaskInv(s, u) && TaskInv(r, u) && WaitOk(r, r.pc[u]);
    if TASK_TIMER in r.signals[u] { assert TASK_TIMER in r.signals[u] * r.pc[u].requested; }
  }

  // ----- Timeouts ----------------------------------------------------------------------------------------------

  ghost predicate TimingInv(s: State) {
    forall t: nat | t < |s.pc| :: s.pc[t].Waiting? ==> TimingOk(s.clock, s.pc[t].timing)
  }

  lemma {:induction false} RunTimings(states: seq<State>, actions: seq<Action>, i: nat)
    requires IsRun(states, actions) && i < |states|
    ensures TimingInv(states[i])
  {
    hide Sched.Ok, Do, Frame;
    if i > 0 {
      RunTimings(states, actions, i - 1);
      RunFrame(states, actions, i - 1);
      assert Steps(states[i - 1], actions[i - 1], states[i]);
      TimingStep(states[i - 1], actions[i - 1], states[i]);
    }
  }

  lemma TimingStep(s: State, a: Action, r: State)
    requires Enabled(s, a) && Frame(s, a, r) && TimingInv(s)
    ensures TimingInv(r)
  {
    forall t: nat | t < |r.pc| && r.pc[t].Waiting? ensures TimingOk(r.clock, r.pc[t].timing) {
      assert PcChange(s, a, r, t);
      if s.pc[t].Waiting? { assert TimingOk(s.clock, s.pc[t].timing); }
    }
  }

  /** mutex_lock_timeout and sem_wait_timeout in every run: as long as the deadline fits the tick counter and the
      counter has not wrapped since the call, an attempt on what is not available returns false at or after the
      deadline, and before it waits again with a timer argument between 1 and the timeout that says exactly how many
      ticks are left. */
  lemma {:induction false} TimeoutsAreKept(states: seq<State>, actions: seq<Action>, i: nat, t: nat, purpose: Purpose,
                                           start: nat, timeout: nat)
    requires IsRun(states, actions) && i < |actions|
    requires Tries(states[i], actions[i], t, purpose, Until(start, timeout)) && !Available(states[i], purpose)
    requires purpose != ForSignals && DeadlineFits(start, timeout) && SameEpoch(states[i].clock, start)
    ensures var s, r := states[i], states[i + 1];
            t < |r.pc|
            && (r.pc[t] == Outside <==> s.clock >= start + timeout)
            && (r.pc[t] != Outside ==>
                  r.pc[t].Waiting? && r.pc[t].purpose == purpose && r.pc[t].timing == Until(start, timeout)
                  && StillTime(s.clock, Until(start, timeout))
                  && 1 <= TimerArgument(s.clock, Until(start, timeout)) == start + timeout - s.clock <= timeout)
  {
    hide Sched.Ok, Do, StillTime, TimerArgument;
    assert Steps(states[i], actions[i], states[i + 1]);
    RunTimings(states, actions, i);
    AttemptOutcome(states[i], actions[i], t, purpose, Until(start, timeout));
    DeadlineTest(states[i].clock, start, timeout);
  }
}
