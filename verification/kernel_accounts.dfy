/** What each action of the kernel objects does to each part of the state, and the accounts that follow for whole runs:
    signals, runnability, mutex holders, waiters, semaphores and the clock, told from the list of actions. */
module KernelAccounts {
  import opened Ids
  import opened Kernel
  import opened KernelSafety
  import opened KernelTheorems
  import opened Sched
  import opened Timeouts
  import opened Modular
  import opened Counting

  // ----- What a step is about ----------------------------------------------------------------------------------

  /** Task t is back from yield() with a requested signal pending. */
  predicate Back(s: State, a: Action, t: nat) {
    a == Resume(t) && t < |s.pc| == |s.signals| && s.pc[t].Waiting? && s.signals[t] * s.pc[t].requested != {}
  }

  /** The mutex or semaphore that the step tries to take; ForSignals when it tries none. */
  function Goal(s: State, a: Action): Purpose {
    match a
    case Lock(_, m, _) => ForMutex(m)
    case TryLock(_, m) => ForMutex(m)
    case SemWait(_, k, _) => ForSemaphore(k)
    case SemTryWait(_, k) => ForSemaphore(k)
    case Resume(t) => if Back(s, a, t) then s.pc[t].purpose else ForSignals
    case _ => ForSignals
  }

  function TimingOf(s: State, a: Action): Timing {
    match a
    case Lock(_, _, timing) => timing
    case SemWait(_, _, timing) => timing
    case Resume(t) => if Back(s, a, t) then s.pc[t].timing else Forever
    case _ => Forever
  }

  /** The step takes what it tries to take. */
  predicate Gets(s: State, a: Action, p: Purpose) {
    Goal(s, a) == p && Available(s, p)
  }

  /** The step cannot take it and goes on waiting for it. */
  predicate Registers(s: State, a: Action, p: Purpose) {
    && Goal(s, a) == p && p != ForSignals && !Available(s, p)
    && !a.TryLock? && !a.SemTryWait? && StillTime(s.clock, TimingOf(s, a))
  }

  /** The acting task's own timer is started with no ticks to wait. */
  predicate Fires(s: State, a: Action) {
    || (a.Sleep? && a.ticks == 0)
    || (Registers(s, a, Goal(s, a)) && TimingOf(s, a).Until? && TimerArgument(s.clock, TimingOf(s, a)) == 0)
  }

  /** The step wakes task u as a registered waiter. */
  predicate WakesWaiter(s: State, a: Action, u: nat) {
    || (a.Unlock? && u < |s.mutexWaiters| && s.mutexWaiters[u] == a.m)
    || (a.Post? && a.k < |s.value| && s.value[a.k] == 0 && u < |s.semWaiters| && s.semWaiters[u] == a.k)
  }

  /** The signals that the step sends to task u. */
  function Sent(s: State, a: Action, u: nat): BitSet {
    match a
    case SendSignals(_, to, sent) => if to == u then sent else {}
    case Event(to, sent) => if to == u then sent else {}
    case _ => if WakesWaiter(s, a, u) || (Fires(s, a) && Actor(a) == u) then {TASK_TIMER} else {}
  }

  /** The signals that task u receives in the step, if pending. */
  function Received(s: State, a: Action, u: nat): BitSet {
    match a
    case PollSignals(t, requested) => if t == u then requested else {}
    case Resume(t) => if t == u && Back(s, a, u) then s.pc[u].requested else {}
    case _ => {}
  }

  /** The step makes task u runnable. */
  predicate Wakes(s: State, a: Action, u: nat) {
    match a
    case SendSignals(_, to, _) => to == u
    case Event(to, _) => to == u
    case _ => WakesWaiter(s, a, u)
  }

  /** Task u makes the step and is blocked at its end: it waits and no signal it waits for is pending. */
  predicate Blocks(s: State, a: Action, u: nat) {
    && u == Actor(a) && u < |s.signals|
    && match a
       case WaitSignals(_, requested) => s.signals[u] * requested == {}
       case Sleep(_, ticks) => ticks != 0 && TASK_TIMER !in s.signals[u]
       case Resume(_) => !Back(s, a, u) || (Registers(s, a, Goal(s, a)) && !Fires(s, a))
       case _ => Registers(s, a, Goal(s, a)) && TASK_TIMER !in s.signals[u] && !Fires(s, a)
  }

  // ----- The account of one step -------------------------------------------------------------------------------

  ghost predicate ObjectAccount(s: State, a: Action, r: State) {
    && SameSizes(s, r) && |r.max| == |s.max| == |s.value| == |r.posts| == |s.posts| == |r.takes| == |s.takes|
    && r.semRange == s.semRange && r.maxEnabled == s.maxEnabled && s.semRange > 0
    && r.clock == s.clock + (if a == Tick then 1 else 0)
    && (forall m: nat | m < |s.holder| ::
          r.holder[m] == if Gets(s, a, ForMutex(m)) then Actor(a)
                         else if a.Unlock? && a.m == m then TASK_ID_NONE else s.holder[m])
    && (forall k: nat | k < |s.value| ::
          r.value[k] == if Gets(s, a, ForSemaphore(k)) then s.value[k] - 1
                        else if a.Post? && a.k == k then (s.value[k] + 1) % s.semRange else s.value[k])
    && (forall k: nat | k < |s.max| :: r.max[k] == if a.SetMax? && a.k == k then a.max else s.max[k])
    && (forall k: nat | k < |s.posts| :: r.posts[k] == s.posts[k] + (if a.Post? && a.k == k then 1 else 0))
    && (forall k: nat | k < |s.takes| :: r.takes[k] == s.takes[k] + (if Gets(s, a, ForSemaphore(k)) then 1 else 0))
  }

  ghost predicate TaskAccount(s: State, a: Action, r: State, u: nat)
    requires u < |s.pc| == |s.signals| == |s.mutexWaiters| == |s.semWaiters|
    requires u < |r.pc| == |r.signals| == |r.mutexWaiters| == |r.semWaiters|
  {
    && r.signals[u] == (s.signals[u] - Received(s, a, u)) + Sent(s, a, u)
    && (r.sched.Runnable(u) <==> !Blocks(s, a, u) && (s.sched.Runnable(u) || Wakes(s, a, u)))
    && r.mutexWaiters[u] == (if a.Unlock? && s.mutexWaiters[u] == a.m then MUTEX_ID_NONE
                             else if u == Actor(a) && Goal(s, a).ForMutex? && Registers(s, a, Goal(s, a))
                             then Goal(s, a).mutex else s.mutexWaiters[u])
    && r.semWaiters[u] == (if a.Post? && WakesWaiter(s, a, u) then SEM_ID_NONE
                           else if u == Actor(a) && Goal(s, a).ForSemaphore? && Registers(s, a, Goal(s, a))
                           then Goal(s, a).sem else s.semWaiters[u])
  }

  ghost predicate Account(s: State, a: Action, r: State) {
    && ObjectAccount(s, a, r)
    && |s.mutexWaiters| == |s.semWaiters| == |s.pc| == |r.mutexWaiters| == |r.semWaiters|
    && forall u: nat | u < |s.pc| :: TaskAccount(s, a, r, u)
  }

  /** What an attempt of task t that waits, if at all, with the given flag does to the signals and the scheduler. */
  ghost predicate WaitParts(s: State, t: nat, wait: bool, timing: Timing, r: State) {
    && t < |s.pc| == |s.signals|
    && (var fires := wait && timing.Until? && StillTime(s.clock, timing) && TimerArgument(s.clock, timing) == 0;
        && r.signals == (if fires then s.signals[t := s.signals[t] + {TASK_TIMER}] else s.signals)
        && forall u: nat :: r.sched.Runnable(u) <==>
             s.sched.Runnable(u) && !(u == t && wait && !fires && TASK_TIMER !in s.signals[t]))
  }

  ghost predicate SameRest(s: State, r: State) {
    && SameSizes(s, r) && |r.mutexWaiters| == |s.mutexWaiters| && |r.semWaiters| == |s.semWaiters|
    && r.clock == s.clock && r.max == s.max && r.posts == s.posts
    && r.semRange == s.semRange && r.maxEnabled == s.maxEnabled
  }

  lemma StartWaitParts(s: State, t: nat, p: Pc)
    requires Ok(s) && t < |s.pc| && s.sched.Runnable(t) && p.Waiting? && WaitOk(s, p) && p.blocker != t
    requires p.requested == {TASK_TIMER} && (p.timing.Until? ==> StillTime(s.clock, p.timing))
    ensures WaitParts(s, t, true, p.timing, StartWait(s, t, p))
  {
    hide Sched.Ok, Sched.SetRunnable, Sched.Block;
    var fires := p.timing.Until? && TimerArgument(s.clock, p.timing) == 0;
    var w := StartTimer(s, t, p.timing);
    assert TASK_TIMER in w.signals[t] * p.requested <==> fires || TASK_TIMER in s.signals[t];
  }

  lemma MutexAttemptParts(s: State, t: nat, m: nat, timing: Timing)
    requires Ok(s) && t < |s.pc| && m < |s.holder| && s.sched.Runnable(t) && AttemptOk(s, t, m) && s.holder[m] != t
    ensures var r, free := MutexAttempt(s, t, m, timing), s.holder[m] == TASK_ID_NONE;
            var wait := !free && StillTime(s.clock, timing);
            && SameRest(s, r) && WaitParts(s, t, wait, timing, r)
            && r.holder == (if free then s.holder[m := t] else s.holder) && r.value == s.value && r.takes == s.takes
            && r.mutexWaiters == (if wait then s.mutexWaiters[t := m] else s.mutexWaiters)
            && r.semWaiters == s.semWaiters
  {
    hide Sched.Ok, Sched.SetRunnable, Sched.Block, StartWait, WaitParts;
    if s.holder[m] == TASK_ID_NONE {
      NoWaitParts(s, t, timing, MutexAttempt(s, t, m, timing));
    } else if StillTime(s.clock, timing) {
      var w := s.(mutexWaiters := s.mutexWaiters[t := m]);
      var p := Waiting(ForMutex(m), {TASK_TIMER}, s.holder[m], timing);
      StartWaitParts(w, t, p);
      MovedWaitParts(s, w, t, timing, StartWait(w, t, p));
    } else {
      NoWaitParts(s, t, timing, MutexAttempt(s, t, m, timing));
    }
  }

  lemma NoWaitParts(s: State, t: nat, timing: Timing, r: State)
    requires t < |s.pc| == |s.signals| && r.signals == s.signals
    requires forall u: nat :: r.sched.Runnable(u) <==> s.sched.Runnable(u)
    ensures WaitParts(s, t, false, timing, r)
  {
  }

  lemma MovedWaitParts(s: State, w: State, t: nat, timing: Timing, r: State)
    requires w.pc == s.pc && w.signals == s.signals && w.sched == s.sched && w.clock == s.clock
    requires WaitParts(w, t, true, timing, r)
    ensures WaitParts(s, t, true, timing, r)
  {
  }

  lemma SemAttemptParts(s: State, t: nat, k: nat, timing: Timing)
    requires Ok(s) && t < |s.pc| && k < |s.value| && s.sched.Runnable(t)
    ensures var r, some := SemAttempt(s, t, k, timing), s.value[k] != 0;
            var wait := !some && StillTime(s.clock, timing);
            && SameRest(s, r) && WaitParts(s, t, wait, timing, r) && r.holder == s.holder
            && r.value == (if some then s.value[k := s.value[k] - 1] else s.value)
            && r.takes == (if some then s.takes[k := s.takes[k] + 1] else s.takes)
            && r.semWaiters == (if wait then s.semWaiters[t := k] else s.semWaiters)
            && r.mutexWaiters == s.mutexWaiters
  {
    hide Sched.Ok, Sched.SetRunnable, Sched.Block, StartWait, WaitParts;
    if s.value[k] != 0 {
      NoWaitParts(s, t, timing, SemAttempt(s, t, k, timing));
    } else if StillTime(s.clock, timing) {
      var w := s.(semWaiters := s.semWaiters[t := k]);
      var p := Waiting(ForSemaphore(k), {TASK_TIMER}, TASK_ID_NONE, timing);
      StartWaitParts(w, t, p);
      MovedWaitParts(s, w, t, timing, StartWait(w, t, p));
    } else {
      NoWaitParts(s, t, timing, SemAttempt(s, t, k, timing));
    }
  }

  lemma LockAccount(s: State, a: Action)
    requires Enabled(s, a) && a.Lock?
    ensures Account(s, a, Do(s, a))
  {
    hide Sched.Ok, MutexAttempt;
    MutexAttemptParts(s, a.t, a.m, a.timing);
  }

  lemma SemWaitAccount(s: State, a: Action)
    requires Enabled(s, a) && a.SemWait?
    ensures Account(s, a, Do(s, a))
  {
    hide Sched.Ok, SemAttempt;
    SemAttemptParts(s, a.t, a.k, a.timing);
  }

  lemma TryLockAccount(s: State, a: Action)
    requires Enabled(s, a) && a.TryLock?
    ensures Account(s, a, Do(s, a))
  {
    hide Sched.Ok;
  }

  lemma SemTryWaitAccount(s: State, a: Action)
    requires Enabled(s, a) && a.SemTryWait?
    ensures Account(s, a, Do(s, a))
  {
    hide Sched.Ok;
  }

  lemma UnlockAccount(s: State, a: Action)
    requires Enabled(s, a) && a.Unlock?
    ensures Account(s, a, Do(s, a))
  {
    hide Sched.Ok, Wake;
    var r := Do(s, a);
    forall u: nat | u < |s.pc| ensures TaskAccount(s, a, r, u) {}
  }

  lemma PostAccount(s: State, a: Action)
    requires Enabled(s, a) && a.Post?
    ensures Account(s, a, Do(s, a))
  {
    hide Sched.Ok, Wake;
    var r := Do(s, a);
    assert ObjectAccount(s, a, r);
    forall u: nat | u < |s.pc| ensures TaskAccount(s, a, r, u) {}
  }

  lemma SendAccount(s: State, a: Action)
    requires Enabled(s, a) && (a.SendSignals? || a.Event?)
    ensures Account(s, a, Do(s, a))
  {
    hide Sched.Ok;
  }

  lemma OtherAccount(s: State, a: Action)
    requires Enabled(s, a) && (a.PollSignals? || a.Tick? || a.SetMax?)
    ensures Account(s, a, Do(s, a))
  {
    hide Sched.Ok;
  }

  lemma WaitAccount(s: State, a: Action)
    requires Enabled(s, a) && a.WaitSignals?
    ensures Account(s, a, Do(s, a))
  {
    hide Sched.Ok;
  }

  lemma SleepObjects(s: State, a: Action)
    requires Enabled(s, a) && a.Sleep?
    ensures ObjectAccount(s, a, Do(s, a))
  {
    hide Sched.Ok, Sched.SetRunnable, Sched.Block, StartWait;
  }

  lemma SleepAccount(s: State, a: Action)
    requires Enabled(s, a) && a.Sleep?
    ensures Account(s, a, Do(s, a))
  {
    hide Sched.Ok, Sched.SetRunnable, Sched.Block, StartWait, StillTime, TimerArgument, ObjectAccount;
    SleepObjects(s, a);
    StartWaitParts(if a.ticks == 0 then Send(s, a.t, {TASK_TIMER}) else s, a.t, SignalWait({TASK_TIMER}));
    var r := Do(s, a);
    assert |r.mutexWaiters| == |r.semWaiters| == |s.pc|;
    forall u: nat | u < |s.pc| ensures TaskAccount(s, a, r, u) {}
  }

  lemma BlockAgainAccount(s: State, a: Action)
    requires Inv(s) && Enabled(s, a) && a.Resume? && !Back(s, a, a.t)
    ensures Account(s, a, Do(s, a))
  {
    hide Sched.Ok;
    assert TaskInv(s, a.t);
  }

  lemma BackAccount(s: State, a: Action)
    requires Inv(s) && Enabled(s, a) && a.Resume? && Back(s, a, a.t)
    ensures Account(s, a, Do(s, a))
  {
    hide Sched.Ok, MutexAttempt, SemAttempt, Account;
    match s.pc[a.t].purpose
    case ForMutex(m) => BackMutexAccount(s, a, m);
    case ForSemaphore(k) => BackSemAccount(s, a, k);
    case ForSignals => BackSignalsAccount(s, a);
  }

  lemma BackSignalsAccount(s: State, a: Action)
    requires Inv(s) && Enabled(s, a) && a.Resume? && Back(s, a, a.t) && s.pc[a.t].purpose.ForSignals?
    ensures Account(s, a, Do(s, a))
  {
    hide Sched.Ok, MutexAttempt, SemAttempt;
  }

  lemma BackMutexObjects(s: State, a: Action, x: nat)
    requires Inv(s) && Enabled(s, a) && a.Resume? && Back(s, a, a.t) && s.pc[a.t].purpose == ForMutex(x)
    ensures ObjectAccount(s, a, Do(s, a))
  {
    hide Sched.Ok, MutexAttempt, SemAttempt, StillTime, TimerArgument, WaitParts;
    var p := s.pc[a.t];
    assert TaskInv(s, a.t);
    var got := s.(signals := s.signals[a.t := s.signals[a.t] - p.requested]);
    MutexAttemptParts(got, a.t, x, p.timing);
  }

  lemma BackMutexAccount(s: State, a: Action, x: nat)
    requires Inv(s) && Enabled(s, a) && a.Resume? && Back(s, a, a.t) && s.pc[a.t].purpose == ForMutex(x)
    ensures Account(s, a, Do(s, a))
  {
    hide Sched.Ok, MutexAttempt, SemAttempt, StillTime, TimerArgument, ObjectAccount;
    BackMutexObjects(s, a, x);
    var p := s.pc[a.t];
    assert TaskInv(s, a.t);
    var got := s.(signals := s.signals[a.t := s.signals[a.t] - p.requested]);
    MutexAttemptParts(got, a.t, x, p.timing);
  }

  lemma BackSemObjects(s: State, a: Action, x: nat)
    requires Inv(s) && Enabled(s, a) && a.Resume? && Back(s, a, a.t) && s.pc[a.t].purpose == ForSemaphore(x)
    ensures ObjectAccount(s, a, Do(s, a))
  {
    hide Sched.Ok, MutexAttempt, SemAttempt, StillTime, TimerArgument, WaitParts;
    var p := s.pc[a.t];
    assert TaskInv(s, a.t);
    var got := s.(signals := s.signals[a.t := s.signals[a.t] - p.requested]);
    SemAttemptParts(got, a.t, x, p.timing);
  }

  lemma BackSemAccount(s: State, a: Action, x: nat)
    requires Inv(s) && Enabled(s, a) && a.Resume? && Back(s, a, a.t) && s.pc[a.t].purpose == ForSemaphore(x)
    ensures Account(s, a, Do(s, a))
  {
    hide Sched.Ok, MutexAttempt, SemAttempt, StillTime, TimerArgument, ObjectAccount;
    BackSemObjects(s, a, x);
    var p := s.pc[a.t];
    assert TaskInv(s, a.t);
    var got := s.(signals := s.signals[a.t := s.signals[a.t] - p.requested]);
    SemAttemptParts(got, a.t, x, p.timing);
  }

  /** One step: each part of the state is what it was, changed by what the action sends, receives, takes, returns,
      registers, wakes and blocks. */
  lemma {:induction false} StepAccount(s: State, a: Action)
    requires Inv(s) && Enabled(s, a)
    ensures Account(s, a, Do(s, a))
  {
    hide Inv, Enabled, Do, Account, Back;
    match a
    case Lock(_, _, _) => LockAccount(s, a);
    case TryLock(_, _) => TryLockAccount(s, a);
    case Unlock(_, _) => UnlockAccount(s, a);
    case SemWait(_, _, _) => SemWaitAccount(s, a);
    case SemTryWait(_, _) => SemTryWaitAccount(s, a);
    case Post(_, _) => PostAccount(s, a);
    case WaitSignals(_, _) => WaitAccount(s, a);
    case Sleep(_, _) => SleepAccount(s, a);
    case Resume(_) => if Back(s, a, a.t) { BackAccount(s, a); } else { BlockAgainAccount(s, a); }
    case SendSignals(_, _, _) => SendAccount(s, a);
    case Event(_, _) => SendAccount(s, a);
    case _ => OtherAccount(s, a);
  }

  lemma RunAccount(states: seq<State>, actions: seq<Action>, i: nat)
    requires IsRun(states, actions) && i < |actions|
    ensures |states| == |actions| + 1 && Account(states[i], actions[i], states[i + 1])
  {
    RunKeepsInv(states, actions, i);
    assert Steps(states[i], actions[i], states[i + 1]);
    hide Inv, Enabled, Do, Account;
    StepAccount(states[i], actions[i]);
  }

  // ----- Semaphores and the clock, counted ---------------------------------------------------------------------

  ghost function PostSteps(actions: seq<Action>, k: nat): nat -> bool {
    (i: nat) => i < |actions| && actions[i].Post? && actions[i].k == k
  }

  ghost function GetSteps(states: seq<State>, actions: seq<Action>, p: Purpose): nat -> bool {
    (i: nat) => i < |actions| && i < |states| && Gets(states[i], actions[i], p)
  }

  ghost function TickSteps(actions: seq<Action>): nat -> bool {
    (i: nat) => i < |actions| && actions[i] == Tick
  }

  lemma {:induction false} CountsSoFar(states: seq<State>, actions: seq<Action>, i: nat, k: nat)
    requires IsRun(states, actions) && i < |states|
    ensures |states[i].posts| == |states[i].takes| == |states[i].value| == |states[0].value|
    ensures states[i].clock == states[0].clock + Count(i, TickSteps(actions))
    ensures k < |states[i].value| ==> states[i].posts[k] == Count(i, PostSteps(actions, k))
    ensures k < |states[i].value| ==> states[i].takes[k] == Count(i, GetSteps(states, actions, ForSemaphore(k)))
  {
    hide IsRun, Gets, Init, Account, ObjectAccount, TaskAccount;
    RunStarts(states, actions);
    if i == 0 {
      StartCountsNothing(states[0]);
    } else {
      CountsSoFar(states, actions, i - 1, k);
      RunAccount(states, actions, i - 1);
      CountsStep(states[i - 1], actions[i - 1], states[i], k);
    }
  }

  lemma CountsStep(s: State, a: Action, r: State, k: nat)
    requires Account(s, a, r) && |s.posts| == |s.takes| == |s.value|
    ensures |r.posts| == |r.takes| == |r.value| == |s.value|
    ensures r.clock == s.clock + (if a == Tick then 1 else 0)
    ensures k < |s.value| ==> r.posts[k] == s.posts[k] + (if a.Post? && a.k == k then 1 else 0)
    ensures k < |s.value| ==> r.takes[k] == s.takes[k] + (if Gets(s, a, ForSemaphore(k)) then 1 else 0)
  {
    hide TaskAccount, Gets;
    assert ObjectAccount(s, a, r);
  }

  lemma StartCountsNothing(s: State)
    requires Init(s)
    ensures |s.posts| == |s.takes| == |s.value| == |s.max|
    ensures forall k: nat | k < |s.value| :: s.value[k] == s.max[k] == s.posts[k] == s.takes[k] == 0
  {
    hide Sched.Ok;
  }

  /** A semaphore's value is the number of sem_post calls made on it less the number of steps that took a unit of it,
      both counted from the actions of the run: always modulo its width, exactly if and only if that number fits the
      width, and without exception when maxima are configured. */
  lemma {:induction false} SemaphoreLedger(states: seq<State>, actions: seq<Action>, i: nat, k: nat)
    requires IsRun(states, actions) && i < |states| && k < |states[i].value|
    ensures Ok(states[i])
    ensures var s, posts, gets :=
              states[i], Count(i, PostSteps(actions, k)), Count(i, GetSteps(states, actions, ForSemaphore(k)));
            && gets <= posts && s.value[k] == Wrap(posts - gets, s.semRange)
            && (s.value[k] == posts - gets <==> posts - gets < s.semRange)
            && (s.maxEnabled ==> s.value[k] == posts - gets <= s.max[k])
  {
    hide IsRun, Gets, Wrap;
    SemaphoreCounts(states, actions, i, k);
    CountsSoFar(states, actions, i, k);
  }

  /** timer_current_ticks moves by one at a tick and at nothing else. */
  lemma {:induction false} ClockCountsTicks(states: seq<State>, actions: seq<Action>, i: nat)
    requires IsRun(states, actions) && i < |states|
    ensures states[i].clock == states[0].clock + Count(i, TickSteps(actions))
  {
    hide IsRun;
    CountsSoFar(states, actions, i, 0);
  }

  /** A semaphore's maximum is what the one sem_max_init on it gave, and 0 before. */
  lemma {:induction false} MaximumIsWhatWasSet(states: seq<State>, actions: seq<Action>, i: nat, k: nat)
    requires IsRun(states, actions) && i < |states|
    ensures |states[i].max| == |states[0].max|
    ensures k < |states[i].max| ==>
              (states[i].max[k] == 0 <==> forall j: nat | j < i :: !(actions[j].SetMax? && actions[j].k == k))
    ensures forall j: nat | j < i && actions[j].SetMax? && actions[j].k == k && k < |states[i].max| ::
              states[i].max[k] == actions[j].max
  {
    hide IsRun;
    RunStarts(states, actions);
    if i == 0 {
      StartCountsNothing(states[0]);
    } else {
      MaximumIsWhatWasSet(states, actions, i - 1, k);
      RunAccount(states, actions, i - 1);
      assert ObjectAccount(states[i - 1], actions[i - 1], states[i]);
      if actions[i - 1].SetMax? { SetsOnce(states, actions, i - 1); }
    }
  }

  lemma SetsOnce(states: seq<State>, actions: seq<Action>, i: nat)
    requires IsRun(states, actions) && i < |actions| && actions[i].SetMax?
    ensures actions[i].k < |states[i].max| && states[i].max[actions[i].k] == 0 < actions[i].max
  {
    assert Steps(states[i], actions[i], states[i + 1]);
  }

  // ----- Signals -----------------------------------------------------------------------------------------------

  /** signal_send_set by a task, an interrupt event or a timer, in every run: the signals of the task it names are those
      before and the sent ones, that task is runnable, and no other task's signals or runnability change. */
  lemma SendsReachTheirTask(states: seq<State>, actions: seq<Action>, i: nat)
    requires IsRun(states, actions) && i < |actions| && (actions[i].SendSignals? || actions[i].Event?)
    ensures var s, a, r := states[i], actions[i], states[i + 1];
            && a.to < |s.signals| && r.signals == s.signals[a.to := s.signals[a.to] + a.sent]
            && r.sched.Runnable(a.to)
            && forall u: nat | u != a.to && u < |s.pc| :: r.sched.Runnable(u) <==> s.sched.Runnable(u)
  {
    var s, a, r := states[i], actions[i], states[i + 1];
    assert Steps(s, a, r);
    RunAccount(states, actions, i);
    hide IsRun, Sched.Ok, Do, Send;
    forall u: nat | u < |s.pc| ensures r.signals[u] == if u == a.to then s.signals[u] + a.sent else s.signals[u] {
      assert TaskAccount(s, a, r, u);
    }
    forall u: nat | u < |s.pc| ensures r.sched.Runnable(u) <==> u == a.to || s.sched.Runnable(u) {
      assert TaskAccount(s, a, r, u);
    }
  }

  /** Each bit that is sent is, at any later point of the run, still pending for the task it was sent to, or that task
      has received it since. */
  lemma {:induction false} SentSignalsArrive(states: seq<State>, actions: seq<Action>, i: nat, j: nat, b: nat)
    requires IsRun(states, actions) && i < j < |states| && (actions[i].SendSignals? || actions[i].Event?)
    requires b in actions[i].sent
    ensures var to := actions[i].to;
            to < |states[j].signals|
            && (b in states[j].signals[to] || exists k: nat :: i < k < j && Receives(states[k], actions[k], to, b))
  {
    hide IsRun, Receives;
    RunStarts(states, actions);
    SendsReachTheirTask(states, actions, i);
    SignalsArrive(states, actions, i + 1, j, actions[i].to, b);
  }

  ghost function PendingAt(states: seq<State>, u: nat, b: nat): nat -> bool {
    (i: nat) => i < |states| && u < |states[i].signals| && b in states[i].signals[u]
  }

  ghost function SendSteps(states: seq<State>, actions: seq<Action>, u: nat, b: nat): nat -> bool {
    (i: nat) => i < |actions| && i < |states| && b in Sent(states[i], actions[i], u)
  }

  ghost function ReceiveSteps(states: seq<State>, actions: seq<Action>, u: nat, b: nat): nat -> bool {
    (i: nat) => i < |actions| && i < |states| && b in Received(states[i], actions[i], u)
  }

  lemma RunSameSizes(states: seq<State>, actions: seq<Action>, i: nat)
    requires IsRun(states, actions) && i < |states|
    ensures |states| == |actions| + 1 && Init(states[0]) && SameSizes(states[0], states[i])
  {
    hide Init, Steps;
    RunStarts(states, actions);
    RunSizes(states, actions, i);
  }

  lemma RunTaskAccount(states: seq<State>, actions: seq<Action>, i: nat, u: nat)
    requires IsRun(states, actions) && i < |actions| && u < |states[0].pc|
    ensures |states| == |actions| + 1
    ensures var s, r := states[i], states[i + 1];
            && |s.signals| == |s.mutexWaiters| == |s.semWaiters| == |s.pc| == |states[0].pc|
            && |r.signals| == |r.mutexWaiters| == |r.semWaiters| == |r.pc| == |states[0].pc|
            && TaskAccount(s, actions[i], r, u)
  {
    hide IsRun, TaskAccount, Init;
    RunStarts(states, actions);
    RunAccount(states, actions, i);
    RunSameSizes(states, actions, i);
  }

  /** Exactly the bits are pending for a task that some step sent to it and that it has not received since. */
  lemma {:induction false} SignalsPendIffSent(states: seq<State>, actions: seq<Action>, i: nat, u: nat, b: nat)
    requires IsRun(states, actions) && i < |states| && u < |states[0].pc|
    ensures u < |states[i].signals|
    ensures b in states[i].signals[u]
            <==> Since(i, SendSteps(states, actions, u, b), ReceiveSteps(states, actions, u, b))
  {
    hide IsRun, Since, Sent, Received, TaskAccount, Init;
    StartsIdle(states, actions, u);
    RunSameSizes(states, actions, i);
    var on, sets, resets :=
      PendingAt(states, u, b), SendSteps(states, actions, u, b), ReceiveSteps(states, actions, u, b);
    forall k: nat | k < i ensures on(k + 1) <==> sets(k) || (on(k) && !resets(k)) {
      SignalStep(states, actions, k, u, b);
    }
    OnIffSetSince(i, on, sets, resets);
  }

  lemma SignalStep(states: seq<State>, actions: seq<Action>, k: nat, u: nat, b: nat)
    requires IsRun(states, actions) && k < |actions| && u < |states[0].pc|
    ensures PendingAt(states, u, b)(k + 1)
            <==> SendSteps(states, actions, u, b)(k)
                 || (PendingAt(states, u, b)(k) && !ReceiveSteps(states, actions, u, b)(k))
  {
    hide IsRun, Sent, Received, Blocks, Wakes, WakesWaiter, Registers;
    RunTaskAccount(states, actions, k, u);
  }

  lemma StartsIdle(states: seq<State>, actions: seq<Action>, u: nat)
    requires IsRun(states, actions) && u < |states[0].pc|
    ensures |states| == |actions| + 1 && Ok(states[0])
    ensures var s := states[0];
            && s.signals[u] == {} && s.sched.Runnable(u)
            && s.mutexWaiters[u] == MUTEX_ID_NONE && s.semWaiters[u] == SEM_ID_NONE
            && forall m: nat | m < |s.holder| :: s.holder[m] == TASK_ID_NONE
  {
  }

  /** No bit becomes pending by itself: it is sent by a task, an interrupt event or a timer, or it is the task-timer
      signal that an unlock or a post sends to a registered waiter or the acting task's own timer. */
  lemma BitsAreSent(states: seq<State>, actions: seq<Action>, i: nat, u: nat, b: nat)
    requires IsRun(states, actions) && i < |actions| && u < |states[0].pc|
    ensures u < |states[i].signals| && u < |states[i + 1].signals|
    ensures b in states[i + 1].signals[u] && b !in states[i].signals[u] ==>
              var s, a := states[i], actions[i];
              || ((a.SendSignals? || a.Event?) && a.to == u && b in a.sent)
              || (b == TASK_TIMER && (WakesWaiter(s, a, u) || (Fires(s, a) && Actor(a) == u)))
  {
    hide IsRun, Received, WakesWaiter, Fires;
    RunTaskAccount(states, actions, i, u);
  }

  // ----- Blocked tasks -----------------------------------------------------------------------------------------

  ghost function BlockedAt(states: seq<State>, u: nat): nat -> bool {
    (i: nat) => i < |states| && !states[i].sched.Runnable(u)
  }

  ghost function BlockSteps(states: seq<State>, actions: seq<Action>, u: nat): nat -> bool {
    (i: nat) => i < |actions| && i < |states| && Blocks(states[i], actions[i], u)
  }

  ghost function WakeSteps(states: seq<State>, actions: seq<Action>, u: nat): nat -> bool {
    (i: nat) => i < |actions| && i < |states| && Wakes(states[i], actions[i], u)
  }

  /** A task is blocked exactly when it blocked itself, in a wait without a requested signal pending, and nothing has
      woken it since: a signal sent to it, or the unlock or post it is registered for. */
  lemma {:induction false} BlockedIffNotWoken(states: seq<State>, actions: seq<Action>, i: nat, u: nat)
    requires IsRun(states, actions) && i < |states| && u < |states[0].pc|
    ensures !states[i].sched.Runnable(u)
            <==> Since(i, BlockSteps(states, actions, u), WakeSteps(states, actions, u))
  {
    hide IsRun, Since, Blocks, Wakes;
    StartsIdle(states, actions, u);
    var on, sets, resets := BlockedAt(states, u), BlockSteps(states, actions, u), WakeSteps(states, actions, u);
    forall k: nat | k < i ensures on(k + 1) <==> sets(k) || (on(k) && !resets(k)) {
      RunTaskAccount(states, actions, k, u);
    }
    OnIffSetSince(i, on, sets, resets);
  }

  // ----- Holders and waiters -----------------------------------------------------------------------------------

  ghost function HeldAt(states: seq<State>, m: nat, t: nat): nat -> bool {
    (i: nat) => i < |states| && m < |states[i].holder| && states[i].holder[m] == t
  }

  /** Task t takes mutex m, on its call or back from its wait. */
  ghost function TakeSteps(states: seq<State>, actions: seq<Action>, m: nat, t: nat): nat -> bool {
    (i: nat) => i < |actions| && i < |states| && Gets(states[i], actions[i], ForMutex(m)) && Actor(actions[i]) == t
  }

  ghost function UnlockSteps(actions: seq<Action>, m: nat, t: nat): nat -> bool {
    (i: nat) => i < |actions| && actions[i] == Unlock(t, m)
  }

  lemma HolderStep(states: seq<State>, actions: seq<Action>, k: nat, m: nat, t: nat)
    requires IsRun(states, actions) && k < |actions| && m < |states[0].holder| && t < |states[0].pc|
    ensures HeldAt(states, m, t)(k + 1)
            <==> TakeSteps(states, actions, m, t)(k)
                 || (HeldAt(states, m, t)(k) && !UnlockSteps(actions, m, t)(k))
  {
    var s, a, r := states[k], actions[k], states[k + 1];
    assert Steps(s, a, r);
    RunAccount(states, actions, k);
    RunSameSizes(states, actions, k);
    assert a.Unlock? ==> s.holder[a.m] == a.t;
    assert |s.pc| <= TASK_ID_NONE;
    hide IsRun, Goal, Enabled, Do, TaskAccount, Init;
    assert Gets(s, a, ForMutex(m)) ==> s.holder[m] == TASK_ID_NONE;
  }

  /** A task holds a mutex exactly when it took it, while free, and has not unlocked it since. */
  lemma {:induction false} HolderIffTook(states: seq<State>, actions: seq<Action>, i: nat, m: nat, t: nat)
    requires IsRun(states, actions) && i < |states| && m < |states[0].holder| && t < |states[0].pc|
    ensures m < |states[i].holder|
    ensures states[i].holder[m] == t
            <==> Since(i, TakeSteps(states, actions, m, t), UnlockSteps(actions, m, t))
  {
    hide IsRun, Since, Gets, Init;
    StartsIdle(states, actions, t);
    RunSameSizes(states, actions, i);
    var on, sets, resets := HeldAt(states, m, t), TakeSteps(states, actions, m, t), UnlockSteps(actions, m, t);
    forall k: nat | k < i ensures on(k + 1) <==> sets(k) || (on(k) && !resets(k)) {
      HolderStep(states, actions, k, m, t);
    }
    OnIffSetSince(i, on, sets, resets);
  }

  ghost function MutexWaiterAt(states: seq<State>, u: nat, m: nat): nat -> bool {
    (i: nat) => i < |states| && u < |states[i].mutexWaiters| && states[i].mutexWaiters[u] == m
  }

  ghost function SemWaiterAt(states: seq<State>, u: nat, k: nat): nat -> bool {
    (i: nat) => i < |states| && u < |states[i].semWaiters| && states[i].semWaiters[u] == k
  }

  /** Task u registers for p, which it finds taken. */
  ghost function RegisterSteps(states: seq<State>, actions: seq<Action>, u: nat, p: Purpose): nat -> bool {
    (i: nat) => i < |actions| && i < |states| && Actor(actions[i]) == u && Registers(states[i], actions[i], p)
  }

  /** Task u is deregistered by the unlock, or registers for another mutex. */
  ghost function MutexReleaseSteps(states: seq<State>, actions: seq<Action>, u: nat, m: nat): nat -> bool {
    (i: nat) => i < |actions| && i < |states| && (
      (actions[i].Unlock? && actions[i].m == m)
      || (Actor(actions[i]) == u && Goal(states[i], actions[i]).ForMutex?
          && Registers(states[i], actions[i], Goal(states[i], actions[i]))))
  }

  /** Task u is deregistered by a post at value zero, or registers for another semaphore. */
  ghost function SemReleaseSteps(states: seq<State>, actions: seq<Action>, u: nat, k: nat): nat -> bool {
    (i: nat) => i < |actions| && i < |states| && (
      (actions[i].Post? && actions[i].k == k && k < |states[i].value| && states[i].value[k] == 0)
      || (Actor(actions[i]) == u && Goal(states[i], actions[i]).ForSemaphore?
          && Registers(states[i], actions[i], Goal(states[i], actions[i]))))
  }

  lemma MutexRegisterStep(states: seq<State>, actions: seq<Action>, k: nat, u: nat, m: nat)
    requires IsRun(states, actions) && k < |actions| && u < |states[0].pc| && m != MUTEX_ID_NONE
    ensures MutexWaiterAt(states, u, m)(k + 1)
            <==> RegisterSteps(states, actions, u, ForMutex(m))(k)
                 || (MutexWaiterAt(states, u, m)(k) && !MutexReleaseSteps(states, actions, u, m)(k))
  {
    hide IsRun, Registers, Sent, Received, Blocks, Wakes, WakesWaiter, Goal;
    RunTaskAccount(states, actions, k, u);
    RegistersGoal(states[k], actions[k], ForMutex(m));
    RegistersGoal(states[k], actions[k], Goal(states[k], actions[k]));
  }

  lemma SemRegisterStep(states: seq<State>, actions: seq<Action>, k: nat, u: nat, x: nat)
    requires IsRun(states, actions) && k < |actions| && u < |states[0].pc| && x != SEM_ID_NONE
    ensures SemWaiterAt(states, u, x)(k + 1)
            <==> RegisterSteps(states, actions, u, ForSemaphore(x))(k)
                 || (SemWaiterAt(states, u, x)(k) && !SemReleaseSteps(states, actions, u, x)(k))
  {
    hide IsRun, Registers, Sent, Received, Blocks, Wakes, Goal;
    RunTaskAccount(states, actions, k, u);
    RegistersGoal(states[k], actions[k], ForSemaphore(x));
    RegistersGoal(states[k], actions[k], Goal(states[k], actions[k]));
  }

  lemma RegistersGoal(s: State, a: Action, p: Purpose)
    ensures Registers(s, a, p) ==> Goal(s, a) == p && !a.Unlock? && !a.Post?
  {
  }

  /** A task is registered for a mutex exactly when it went to wait for it, finding it held, and since then neither an
      unlock of it has come nor has the task gone to wait for another one. */
  lemma {:induction false} MutexWaiterIff(states: seq<State>, actions: seq<Action>, i: nat, u: nat, m: nat)
    requires IsRun(states, actions) && i < |states| && u < |states[0].pc| && m != MUTEX_ID_NONE
    ensures u < |states[i].mutexWaiters|
    ensures states[i].mutexWaiters[u] == m
            <==> Since(i, RegisterSteps(states, actions, u, ForMutex(m)), MutexReleaseSteps(states, actions, u, m))
  {
    hide IsRun, Since, Registers, Goal, TaskAccount, Init;
    StartsIdle(states, actions, u);
    if i > 0 { RunTaskAccount(states, actions, i - 1, u); }
    var on, sets, resets := MutexWaiterAt(states, u, m), RegisterSteps(states, actions, u, ForMutex(m)),
                            MutexReleaseSteps(states, actions, u, m);
    forall k: nat | k < i ensures on(k + 1) <==> sets(k) || (on(k) && !resets(k)) {
      MutexRegisterStep(states, actions, k, u, m);
    }
    OnIffSetSince(i, on, sets, resets);
  }

  /** Likewise for a semaphore, where a post deregisters the waiters when it finds the value zero. */
  lemma {:induction false} SemWaiterIff(states: seq<State>, actions: seq<Action>, i: nat, u: nat, x: nat)
    requires IsRun(states, actions) && i < |states| && u < |states[0].pc| && x != SEM_ID_NONE
    ensures u < |states[i].semWaiters|
    ensures states[i].semWaiters[u] == x
            <==> Since(i, RegisterSteps(states, actions, u, ForSemaphore(x)), SemReleaseSteps(states, actions, u, x))
  {
    hide IsRun, Since, Registers, Goal, TaskAccount, Init;
    StartsIdle(states, actions, u);
    if i > 0 { RunTaskAccount(states, actions, i - 1, u); }
    var on, sets, resets := SemWaiterAt(states, u, x), RegisterSteps(states, actions, u, ForSemaphore(x)),
                            SemReleaseSteps(states, actions, u, x);
    forall k: nat | k < i ensures on(k + 1) <==> sets(k) || (on(k) && !resets(k)) {
      SemRegisterStep(states, actions, k, u, x);
    }
    OnIffSetSince(i, on, sets, resets);
  }
}
