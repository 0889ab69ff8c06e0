/** The kernel objects of Kochab and Phact at task level: signals (components/signal), mutexes
    (components/blocking-mutex), semaphores (components/simple-semaphore) and the glue of components/kochab and
    components/phact, as one state machine.

    A step is what one task does between two switches: from a kernel call, or from the return of yield() inside one,
    up to the next yield() or the end of the call.  Preemption is disabled throughout, so no other task runs in
    between; interrupt events and timers reach tasks as signals sent between steps.  Any runnable task may make the
    next step, which covers every choice of the scheduler. */
module Kernel {
  import opened Ids
  import opened Modular
  import opened Sched
  import opened Timeouts

  datatype Purpose = ForMutex(mutex: nat) | ForSemaphore(sem: nat) | ForSignals

  /** A task is outside any wait, or inside signal_wait_set_blocked_on(requested, blocker), on whose return it goes on
      with the call it waits for. */
  datatype Pc = Outside | Waiting(purpose: Purpose, requested: BitSet, blocker: nat, timing: Timing)

  /** clock counts ticks without bound; timer_current_ticks is its low 32 bits.  semRange is two to the width of a
      semaphore value; maxEnabled says whether maxima are configured, a maximum of 0 meaning not yet set.  posts and
      takes are history: the number of posts and of successful waits. */
  datatype State = State(
    sched: Sched, signals: seq<BitSet>, pc: seq<Pc>, clock: nat,
    holder: seq<nat>, mutexWaiters: seq<nat>,
    value: seq<nat>, semWaiters: seq<nat>, max: seq<nat>, semRange: nat, maxEnabled: bool,
    posts: seq<nat>, takes: seq<nat>)

  datatype Action =
    | Lock(t: nat, m: nat, timing: Timing)
    | TryLock(t: nat, m: nat)
    | Unlock(t: nat, m: nat)
    | SemWait(t: nat, k: nat, timing: Timing)
    | SemTryWait(t: nat, k: nat)
    | Post(t: nat, k: nat)
    | SetMax(t: nat, k: nat, max: nat)
    | WaitSignals(t: nat, requested: BitSet)
    | PollSignals(t: nat, requested: BitSet)
    | SendSignals(t: nat, to: nat, sent: BitSet)
    | Sleep(t: nat, ticks: nat)
    | Resume(t: nat)                       // back from yield() inside a wait
    | Event(to: nat, sent: BitSet)         // an interrupt event or an expired timer
    | Tick

  // ----- Well-formed states ----------------------------------------------------------------------------------

  predicate IsTaskOrNone(s: State, t: nat) {
    t < |s.pc| || t == TASK_ID_NONE
  }

  ghost predicate Ok(s: State) {
    && s.sched.Ok()
    && s.sched.TaskCount() == |s.pc| == |s.signals| == |s.mutexWaiters| == |s.semWaiters|
    && |s.pc| <= TASK_ID_NONE
    && |s.holder| <= MUTEX_ID_NONE && (s.sched.Phact? ==> |s.sched.tables.mutexToIndex| == |s.holder|)
    && |s.value| == |s.max| == |s.posts| == |s.takes| <= SEM_ID_NONE
    && 1 < s.semRange
    && (forall m | 0 <= m < |s.holder| :: IsTaskOrNone(s, s.holder[m]))
    && (forall k | 0 <= k < |s.value| :: s.value[k] < s.semRange && s.max[k] < s.semRange)
    && forall t | 0 <= t < |s.pc| :: WaitOk(s, s.pc[t])
  }

  predicate WaitOk(s: State, p: Pc) {
    p.Waiting? ==>
      && IsTaskOrNone(s, p.blocker)
      && match p.purpose
         case ForMutex(m) => m < |s.holder| && p.requested == {TASK_TIMER} && p.blocker < |s.pc|
         case ForSemaphore(k) => k < |s.value| && p.requested == {TASK_TIMER} && p.blocker == TASK_ID_NONE
         case ForSignals => p.blocker == TASK_ID_NONE
  }

  /** Everything but the scheduler, the signals and the program counters is the same. */
  predicate SameObjects(s: State, r: State) {
    && |r.pc| == |s.pc| && |r.signals| == |s.signals|
    && r.clock == s.clock && r.holder == s.holder && r.mutexWaiters == s.mutexWaiters && r.value == s.value
    && r.semWaiters == s.semWaiters && r.max == s.max && r.semRange == s.semRange && r.maxEnabled == s.maxEnabled
    && r.posts == s.posts && r.takes == s.takes
  }

  // ----- Signals ---------------------------------------------------------------------------------------------

  /** signal_send_set: the signals become pending and the task runnable. */
  function Send(s: State, t: nat, sent: BitSet): (r: State)
    requires Ok(s) && t < |s.pc|
    ensures Ok(r) && SameObjects(s, r) && r.pc == s.pc && r.signals == s.signals[t := s.signals[t] + sent]
    ensures s.sched.SameMutexWords(r.sched)
    ensures forall u: nat :: r.sched.Runnable(u) <==> u == t || s.sched.Runnable(u)
    ensures forall u: nat | u != t :: r.sched.BlockerOf(u) == s.sched.BlockerOf(u)
  {
    s.(signals := s.signals[t := s.signals[t] + sent], sched := s.sched.SetRunnable(t))
  }

  /** timer_oneshot of the task's own timer before a timed wait; started with 0 ticks it fires at once. */
  function StartTimer(s: State, t: nat, timing: Timing): (r: State)
    requires Ok(s) && t < |s.pc| && (timing.Until? ==> StillTime(s.clock, timing))
    ensures Ok(r) && SameObjects(s, r) && r.pc == s.pc && s.sched.SameMutexWords(r.sched)
    ensures forall u: nat :: r.sched.Runnable(u) ==> u == t || s.sched.Runnable(u)
    ensures forall u: nat :: s.sched.Runnable(u) ==> r.sched.Runnable(u)
    ensures r.signals == s.signals || r.signals == s.signals[t := s.signals[t] + {TASK_TIMER}]
  {
    if timing.Until? && TimerArgument(s.clock, timing) == 0 then Send(s, t, {TASK_TIMER}) else s
  }

  /** signal_wait_set_blocked_on up to its first yield(): with a requested signal pending the task stays runnable. */
  function Enter(s: State, t: nat, p: Pc): (r: State)
    requires Ok(s) && t < |s.pc| && p.Waiting? && WaitOk(s, p)
    ensures Ok(r) && SameObjects(s, r) && r.pc == s.pc[t := p] && s.sched.SameMutexWords(r.sched)
    ensures r.signals == s.signals
    ensures forall u: nat | u != t :: r.sched.Runnable(u) <==> s.sched.Runnable(u)
    ensures r.sched == if r.signals[t] * p.requested != {} then s.sched else s.sched.Block(t, p.blocker)
  {
    var w := s.(pc := s.pc[t := p]);
    if s.signals[t] * p.requested != {} then w else w.(sched := s.sched.Block(t, p.blocker))
  }

  function StartWait(s: State, t: nat, p: Pc): (r: State)
    requires Ok(s) && t < |s.pc| && p.Waiting? && WaitOk(s, p) && (p.timing.Until? ==> StillTime(s.clock, p.timing))
    ensures Ok(r) && SameObjects(s, r) && r.pc == s.pc[t := p] && s.sched.SameMutexWords(r.sched)
  {
    Enter(StartTimer(s, t, p.timing), t, p)
  }

  // ----- Mutexes and semaphores ------------------------------------------------------------------------------

  /** The result of the scan that wakes waiters. */
  datatype Woken = Woken(waiters: seq<nat>, signals: seq<BitSet>, sched: Sched)

  /** The loop over the tasks from t on in mutex_unlock and sem_post: tasks registered for id are deregistered and sent
      the task-timer signal. */
  function Wake(w: Woken, id: nat, none: nat, t: nat): (r: Woken)
    requires w.sched.Ok() && t <= w.sched.TaskCount() == |w.waiters| == |w.signals|
    ensures r.sched.Ok() && w.sched.SameMutexWords(r.sched)
    ensures |r.waiters| == |w.waiters| && |r.signals| == |w.signals|
    ensures forall u: nat | u < |w.waiters| ::
              if t <= u && w.waiters[u] == id
              then r.waiters[u] == none && r.signals[u] == w.signals[u] + {TASK_TIMER} && r.sched.Runnable(u)
              else r.waiters[u] == w.waiters[u] && r.signals[u] == w.signals[u]
                   && (r.sched.Runnable(u) <==> w.sched.Runnable(u)) && r.sched.BlockerOf(u) == w.sched.BlockerOf(u)
    decreases |w.waiters| - t
  {
    if t == |w.waiters| then w
    else if w.waiters[t] == id then
      Wake(Woken(w.waiters[t := none], w.signals[t := w.signals[t] + {TASK_TIMER}], w.sched.SetRunnable(t)),
           id, none, t + 1)
    else Wake(w, id, none, t + 1)
  }

  /** The internal assertions on the way into a mutex, checked only when it is free. */
  predicate AttemptOk(s: State, t: nat, m: nat)
    requires t < s.sched.TaskCount() && m < |s.holder|
  {
    s.holder[m] == TASK_ID_NONE ==> s.sched.CanLock(m, t)
  }

  /** mutex_try_lock on a free mutex. */
  function Take(s: State, t: nat, m: nat): (r: State)
    requires Ok(s) && t < |s.pc| && m < |s.holder| && s.sched.CanLock(m, t)
    ensures Ok(r)
  {
    s.(holder := s.holder[m := t], sched := s.sched.Lock(m, t), pc := s.pc[t := Outside])
  }

  /** The loop of mutex_lock and mutex_lock_timeout from mutex_try_lock on: take the mutex, or register and wait for
      it, or with the time over return false. */
  function MutexAttempt(s: State, t: nat, m: nat, timing: Timing): (r: State)
    requires Ok(s) && t < |s.pc| && m < |s.holder| && s.sched.Runnable(t) && AttemptOk(s, t, m)
    ensures Ok(r)
  {
    if s.holder[m] == TASK_ID_NONE then Take(s, t, m)
    else if StillTime(s.clock, timing) then
      StartWait(s.(mutexWaiters := s.mutexWaiters[t := m]), t,
                Waiting(ForMutex(m), {TASK_TIMER}, s.holder[m], timing))
    else s.(pc := s.pc[t := Outside])
  }

  function UnlockStep(s: State, m: nat): (r: State)
    requires Ok(s) && m < |s.holder|
    ensures Ok(r)
  {
    var w := Wake(Woken(s.mutexWaiters, s.signals, s.sched.Unlock(m)), m, MUTEX_ID_NONE, 0);
    s.(sched := w.sched, signals := w.signals, mutexWaiters := w.waiters, holder := s.holder[m := TASK_ID_NONE])
  }

  /** The loop of sem_wait and sem_wait_timeout from internal_sem_try_wait on. */
  function SemAttempt(s: State, t: nat, k: nat, timing: Timing): (r: State)
    requires Ok(s) && t < |s.pc| && k < |s.value| && s.sched.Runnable(t)
    ensures Ok(r)
  {
    if s.value[k] != 0 then SemTake(s, k).(pc := s.pc[t := Outside])
    else if StillTime(s.clock, timing) then
      StartWait(s.(semWaiters := s.semWaiters[t := k]), t,
                Waiting(ForSemaphore(k), {TASK_TIMER}, TASK_ID_NONE, timing))
    else s.(pc := s.pc[t := Outside])
  }

  function SemTake(s: State, k: nat): (r: State)
    requires Ok(s) && k < |s.value| && s.value[k] != 0
    ensures Ok(r)
  {
    s.(value := s.value[k := s.value[k] - 1], takes := s.takes[k := s.takes[k] + 1])
  }

  function PostStep(s: State, k: nat): (r: State)
    requires Ok(s) && k < |s.value|
    ensures Ok(r)
  {
    var w := if s.value[k] == 0 then Wake(Woken(s.semWaiters, s.signals, s.sched), k, SEM_ID_NONE, 0)
             else Woken(s.semWaiters, s.signals, s.sched);
    s.(sched := w.sched, signals := w.signals, semWaiters := w.waiters,
       value := s.value[k := Wrap(s.value[k] + 1, s.semRange)], posts := s.posts[k := s.posts[k] + 1])
  }

  /** Back from yield() inside a wait: block again unless a requested signal is pending, else receive and go on. */
  function ResumeStep(s: State, t: nat): (r: State)
    requires Ok(s) && t < |s.pc| && s.pc[t].Waiting? && s.sched.Runnable(t) && ResumeOk(s, t)
    ensures Ok(r)
  {
    var p := s.pc[t];
    if s.signals[t] * p.requested == {} then s.(sched := s.sched.Block(t, p.blocker))
    else
      var got := s.(signals := s.signals[t := s.signals[t] - p.requested]);
      match p.purpose
      case ForSignals => got.(pc := s.pc[t := Outside])
      case ForMutex(m) => MutexAttempt(got, t, m, p.timing)
      case ForSemaphore(k) => SemAttempt(got, t, k, p.timing)
  }

  predicate ResumeOk(s: State, t: nat)
    requires t < s.sched.TaskCount() && t < |s.pc| && s.pc[t].Waiting? && WaitOk(s, s.pc[t])
  {
    s.pc[t].purpose.ForMutex? ==> AttemptOk(s, t, s.pc[t].purpose.mutex)
  }

  // ----- The machine -----------------------------------------------------------------------------------------

  ghost predicate IsCall(s: State, t: nat) {
    t < |s.pc| && s.pc[t] == Outside && s.sched.Runnable(t)
  }

  /** The conditions are those under which the call goes through; where the source's assertions fail or a fatal error
      is reported, the run ends. */
  ghost predicate Enabled(s: State, a: Action) {
    && Ok(s)
    && match a
       case Lock(t, m, timing) => IsCall(s, t) && m < |s.holder| && s.holder[m] != t && AttemptOk(s, t, m)
                                  && TimingOk(s.clock, timing)
       case TryLock(t, m) => IsCall(s, t) && m < |s.holder| && AttemptOk(s, t, m)
       case Unlock(t, m) => IsCall(s, t) && m < |s.holder| && s.holder[m] == t
       case SemWait(t, k, timing) => IsCall(s, t) && k < |s.value| && TimingOk(s.clock, timing)
       case SemTryWait(t, k) => IsCall(s, t) && k < |s.value|
       case Post(t, k) => IsCall(s, t) && k < |s.value| && (s.maxEnabled ==> s.max[k] != 0 && s.value[k] < s.max[k])
       case SetMax(t, k, max) => IsCall(s, t) && k < |s.value| && s.maxEnabled && 0 < max < s.semRange && s.max[k] == 0
       case WaitSignals(t, requested) => IsCall(s, t)
       case PollSignals(t, requested) => IsCall(s, t)
       case SendSignals(t, to, sent) => IsCall(s, t) && to < |s.pc|
       case Sleep(t, ticks) => IsCall(s, t)
       case Resume(t) => t < |s.pc| && s.pc[t].Waiting? && s.sched.Runnable(t) && ResumeOk(s, t)
       case Event(to, sent) => to < |s.pc|
       case Tick => true
  }

  function SignalWait(requested: BitSet): Pc {
    Waiting(ForSignals, requested, TASK_ID_NONE, Forever)
  }

  ghost function Do(s: State, a: Action): (r: State)
    requires Enabled(s, a)
    ensures Ok(r)
  {
    match a
    case Lock(t, m, timing) => MutexAttempt(s, t, m, timing)
    case TryLock(t, m) => if s.holder[m] == TASK_ID_NONE then Take(s, t, m) else s
    case Unlock(t, m) => UnlockStep(s, m)
    case SemWait(t, k, timing) => SemAttempt(s, t, k, timing)
    case SemTryWait(t, k) => if s.value[k] != 0 then SemTake(s, k) else s
    case Post(t, k) => PostStep(s, k)
    case SetMax(t, k, max) => s.(max := s.max[k := max])
    case WaitSignals(t, requested) => StartWait(s, t, SignalWait(requested))
    case PollSignals(t, requested) => s.(signals := s.signals[t := s.signals[t] - requested])
    case SendSignals(t, to, sent) => Send(s, to, sent)
    case Sleep(t, ticks) =>
      StartWait(if ticks == 0 then Send(s, t, {TASK_TIMER}) else s, t, SignalWait({TASK_TIMER}))
    case Resume(t) => ResumeStep(s, t)
    case Event(to, sent) => Send(s, to, sent)
    case Tick => s.(clock := s.clock + 1)
  }

  ghost predicate Init(s: State) {
    && Ok(s) && s.sched.AtStart()
    && (forall t | 0 <= t < |s.pc| :: s.pc[t] == Outside && s.signals[t] == {}
                                      && s.mutexWaiters[t] == MUTEX_ID_NONE && s.semWaiters[t] == SEM_ID_NONE)
    && (forall m | 0 <= m < |s.holder| :: s.holder[m] == TASK_ID_NONE)
    && forall k | 0 <= k < |s.value| :: s.value[k] == s.max[k] == s.posts[k] == s.takes[k] == 0
  }

  ghost predicate Steps(s: State, a: Action, r: State) {
    Enabled(s, a) && r == Do(s, a)
  }

  /** A run: its states and the actions between them. */
  ghost predicate IsRun(states: seq<State>, actions: seq<Action>) {
    && |states| == |actions| + 1
    && Init(states[0])
    && forall i: nat {:trigger actions[i]} | i < |actions| :: Steps(states[i], actions[i], states[i + 1])
  }
}
