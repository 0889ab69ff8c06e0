/** What every step of the kernel objects keeps, and what follows for whole runs: waiters are registered with the
    holder they wait for, no wake-up is lost, the priority-inheritance graph stays acyclic under a lock order,
    semaphores count, signals arrive and timeouts are kept. */
module KernelSafety {
  import opened Ids
  import opened Kernel
  import opened Sched
  import opened Timeouts
  import opened Modular

  // ----- The invariant ---------------------------------------------------------------------------------------

  /** Task t: when blocked it is in a wait without a requested signal, on the blocker of that wait; when it waits for a
      mutex or a semaphore and has no wake-up pending, it is registered and there is reason to wait. */
  ghost predicate TaskOk(t: nat, p: Pc, runnable: bool, kochab: bool, blocker: nat, signals: BitSet,
                         mutexWaiter: nat, semWaiter: nat, holder: seq<nat>, value: seq<nat>)
  {
    && (!runnable ==> p.Waiting? && signals * p.requested == {} && (kochab ==> blocker == p.blocker))
    && (p.Waiting? ==>
          match p.purpose
          case ForMutex(m) => m < |holder| && holder[m] != t && p.blocker != t
                              && (TASK_TIMER !in signals ==> mutexWaiter == m && holder[m] == p.blocker)
          case ForSemaphore(k) => k < |value| && (TASK_TIMER !in signals ==> semWaiter == k && value[k] == 0)
          case ForSignals => true)
  }

  ghost predicate TaskInv(s: State, t: nat)
    requires Ok(s) && t < |s.pc|
  {
    TaskOk(t, s.pc[t], s.sched.Runnable(t), s.sched.Kochab?, s.sched.BlockerOf(t),
           s.signals[t], s.mutexWaiters[t], s.semWaiters[t], s.holder, s.value)
  }

  /** Phact's scheduler knows the holder of every mutex. */
  ghost predicate MutexWordInv(s: State)
    requires Ok(s)
  {
    s.sched.Phact? ==>
      forall m: nat | m < |s.holder| ::
        s.sched.MutexWord(m) == if s.holder[m] == TASK_ID_NONE then s.sched.tables.none
                                else s.sched.tables.taskToIndex[s.holder[m]]
  }

  /** A semaphore's value is its posts less its successful waits, modulo the width of the value, and exactly when
      maxima are configured. */
  ghost predicate SemOk(value: nat, max: nat, posts: nat, takes: nat, range: nat, maxEnabled: bool)
    requires range > 0
  {
    && takes <= posts
    && value == Wrap(posts - takes, range)
    && (maxEnabled ==> value == posts - takes && value <= max)
  }

  ghost predicate SemsOk(value: seq<nat>, max: seq<nat>, posts: seq<nat>, takes: seq<nat>, range: nat, maxEnabled: bool)
    requires range > 0
  {
    && |value| == |max| == |posts| == |takes|
    && forall k: nat | k < |value| :: SemOk(value[k], max[k], posts[k], takes[k], range, maxEnabled)
  }

  ghost predicate GlobalInv(s: State) {
    && Ok(s) && MutexWordInv(s)
    && SemsOk(s.value, s.max, s.posts, s.takes, s.semRange, s.maxEnabled)
  }

  /** The invariant of all tasks but t, which is in the middle of its step. */
  ghost predicate InvBut(s: State, t: nat) {
    && GlobalInv(s)
    && forall u: nat | u < |s.pc| && u != t :: TaskInv(s, u)
  }

  ghost predicate Inv(s: State) {
    && GlobalInv(s)
    && forall u: nat | u < |s.pc| :: TaskInv(s, u)
  }

  // ----- Every step keeps it ---------------------------------------------------------------------------------

  lemma SendKeeps(s: State, t: nat, sent: BitSet)
    requires Inv(s) && t < |s.pc|
    ensures Inv(Send(s, t, sent))
  {
    hide Sched.Ok;
    var r := Send(s, t, sent);
    forall u: nat | u < |r.pc| ensures TaskInv(r, u) {
      assert TaskInv(s, u);
    }
  }

  /** The wait that task t starts has its registration and its reason in place. */
  ghost predicate Ready(s: State, t: nat, p: Pc)
    requires Ok(s) && t < |s.pc| && p.Waiting? && WaitOk(s, p)
  {
    match p.purpose
    case ForMutex(m) => s.mutexWaiters[t] == m && s.holder[m] == p.blocker != t
    case ForSemaphore(k) => s.semWaiters[t] == k && s.value[k] == 0
    case ForSignals => true
  }

  lemma StartWaitKeeps(s: State, t: nat, p: Pc)
    requires InvBut(s, t) && t < |s.pc| && s.sched.Runnable(t)
    requires p.Waiting? && WaitOk(s, p) && Ready(s, t, p) && (p.timing.Until? ==> StillTime(s.clock, p.timing))
    ensures Inv(StartWait(s, t, p))
  {
    hide Sched.Ok;
    var timed := StartTimer(s, t, p.timing);
    var r := StartWait(s, t, p);
    forall u: nat | u < |r.pc| ensures TaskInv(r, u) {
      if u != t { assert TaskInv(s, u); }
    }
  }

  lemma TakeKeeps(s: State, t: nat, m: nat)
    requires InvBut(s, t) && t < |s.pc| && m < |s.holder| && s.sched.Runnable(t)
    requires s.holder[m] == TASK_ID_NONE && s.sched.CanLock(m, t)
    ensures Inv(Take(s, t, m))
  {
    hide Sched.Ok;
    var r := Take(s, t, m);
    forall u: nat | u < |r.pc| ensures TaskInv(r, u) {
      if u != t { assert TaskInv(s, u); }
    }
  }

  lemma DoneKeeps(s: State, t: nat)
    requires InvBut(s, t) && t < |s.pc| && s.sched.Runnable(t)
    ensures Inv(s.(pc := s.pc[t := Outside]))
  {
    hide Sched.Ok;
    var r := s.(pc := s.pc[t := Outside]);
    forall u: nat | u < |r.pc| ensures TaskInv(r, u) {
      if u != t { assert TaskInv(s, u); }
    }
  }

  lemma MutexAttemptKeeps(s: State, t: nat, m: nat, timing: Timing)
    requires InvBut(s, t) && t < |s.pc| && m < |s.holder| && s.sched.Runnable(t) && AttemptOk(s, t, m)
    requires s.holder[m] != t
    ensures Inv(MutexAttempt(s, t, m, timing))
  {
    hide Sched.Ok;
    if s.holder[m] == TASK_ID_NONE {
      TakeKeeps(s, t, m);
    } else if StillTime(s.clock, timing) {
      var w := s.(mutexWaiters := s.mutexWaiters[t := m]);
      forall u: nat | u < |s.pc| && u != t ensures TaskInv(w, u) {
        assert TaskInv(s, u);
      }
      StartWaitKeeps(w, t, Waiting(ForMutex(m), {TASK_TIMER}, s.holder[m], timing));
    } else {
      DoneKeeps(s, t);
    }
  }

  lemma TakeCounts(value: nat, max: nat, posts: nat, takes: nat, range: nat, maxEnabled: bool)
    requires 1 < range && value != 0 && SemOk(value, max, posts, takes, range, maxEnabled)
    ensures SemOk(value - 1, max, posts, takes + 1, range, maxEnabled)
  {
    hide Wrap;
    WrapSmall(0, range);
    WrapNext(posts - takes - 1, range);
  }

  lemma SemTakeKeeps(s: State, t: nat, k: nat)
    requires InvBut(s, t) && t < |s.pc| && k < |s.value| && s.value[k] != 0
    ensures InvBut(SemTake(s, k), t)
    ensures TaskInv(s, t) ==> TaskInv(SemTake(s, k), t)
  {
    hide Sched.Ok;
    var r := SemTake(s, k);
    assert SemOk(s.value[k], s.max[k], s.posts[k], s.takes[k], s.semRange, s.maxEnabled);
    TakeCounts(s.value[k], s.max[k], s.posts[k], s.takes[k], s.semRange, s.maxEnabled);
    forall u: nat | u < |r.pc| && u != t ensures TaskInv(r, u) {
      assert TaskInv(s, u);
    }
  }

  lemma SemAttemptKeeps(s: State, t: nat, k: nat, timing: Timing)
    requires InvBut(s, t) && t < |s.pc| && k < |s.value| && s.sched.Runnable(t)
    ensures Inv(SemAttempt(s, t, k, timing))
  {
    hide Sched.Ok;
    if s.value[k] != 0 {
      SemTakeKeeps(s, t, k);
      DoneKeeps(SemTake(s, k), t);
    } else if StillTime(s.clock, timing) {
      var w := s.(semWaiters := s.semWaiters[t := k]);
      forall u: nat | u < |s.pc| && u != t ensures TaskInv(w, u) {
        assert TaskInv(s, u);
      }
      StartWaitKeeps(w, t, Waiting(ForSemaphore(k), {TASK_TIMER}, TASK_ID_NONE, timing));
    } else {
      DoneKeeps(s, t);
    }
  }

  lemma UnlockKeeps(s: State, t: nat, m: nat)
    requires Inv(s) && IsCall(s, t) && m < |s.holder| && s.holder[m] == t
    ensures Inv(UnlockStep(s, m))
  {
    hide Sched.Ok;
    var r := UnlockStep(s, m);
    forall u: nat | u < |r.pc| ensures TaskInv(r, u) {
      assert TaskInv(s, u);
    }
  }

  lemma PostCounts(value: nat, max: nat, posts: nat, takes: nat, range: nat, maxEnabled: bool)
    requires 1 < range && max < range && SemOk(value, max, posts, takes, range, maxEnabled)
    requires maxEnabled ==> value < max
    ensures SemOk(Wrap(value + 1, range), max, posts + 1, takes, range, maxEnabled)
  {
    hide Wrap;
    WrapNext(posts - takes, range);
    WrapNext(value, range);
    WrapSmall(value, range);
  }

  lemma PostKeeps(s: State, k: nat)
    requires Inv(s) && k < |s.value| && (s.maxEnabled ==> s.value[k] < s.max[k])
    ensures Inv(PostStep(s, k))
  {
    hide Sched.Ok;
    var r := PostStep(s, k);
    PostCounts(s.value[k], s.max[k], s.posts[k], s.takes[k], s.semRange, s.maxEnabled);
    forall u: nat | u < |r.pc| ensures TaskInv(r, u) {
      assert TaskInv(s, u);
    }
  }

  lemma ResumeKeeps(s: State, t: nat)
    requires Inv(s) && Enabled(s, Resume(t))
    ensures Inv(ResumeStep(s, t))
  {
    hide Sched.Ok;
    var p := s.pc[t];
    assert TaskInv(s, t);
    if s.signals[t] * p.requested == {} {
      var r := ResumeStep(s, t);
      forall u: nat | u < |r.pc| ensures TaskInv(r, u) { assert TaskInv(s, u); }
    } else {
      var got := s.(signals := s.signals[t := s.signals[t] - p.requested]);
      forall u: nat | u < |s.pc| && u != t ensures TaskInv(got, u) { assert TaskInv(s, u); }
      match p.purpose
      case ForMutex(m) => MutexAttemptKeeps(got, t, m, p.timing);
      case ForSemaphore(k) => SemAttemptKeeps(got, t, k, p.timing);
      case ForSignals =>
        var r := ResumeStep(s, t);
        forall u: nat | u < |r.pc| ensures TaskInv(r, u) { if u != t { assert TaskInv(s, u); } }
    }
  }

  lemma PollKeeps(s: State, t: nat, requested: BitSet)
    requires Inv(s) && IsCall(s, t)
    ensures Inv(s.(signals := s.signals[t := s.signals[t] - requested]))
  {
    var r := s.(signals := s.signals[t := s.signals[t] - requested]);
    forall u: nat | u < |r.pc| ensures TaskInv(r, u) { assert TaskInv(s, u); }
  }

  lemma OtherKeeps(s: State, a: Action)
    requires Inv(s) && Enabled(s, a) && (a.SetMax? || a.Tick?)
    ensures Inv(Do(s, a))
  {
    hide Sched.Ok;
    var r := Do(s, a);
    forall u: nat | u < |r.pc| ensures TaskInv(r, u) { assert TaskInv(s, u); }
  }

  lemma {:induction false} StepKeepsInv(s: State, a: Action)
    requires Inv(s) && Enabled(s, a)
    ensures Inv(Do(s, a))
  {
    hide Sched.Ok;
    match a
    case Lock(t, m, timing) => MutexAttemptKeeps(s, t, m, timing);
    case TryLock(t, m) => if s.holder[m] == TASK_ID_NONE { TakeKeeps(s, t, m); }
    case Unlock(t, m) => UnlockKeeps(s, t, m);
    case SemWait(t, k, timing) => SemAttemptKeeps(s, t, k, timing);
    case SemTryWait(t, k) => if s.value[k] != 0 { SemTakeKeeps(s, t, k); }
    case Post(t, k) => PostKeeps(s, k);
    case WaitSignals(t, requested) => StartWaitKeeps(s, t, SignalWait(requested));
    case PollSignals(t, requested) => PollKeeps(s, t, requested);
    case SendSignals(t, to, sent) => SendKeeps(s, to, sent);
    case Sleep(t, ticks) =>
      SendKeeps(s, t, {TASK_TIMER});
      StartWaitKeeps(if ticks == 0 then Send(s, t, {TASK_TIMER}) else s, t, SignalWait({TASK_TIMER}));
    case Resume(t) => ResumeKeeps(s, t);
    case Event(to, sent) => SendKeeps(s, to, sent);
    case _ => OtherKeeps(s, a);
  }

  lemma InitHasInv(s: State)
    requires Init(s)
    ensures Inv(s)
  {
    forall u: nat | u < |s.pc| ensures TaskInv(s, u) {}
  }

  lemma {:induction false} RunKeepsInv(states: seq<State>, actions: seq<Action>, i: nat)
    requires IsRun(states, actions) && i < |states|
    ensures Inv(states[i])
  {
    hide Sched.Ok;
    if i == 0 {
      InitHasInv(states[0]);
    } else {
      RunKeepsInv(states, actions, i - 1);
      assert Steps(states[i - 1], actions[i - 1], states[i]);
      StepKeepsInv(states[i - 1], actions[i - 1]);
    }
  }
}
