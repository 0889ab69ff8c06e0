/** The immediate ceiling protocol of Phact: tasks that lock only mutexes of higher priority than their own and wait
    only while holding none never find a mutex taken. */
module PhactCeiling {
  import opened Ids
  import opened Kernel
  import opened KernelSafety
  import opened KernelTheorems
  import opened KernelSchedule
  import opened Sched
  import opened Timeouts
  import Inherit = SchedPrioInherit
  import Ceiling = SchedPrioCeiling

  function TaskIndex(s: State, t: nat): nat
    requires Ok(s) && s.sched.Phact? && t < |s.pc|
  {
    s.sched.tables.taskToIndex[t]
  }

  function MutexIndex(s: State, m: nat): nat
    requires Ok(s) && s.sched.Phact? && m < |s.holder|
  {
    s.sched.tables.mutexToIndex[m]
  }

  // ----- The discipline ----------------------------------------------------------------------------------------

  predicate HoldsNone(s: State, t: nat) {
    forall m | 0 <= m < |s.holder| :: s.holder[m] != t
  }

  /** Tasks lock only mutexes of higher priority than their own. */
  predicate RespectsCeiling(s: State, a: Action)
    requires Ok(s) && s.sched.Phact?
  {
    match a
    case Lock(t, m, _) => t < |s.pc| && m < |s.holder| ==> MutexIndex(s, m) < TaskIndex(s, t)
    case TryLock(t, m) => t < |s.pc| && m < |s.holder| ==> MutexIndex(s, m) < TaskIndex(s, t)
    case _ => true
  }

  /** A task that has to wait for a signal, a semaphore or its timer holds no mutex. */
  predicate WaitsHoldingNone(s: State, a: Action)
    requires Ok(s)
  {
    match a
    case WaitSignals(t, requested) => t < |s.pc| && s.signals[t] * requested == {} ==> HoldsNone(s, t)
    case Sleep(t, ticks) => t < |s.pc| && ticks != 0 && TASK_TIMER !in s.signals[t] ==> HoldsNone(s, t)
    case SemWait(t, k, _) => k < |s.value| && s.value[k] == 0 ==> HoldsNone(s, t)
    case _ => true
  }

  predicate Disciplined(s: State, a: Action)
    requires Ok(s) && s.sched.Phact?
  {
    RespectsCeiling(s, a) && WaitsHoldingNone(s, a)
  }

  /** Phact's scheduled task makes the step and keeps the discipline, or no task makes it. */
  ghost predicate CeilingStep(s: State, a: Action) {
    Ok(s) && s.sched.Phact? && ByScheduled(s, a) && Disciplined(s, a)
  }

  /** The first n steps of a run are such. */
  ghost predicate CeilingRun(states: seq<State>, actions: seq<Action>, n: nat) {
    && IsRun(states, actions) && n < |states| == |actions| + 1 && states[0].sched.Phact?
    && forall i: nat | i < n :: CeilingStep(states[i], actions[i])
  }

  // ----- The invariant -----------------------------------------------------------------------------------------

  /** Task t's own index is below that of every mutex u holds. */
  ghost predicate Above(s: State, t: nat, u: nat)
    requires Ok(s) && s.sched.Phact? && t < |s.pc|
  {
    forall m: nat | m < |s.holder| && s.holder[m] == u :: TaskIndex(s, t) < MutexIndex(s, m)
  }

  /** A task that holds a mutex is runnable and in no wait that could block it. */
  ghost predicate HolderRuns(s: State, t: nat)
    requires Ok(s) && t < |s.pc|
  {
    && s.sched.Runnable(t)
    && (s.pc[t].Waiting? ==> s.pc[t].purpose == ForSignals && s.signals[t] * s.pc[t].requested != {})
  }

  /** Nobody waits for a mutex, holders run, and the index ranges of any two holders, from the least mutex each holds
      to its own index, do not overlap. */
  ghost predicate CeilingInv(s: State) {
    && Inv(s) && s.sched.Phact?
    && (forall t: nat | t < |s.pc| && !HoldsNone(s, t) :: HolderRuns(s, t))
    && (forall t: nat, m: nat | t < |s.pc| :: !WaitsForMutex(s, t, m))
    && (forall t: nat, u: nat | t < |s.pc| && u < |s.pc| && t != u :: Above(s, t, u) || Above(s, u, t))
  }

  /** An index that backs task t is its own or that of a mutex it holds. */
  lemma BackedByHeld(s: State, i: nat, t: nat) returns (m: nat)
    requires Inv(s) && s.sched.Phact? && t < |s.pc| && i < |s.sched.lockedBy|
    requires Ceiling.Backs(s.sched.tables, s.sched.lockedBy, i, t) && i != TaskIndex(s, t)
    ensures m < |s.holder| && s.holder[m] == t && i == MutexIndex(s, m)
  {
    var tb, e := s.sched.tables, s.sched.lockedBy;
    assert !Ceiling.IsTask(tb, i) && Ceiling.IsMutex(tb, i);
    m :| m < |tb.mutexToIndex| && tb.mutexToIndex[m] == i;
    assert s.sched.MutexWord(m) == tb.taskToIndex[t];
    assert s.holder[m] != TASK_ID_NONE && tb.indexToMutexTask[tb.taskToIndex[s.holder[m]]] == s.holder[m];
  }

  /** The word of a held mutex. */
  lemma HeldWord(s: State, m: nat)
    requires Inv(s) && s.sched.Phact? && m < |s.holder| && s.holder[m] != TASK_ID_NONE
    ensures s.holder[m] < |s.pc| && s.sched.lockedBy[MutexIndex(s, m)] == TaskIndex(s, s.holder[m])
    ensures MutexIndex(s, m) < TaskIndex(s, s.holder[m])
  {
    assert s.sched.MutexWord(m) == s.sched.tables.taskToIndex[s.holder[m]];
  }

  /** The scheduled task's own index is below every mutex that any other task holds. */
  lemma ScheduledIsAbove(s: State, c: nat, u: nat)
    requires CeilingInv(s) && c < |s.pc| && s.sched.Runnable(c) && s.sched.Next() == Inherit.Chosen(c)
    requires u < |s.pc| && u != c
    ensures Above(s, c, u)
  {
    var tb, e := s.sched.tables, s.sched.lockedBy;
    forall m: nat | m < |s.holder| && s.holder[m] == u ensures TaskIndex(s, c) < MutexIndex(s, m) {
      HeldWord(s, m);
      assert !HoldsNone(s, u) && HolderRuns(s, u);
      Ceiling.GetNextMeaning(tb, e, c);
      assert Ceiling.SomeRunnable(tb, e);
      var i: nat :| Ceiling.Effective(tb, e, i, c) && Ceiling.Leads(tb, e, i, c);
      assert Ceiling.Backs(tb, e, MutexIndex(s, m), u);
      assert i < MutexIndex(s, m);
      if i != TaskIndex(s, c) {
        var h := BackedByHeld(s, i, c);
        assert !Above(s, u, c);
        assert Above(s, c, u);
      }
    }
  }

  /** A mutex that the scheduled task may lock is free, or the task holds it already. */
  lemma LockableIsFree(s: State, c: nat, m: nat)
    requires CeilingInv(s) && c < |s.pc| && s.sched.Runnable(c) && s.sched.Next() == Inherit.Chosen(c)
    requires m < |s.holder| && MutexIndex(s, m) < TaskIndex(s, c)
    ensures s.holder[m] == TASK_ID_NONE || s.holder[m] == c
    ensures s.holder[m] == TASK_ID_NONE ==> s.sched.CanLock(m, c)
  {
    if s.holder[m] == TASK_ID_NONE {
      assert s.sched.MutexWord(m) == s.sched.tables.none;
    } else if s.holder[m] != c {
      HeldWord(s, m);
      ScheduledIsAbove(s, c, s.holder[m]);
    }
  }

  // ----- Every step keeps it -----------------------------------------------------------------------------------

  lemma AboveStays(s: State, r: State, t: nat, u: nat)
    requires Ok(s) && Ok(r) && s.sched.Phact? && r.sched.Phact? && r.sched.tables == s.sched.tables
    requires |r.pc| == |s.pc| && |r.holder| == |s.holder| && t < |s.pc| && Above(s, t, u)
    requires forall m: nat | m < |s.holder| && r.holder[m] == u :: s.holder[m] == u
    ensures Above(r, t, u)
  {
  }

  lemma TakeKeepsAbove(s: State, c: nat, m: nat, t: nat, u: nat)
    requires CeilingInv(s) && c < |s.pc| && s.sched.Runnable(c) && s.sched.Next() == Inherit.Chosen(c)
    requires m < |s.holder| && s.holder[m] == TASK_ID_NONE && s.sched.CanLock(m, c)
    requires t < |s.pc| && u < |s.pc| && t != u
    ensures Above(Take(s, c, m), t, u) || Above(Take(s, c, m), u, t)
  {
    var r := Take(s, c, m);
    assert Above(s, t, u) || Above(s, u, t);
    if t == c { ScheduledIsAbove(s, c, u); } else if u == c { ScheduledIsAbove(s, c, t); }
    assert Ok(s) && Ok(r);
    hide Ok, Sched.Ok, Inv, CeilingInv, Above;
    if Above(s, t, u) && u != c { AboveStays(s, r, t, u); } else { AboveStays(s, r, u, t); }
  }

  lemma TakeKeepsCeiling(s: State, c: nat, m: nat)
    requires CeilingInv(s) && c < |s.pc| && s.sched.Runnable(c) && s.sched.Next() == Inherit.Chosen(c)
    requires m < |s.holder| && s.holder[m] == TASK_ID_NONE && s.sched.CanLock(m, c)
    ensures CeilingInv(Take(s, c, m))
  {
    TakeKeeps(s, c, m);
    hide Sched.Ok, Inv;
    var r := Take(s, c, m);
    forall t: nat | t < |r.pc| && !HoldsNone(r, t) ensures HolderRuns(r, t) {
      if t != c {
        var h :| 0 <= h < |r.holder| && r.holder[h] == t;
        assert s.holder[h] == t && !HoldsNone(s, t) && HolderRuns(s, t);
      }
    }
    forall t: nat, m': nat | t < |r.pc| ensures !WaitsForMutex(r, t, m') {
      assert !WaitsForMutex(s, t, m');
    }
    forall t: nat, u: nat | t < |r.pc| && u < |r.pc| && t != u ensures Above(r, t, u) || Above(r, u, t) {
      hide Take, HolderRuns, HoldsNone;
      TakeKeepsAbove(s, c, m, t, u);
    }
  }

  /** Steps that take no mutex and block no holder. */
  ghost predicate Harmless(s: State, r: State)
    requires Ok(s) && Ok(r)
  {
    && SameSizes(s, r) && s.sched.Phact? && r.sched.Phact? && r.sched.tables == s.sched.tables
    && (forall m: nat | m < |s.holder| :: r.holder[m] == s.holder[m] || r.holder[m] == TASK_ID_NONE)
    && (forall t: nat, m: nat | WaitsForMutex(r, t, m) :: WaitsForMutex(s, t, m))
    && forall t: nat | t < |s.pc| && !HoldsNone(s, t) && HolderRuns(s, t) :: HolderRuns(r, t)
  }

  lemma HarmlessKeepsCeiling(s: State, r: State)
    requires CeilingInv(s) && Inv(r) && Harmless(s, r)
    ensures CeilingInv(r)
  {
    forall t: nat | t < |r.pc| && !HoldsNone(r, t) ensures HolderRuns(r, t) {
      var h :| 0 <= h < |r.holder| && r.holder[h] == t;
      assert s.holder[h] == t && !HoldsNone(s, t);
    }
    forall t: nat, u: nat | t < |r.pc| && u < |r.pc| && t != u ensures Above(r, t, u) || Above(r, u, t) {
      if Above(s, t, u) { assert Above(r, t, u); } else { assert Above(s, u, t) && Above(r, u, t); }
    }
  }

  lemma StartWaitHarmless(s: State, t: nat, p: Pc)
    requires Ok(s) && s.sched.Phact? && t < |s.pc| && p.Waiting? && WaitOk(s, p) && p.purpose == ForSignals
    requires p.timing == Forever && s.sched.Runnable(t) && (s.signals[t] * p.requested == {} ==> HoldsNone(s, t))
    ensures Harmless(s, StartWait(s, t, p))
  {
    hide Sched.Ok, Sched.Block;
  }

  lemma SignalWaitHarmless(s: State, a: Action)
    requires CeilingInv(s) && Enabled(s, a) && Disciplined(s, a) && (a.WaitSignals? || a.Sleep?)
    ensures Harmless(s, Do(s, a))
  {
    hide Inv, StartWait;
    match a
    case WaitSignals(t, requested) => StartWaitHarmless(s, t, SignalWait(requested));
    case Sleep(t, ticks) =>
      var p := SignalWait({TASK_TIMER});
      if ticks == 0 {
        var fired := Send(s, t, {TASK_TIMER});
        SendHarmless(s, t, {TASK_TIMER});
        assert TASK_TIMER in fired.signals[t] * {TASK_TIMER};
        StartWaitHarmless(fired, t, p);
        HarmlessTwice(s, fired, StartWait(fired, t, p));
      } else {
        if TASK_TIMER in s.signals[t] { assert TASK_TIMER in s.signals[t] * {TASK_TIMER}; }
        StartWaitHarmless(s, t, p);
      }
  }

  lemma SendHarmless(s: State, t: nat, sent: BitSet)
    requires Ok(s) && s.sched.Phact? && t < |s.pc|
    ensures Harmless(s, Send(s, t, sent))
  {
    hide Sched.Ok, Sched.SetRunnable;
    var r := Send(s, t, sent);
    forall u: nat | u < |s.pc| && !HoldsNone(s, u) && HolderRuns(s, u) ensures HolderRuns(r, u) {
      if s.pc[u].Waiting? {
        var bit :| bit in s.signals[u] * s.pc[u].requested;
        assert bit in r.signals[u] * r.pc[u].requested;
      }
    }
  }

  lemma HarmlessTwice(s: State, r: State, q: State)
    requires Ok(s) && Ok(r) && Ok(q) && Harmless(s, r) && Harmless(r, q) && r.holder == s.holder
    ensures Harmless(s, q)
  {
    hide HolderRuns, Ok;
    assert forall t: nat | t < |s.pc| :: HoldsNone(s, t) == HoldsNone(r, t);
  }

  lemma SemWaitHarmless(s: State, a: Action)
    requires CeilingInv(s) && Enabled(s, a) && Disciplined(s, a) && a.SemWait?
    ensures Harmless(s, Do(s, a))
  {
    hide Sched.Ok, Inv;
    SemAttempted(s, a.t, a.k, a.timing);
  }

  /** An attempt on a semaphore can block only the task that makes it. */
  lemma SemAttemptBlocksNoOther(s: State, t: nat, k: nat, timing: Timing)
    requires Ok(s) && t < |s.pc| && k < |s.value| && s.sched.Runnable(t)
    ensures var r := SemAttempt(s, t, k, timing);
            && s.sched.SameMutexWords(r.sched) && r.holder == s.holder
            && forall u: nat | u != t && s.sched.Runnable(u) :: r.sched.Runnable(u)
  {
    hide Sched.Ok, Sched.SetRunnable, Sched.Block;
  }

  lemma SemRetryHarmless(s: State, t: nat, got: State)
    requires Ok(s) && s.sched.Phact? && t < |s.pc| && s.pc[t].Waiting? && s.pc[t].purpose.ForSemaphore?
    requires s.sched.Runnable(t) && got == s.(signals := s.signals[t := s.signals[t] - s.pc[t].requested])
    ensures Ok(got) && s.pc[t].purpose.sem < |s.value|
    ensures Harmless(s, SemAttempt(got, t, s.pc[t].purpose.sem, s.pc[t].timing))
  {
    assert WaitOk(s, s.pc[t]);
    hide Sched.Ok, SemAttempt;
    SemAttempted(got, t, s.pc[t].purpose.sem, s.pc[t].timing);
    SemAttemptBlocksNoOther(got, t, s.pc[t].purpose.sem, s.pc[t].timing);
    var r := SemAttempt(got, t, s.pc[t].purpose.sem, s.pc[t].timing);
    forall u: nat | u < |s.pc| && !HoldsNone(s, u) && HolderRuns(s, u) ensures HolderRuns(r, u) {
      if s.pc[u].Waiting? {
        var bit :| bit in s.signals[u] * s.pc[u].requested;
        assert bit in r.signals[u] * r.pc[u].requested;
      }
    }
  }

  lemma ResumeHarmless(s: State, t: nat)
    requires CeilingInv(s) && Enabled(s, Resume(t))
    ensures Harmless(s, Do(s, Resume(t)))
  {
    hide Sched.Ok, Inv;
    forall m: nat ensures s.pc[t].purpose != ForMutex(m) { assert !WaitsForMutex(s, t, m); }
    if s.pc[t].purpose.ForSemaphore? && s.signals[t] * s.pc[t].requested != {} {
      hide SemAttempt, Harmless;
      SemRetryHarmless(s, t, s.(signals := s.signals[t := s.signals[t] - s.pc[t].requested]));
    }
  }

  lemma WakeHarmless(s: State, a: Action)
    requires CeilingInv(s) && Enabled(s, a) && (a.Unlock? || a.Post?)
    ensures Harmless(s, Do(s, a))
  {
    hide Sched.Ok, Inv;
  }

  lemma RestHarmless(s: State, a: Action)
    requires CeilingInv(s) && Enabled(s, a)
    requires a.SemTryWait? || a.SetMax? || a.PollSignals? || a.SendSignals? || a.Event? || a.Tick?
    ensures Harmless(s, Do(s, a))
  {
    hide Sched.Ok, Inv;
  }

  lemma StepHarmless(s: State, a: Action)
    requires CeilingInv(s) && Enabled(s, a) && Disciplined(s, a) && !a.Lock? && !a.TryLock?
    ensures Harmless(s, Do(s, a))
  {
    hide Sched.Ok, Inv, Do, Harmless;
    match a
    case Resume(t) => ResumeHarmless(s, t);
    case _ =>
      if a.WaitSignals? || a.Sleep? { SignalWaitHarmless(s, a); }
      else if a.SemWait? { SemWaitHarmless(s, a); }
      else if a.Unlock? || a.Post? { WakeHarmless(s, a); }
      else { RestHarmless(s, a); }
  }

  lemma {:induction false} StepKeepsCeiling(s: State, a: Action)
    requires CeilingInv(s) && Enabled(s, a) && ByScheduled(s, a) && Disciplined(s, a)
    ensures CeilingInv(Do(s, a))
  {
    if a.Lock? || a.TryLock? {
      LockableIsFree(s, a.t, a.m);
      if s.holder[a.m] == TASK_ID_NONE { TakeKeepsCeiling(s, a.t, a.m); }
    } else {
      StepKeepsInv(s, a);
      StepHarmless(s, a);
      HarmlessKeepsCeiling(s, Do(s, a));
    }
  }

  // ----- The theorem -------------------------------------------------------------------------------------------

  lemma {:induction false} CeilingRunKeepsInv(states: seq<State>, actions: seq<Action>, n: nat)
    requires CeilingRun(states, actions, n)
    ensures CeilingInv(states[n])
  {
    hide Init, IsRun, CeilingInv, CeilingStep;
    if n == 0 {
      RunStarts(states, actions);
      StartsAbove(states[0]);
    } else {
      CeilingRunKeepsInv(states, actions, n - 1);
      RunStepKeepsCeiling(states, actions, n - 1);
    }
  }

  lemma RunStepKeepsCeiling(states: seq<State>, actions: seq<Action>, i: nat)
    requires IsRun(states, actions) && i < |actions| && CeilingInv(states[i]) && CeilingStep(states[i], actions[i])
    ensures CeilingInv(states[i + 1])
  {
    StepOf(states, actions, i);
    hide CeilingInv, IsRun, Do, Enabled;
    StepKeepsCeiling(states[i], actions[i]);
  }

  lemma StartsAbove(s: State)
    requires Init(s) && s.sched.Phact?
    ensures CeilingInv(s)
  {
    hide Inv;
    InitHasInv(s);
    assert forall t: nat | t < |s.pc| :: HoldsNone(s, t);
    assert forall t: nat, u: nat | t < |s.pc| && u < |s.pc| :: Above(s, t, u);
  }

  /** Immediate ceilings: in every run of Phact in which the scheduled task makes the steps and the discipline is kept,
      no task ever waits for a mutex, the holder of every mutex is runnable, and the scheduled task finds any mutex it
      may lock and does not hold free, with the scheduler's own assertions about it satisfied. */
  lemma {:induction false} CeilingsPreventContention(states: seq<State>, actions: seq<Action>, n: nat, t: nat, m: nat)
    requires CeilingRun(states, actions, n)
    requires t < |states[n].pc| && m < |states[n].holder|
    ensures Ok(states[n]) && states[n].sched.Phact? && !WaitsForMutex(states[n], t, m)
    ensures states[n].holder[m] == t ==> states[n].sched.Runnable(t)
    ensures states[n].sched.Runnable(t) && states[n].sched.Next() == Inherit.Chosen(t)
            && MutexIndex(states[n], m) < TaskIndex(states[n], t) && states[n].holder[m] != t
            ==> states[n].holder[m] == TASK_ID_NONE && states[n].sched.CanLock(m, t)
  {
    CeilingRunKeepsInv(states, actions, n);
    var s := states[n];
    if s.holder[m] == t { assert !HoldsNone(s, t) && HolderRuns(s, t); }
    if s.sched.Runnable(t) && s.sched.Next() == Inherit.Chosen(t)
       && MutexIndex(s, m) < TaskIndex(s, t) && s.holder[m] != t {
      LockableIsFree(s, t, m);
    }
  }
}
