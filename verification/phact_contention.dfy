/** When the waiting half of the ceiling discipline of Phact is needed: exactly when some mutex can be locked by two
    tasks. */
module PhactContention {
  import opened Ids
  import opened Kernel
  import opened KernelSafety
  import opened KernelTheorems
  import opened KernelSchedule
  import opened PhactCeiling
  import opened Sched
  import opened Timeouts
  import Inherit = SchedPrioInherit
  import Ceiling = SchedPrioCeiling

  /** Two tasks have a lower priority than some mutex, so that both may lock it. */
  ghost predicate Shared(s: State) {
    Ok(s) && s.sched.Phact?
    && exists m: nat, t: nat, u: nat :: Sharers(s, m, t, u)
  }

  ghost predicate Sharers(s: State, m: nat, t: nat, u: nat)
    requires Ok(s) && s.sched.Phact?
  {
    m < |s.holder| && t < |s.pc| && u < |s.pc| && t != u
    && MutexIndex(s, m) < TaskIndex(s, t) && MutexIndex(s, m) < TaskIndex(s, u)
  }

  /** Step i of a scheduled run of Phact, with and without the waiting half of the discipline. */
  ghost predicate LocksWell(s: State, a: Action) {
    Ok(s) && s.sched.Phact? && RespectsCeiling(s, a)
  }

  ghost predicate BehavesWell(s: State, a: Action) {
    LocksWell(s, a) && WaitsHoldingNone(s, a)
  }

  /** Some task waits for a mutex. */
  ghost predicate Contended(s: State) {
    exists t: nat, m: nat :: WaitsForMutex(s, t, m)
  }

  // ----- The tables stay -----------------------------------------------------------------------------------------

  predicate SameTables(s: State, r: State) {
    s.sched.Phact? && r.sched.Phact? && r.sched.tables == s.sched.tables
    && |r.pc| == |s.pc| && |r.holder| == |s.holder|
  }

  lemma MutexTables(s: State, t: nat, m: nat, timing: Timing)
    requires Ok(s) && s.sched.Phact? && t < |s.pc| && m < |s.holder| && s.sched.Runnable(t) && AttemptOk(s, t, m)
    ensures SameTables(s, MutexAttempt(s, t, m, timing))
  {
    hide Sched.Ok, Sched.Lock;
  }

  lemma ResumeTables(s: State, t: nat)
    requires Ok(s) && s.sched.Phact? && Enabled(s, Resume(t))
    ensures SameTables(s, ResumeStep(s, t))
  {
    hide Sched.Ok, MutexAttempt, SemAttempt;
    var got := s.(signals := s.signals[t := s.signals[t] - s.pc[t].requested]);
    if s.signals[t] * s.pc[t].requested != {} {
      match s.pc[t].purpose
      case ForMutex(m) => MutexTables(got, t, m, s.pc[t].timing);
      case ForSemaphore(k) =>
        SemAttemptBlocksNoOther(got, t, k, s.pc[t].timing);
        SemAttempted(got, t, k, s.pc[t].timing);
      case ForSignals =>
    }
  }

  lemma StepTables(s: State, a: Action)
    requires Ok(s) && s.sched.Phact? && Enabled(s, a)
    ensures SameTables(s, Do(s, a))
  {
    hide Sched.Ok, Sched.Lock, Sched.Unlock, MutexAttempt, SemAttempt, ResumeStep, StartWait, Wake;
    match a
    case Lock(t, m, timing) => MutexTables(s, t, m, timing);
    case SemWait(t, k, timing) => SemAttemptBlocksNoOther(s, t, k, timing); SemAttempted(s, t, k, timing);
    case Resume(t) => ResumeTables(s, t);
    case _ =>
  }

  // ----- Without sharing there is no contention ------------------------------------------------------------------

  /** Who finds a mutex taken that it may lock shares it with the holder. */
  lemma HolderShares(s: State, t: nat, m: nat)
    requires Inv(s) && s.sched.Phact? && t < |s.pc| && m < |s.holder| && MutexIndex(s, m) < TaskIndex(s, t)
    requires s.holder[m] != TASK_ID_NONE && s.holder[m] != t
    ensures Shared(s)
  {
    HeldWord(s, m);
    assert Sharers(s, m, t, s.holder[m]);
  }

  lemma UnsharedStep(s: State, a: Action, r: State)
    requires Inv(s) && s.sched.Phact? && Enabled(s, a) && Frame(s, a, r) && RespectsCeiling(s, a)
    requires !Shared(s) && !Contended(s)
    ensures !Contended(r)
  {
    hide Sched.Ok, Shared;
    forall t: nat, m: nat ensures !WaitsForMutex(r, t, m) {
      assert !WaitsForMutex(s, t, m);
      if t < |r.pc| {
        assert PcChange(s, a, r, t);
        if a.Lock? && a.t == t && a.m == m && s.holder[m] != TASK_ID_NONE { HolderShares(s, t, m); }
      }
    }
  }

  /** What no step of such a run changes: no task waits for a mutex, and no mutex is shared. */
  ghost predicate Uncontended(s0: State, s: State) {
    Inv(s) && SameTables(s0, s) && !Shared(s) && !Contended(s)
  }

  lemma UnsharedRunStep(states: seq<State>, actions: seq<Action>, i: nat)
    requires IsRun(states, actions) && i < |actions| && Uncontended(states[0], states[i])
    requires LocksWell(states[i], actions[i])
    ensures Uncontended(states[0], states[i + 1])
  {
    RunKeepsInv(states, actions, i + 1);
    StepOf(states, actions, i);
    RunFrame(states, actions, i);
    assert Ok(states[i]) && Ok(states[i + 1]);
    hide IsRun, Do, Enabled, Frame, Inv, Ok, Contended, Shared;
    StepTables(states[i], actions[i]);
    StillUnshared(states[i], states[i + 1]);
    UnsharedStep(states[i], actions[i], states[i + 1]);
  }

  lemma {:induction false} UnsharedNeverContends(states: seq<State>, actions: seq<Action>, i: nat)
    requires IsRun(states, actions) && i < |states| && states[0].sched.Phact? && !Shared(states[0])
    requires |states| == |actions| + 1 && forall k: nat | k < i :: LocksWell(states[k], actions[k])
    ensures Uncontended(states[0], states[i])
  {
    hide IsRun, LocksWell, Uncontended;
    if i == 0 {
      StartsUncontended(states, actions);
    } else {
      UnsharedNeverContends(states, actions, i - 1);
      UnsharedRunStep(states, actions, i - 1);
    }
  }

  lemma StartsUncontended(states: seq<State>, actions: seq<Action>)
    requires IsRun(states, actions) && states[0].sched.Phact? && !Shared(states[0])
    ensures Uncontended(states[0], states[0])
  {
    RunStarts(states, actions);
    InitHasInv(states[0]);
    hide IsRun, Inv, Shared;
    forall t: nat, m: nat ensures !WaitsForMutex(states[0], t, m) {}
  }

  lemma StillUnshared(s: State, r: State)
    requires Ok(s) && Ok(r) && SameTables(s, r) && !Shared(s)
    ensures !Shared(r)
  {
    forall m: nat, t: nat, u: nat ensures !Sharers(r, m, t, u) { assert !Sharers(s, m, t, u); }
  }

  // ----- With sharing there is ------------------------------------------------------------------------------------

  /** A scheduled run leads from s0 to s in which tasks lock only mutexes above them and wait holding none, but for one
      step if lapsed. */
  ghost predicate Reached(s0: State, s: State, lapsed: bool) {
    exists states, actions, k: int :: Leads(states, actions, k, s0, s) && (lapsed <==> 0 <= k < |actions|)
  }

  ghost predicate Leads(states: seq<State>, actions: seq<Action>, k: int, s0: State, s: State) {
    && IsScheduledRun(states, actions) && states[0] == s0 && states[|actions|] == s && k < |actions|
    && forall i: nat | i < |actions| :: LocksWell(states[i], actions[i])
                                        && (i != k ==> BehavesWell(states[i], actions[i]))
  }

  lemma ReachedStart(s0: State)
    requires Init(s0)
    ensures Reached(s0, s0, false)
  {
    ReachedFirst(s0);
    var states :| IsScheduledRun(states, []) && states[0] == s0;
    assert Leads(states, [], -1, s0, s0);
  }

  /** One more step; a step that waits holding a mutex is the lapse, and only one is allowed. */
  lemma ReachedOn(s0: State, s: State, lapsed: bool, a: Action, lapses: bool)
    requires Reached(s0, s, lapsed) && Ok(s) && Enabled(s, a) && ByScheduled(s, a) && LocksWell(s, a)
    requires !lapses ==> BehavesWell(s, a)
    requires !(lapsed && lapses)
    ensures Reached(s0, Do(s, a), lapsed || lapses)
  {
    hide IsRun, Enabled, Do, ByScheduled, LocksWell, BehavesWell, Ok;
    var states, actions, k: int :| Leads(states, actions, k, s0, s) && (lapsed <==> 0 <= k < |actions|);
    var r := Do(s, a);
    ScheduledNext(states, actions, a);
    var k' := if lapses then |actions| else k;
    forall i: nat | i < |actions + [a]|
      ensures LocksWell((states + [r])[i], (actions + [a])[i])
              && (i != k' ==> BehavesWell((states + [r])[i], (actions + [a])[i]))
    {
    }
    assert Leads(states + [r], actions + [a], k', s0, r);
  }

  lemma ReachedHasInv(s0: State, s: State, lapsed: bool)
    requires Reached(s0, s, lapsed)
    ensures Inv(s)
  {
    var states, actions, k: int :| Leads(states, actions, k, s0, s) && (lapsed <==> 0 <= k < |actions|);
    hide Inv;
    RunKeepsInv(states, actions, |actions|);
  }

  /** Exactly the given tasks are awake, outside any wait; one task may be asleep on its timer, and all others wait for
      signal 1.  No signal is pending. */
  ghost predicate Parked(s0: State, s: State, awake: set<nat>, sleeper: nat, holder: seq<nat>) {
    && Ok(s) && SameTables(s0, s) && s.holder == holder
    && (forall t | t in awake :: t < |s.pc|)
    && forall t: nat | t < |s.pc| :: ParkedTask(s, t, awake, sleeper)
  }

  ghost predicate ParkedTask(s: State, t: nat, awake: set<nat>, sleeper: nat)
    requires t < |s.pc| == |s.signals|
  {
    && s.signals[t] == {} && (s.sched.Runnable(t) <==> t in awake)
    && s.pc[t] == if t in awake then Outside else if t == sleeper then SignalWait({TASK_TIMER}) else SignalWait({1})
  }

  /** The scheduler picks a task that is awake. */
  lemma PicksAwake(s0: State, s: State, awake: set<nat>, sleeper: nat, holder: seq<nat>) returns (c: nat)
    requires Parked(s0, s, awake, sleeper, holder) && awake != {}
    ensures c in awake && s.sched.Next() == Inherit.Chosen(c)
  {
    var x :| x in awake;
    assert ParkedTask(s, x, awake, sleeper);
    c := Ceiling.NextTask(s.sched.tables, s.sched.lockedBy);
    Ceiling.GetNextMeaning(s.sched.tables, s.sched.lockedBy, c);
    assert Ceiling.Runnable(s.sched.tables, s.sched.lockedBy, x);
    assert s.sched.Runnable(c) && ParkedTask(s, c, awake, sleeper);
  }

  /** A task that is awake waits for signal 1. */
  lemma WaitParks(s0: State, s: State, awake: set<nat>, holder: seq<nat>, c: nat)
    requires Parked(s0, s, awake, TASK_ID_NONE, holder) && c in awake
    requires forall m | 0 <= m < |holder| :: holder[m] == TASK_ID_NONE
    ensures Enabled(s, WaitSignals(c, {1})) && BehavesWell(s, WaitSignals(c, {1}))
    ensures Parked(s0, Do(s, WaitSignals(c, {1})), awake - {c}, TASK_ID_NONE, holder)
  {
    assert ParkedTask(s, c, awake, TASK_ID_NONE);
    var r := Do(s, WaitSignals(c, {1}));
    hide Sched.Ok, Sched.Block;
    assert SameTables(s0, r);
    forall t: nat | t < |r.pc| ensures ParkedTask(r, t, awake - {c}, TASK_ID_NONE) {
      assert ParkedTask(s, t, awake, TASK_ID_NONE);
    }
  }

  /** All tasks that are awake wait for signal 1, one after the other as they are scheduled. */
  lemma {:induction false} ParkAll(s0: State, s: State, awake: set<nat>, holder: seq<nat>) returns (r: State)
    requires Reached(s0, s, false) && Parked(s0, s, awake, TASK_ID_NONE, holder)
    requires forall m | 0 <= m < |holder| :: holder[m] == TASK_ID_NONE
    ensures Reached(s0, r, false) && Parked(s0, r, {}, TASK_ID_NONE, holder)
    decreases awake
  {
    if awake == {} {
      r := s;
    } else {
      var c := PicksAwake(s0, s, awake, TASK_ID_NONE, holder);
      assert Ok(s);
      hide Parked, Reached, BehavesWell, Enabled, Do, Ok;
      WaitParks(s0, s, awake, holder, c);
      BehavesLocks(s, WaitSignals(c, {1}));
      ReachedOn(s0, s, false, WaitSignals(c, {1}), false);
      r := ParkAll(s0, Do(s, WaitSignals(c, {1})), awake - {c}, holder);
    }
  }

  lemma BehavesLocks(s: State, a: Action)
    requires BehavesWell(s, a)
    ensures LocksWell(s, a)
  {
  }

  /** An interrupt event sends signal 1 to task x. */
  ghost predicate Sent(s0: State, s: State, x: nat, sleeper: nat, holder: seq<nat>) {
    && Ok(s) && SameTables(s0, s) && s.holder == holder && x < |s.pc| && x != sleeper
    && s.signals[x] == {1} && s.sched.Runnable(x) && s.pc[x] == SignalWait({1})
    && forall t: nat | t < |s.pc| && t != x :: ParkedTask(s, t, {}, sleeper)
  }

  lemma EventSends(s0: State, s: State, x: nat, sleeper: nat, holder: seq<nat>)
    requires Parked(s0, s, {}, sleeper, holder) && x < |s.pc| && x != sleeper
    ensures Enabled(s, Event(x, {1})) && BehavesWell(s, Event(x, {1})) && ByScheduled(s, Event(x, {1}))
    ensures Sent(s0, Do(s, Event(x, {1})), x, sleeper, holder)
  {
    assert ParkedTask(s, x, {}, sleeper);
    var r := Do(s, Event(x, {1}));
    hide Sched.Ok, Sched.SetRunnable;
    assert {} + {1} == {1};
    forall t: nat | t < |r.pc| && t != x ensures ParkedTask(r, t, {}, sleeper) {
      assert ParkedTask(s, t, {}, sleeper);
    }
  }

  /** It receives the signal and is the one task awake. */
  lemma ResumeWakes(s0: State, s: State, x: nat, sleeper: nat, holder: seq<nat>)
    requires Sent(s0, s, x, sleeper, holder)
    ensures Enabled(s, Resume(x)) && BehavesWell(s, Resume(x)) && ByScheduled(s, Resume(x))
    ensures Parked(s0, Do(s, Resume(x)), {x}, sleeper, holder)
  {
    forall t: nat | t < |s.pc| && t != x ensures !s.sched.Runnable(t) { assert ParkedTask(s, t, {}, sleeper); }
    SoleRunnable(s, x);
    assert 1 in s.signals[x] * {1};
    var r := Do(s, Resume(x));
    hide Sched.Ok;
    assert s.signals[x] - {1} == {};
    forall t: nat | t < |r.pc| ensures ParkedTask(r, t, {x}, sleeper) {
      if t != x { assert ParkedTask(s, t, {}, sleeper); }
    }
  }

  /** The only runnable task is the scheduled one. */
  lemma SoleRunnable(s: State, x: nat)
    requires Ok(s) && s.sched.Phact? && x < |s.pc| && s.sched.Runnable(x)
    requires forall t: nat | t < |s.pc| && t != x :: !s.sched.Runnable(t)
    ensures s.sched.Next() == Inherit.Chosen(x)
  {
    var c := Ceiling.NextTask(s.sched.tables, s.sched.lockedBy);
    Ceiling.GetNextMeaning(s.sched.tables, s.sched.lockedBy, c);
    assert Ceiling.Runnable(s.sched.tables, s.sched.lockedBy, x);
    assert s.sched.Runnable(c);
  }

  /** With all tasks parked, an event makes any one of them, but the sleeper, the one that is awake.  In the code an
      event raised while the last task blocks is handled before the scheduler is asked, so it never has to choose from
      none. */
  lemma WakeOne(s0: State, s: State, lapsed: bool, x: nat, sleeper: nat, holder: seq<nat>) returns (r: State)
    requires Reached(s0, s, lapsed) && Parked(s0, s, {}, sleeper, holder) && x < |s.pc| && x != sleeper
    ensures Reached(s0, r, lapsed) && Parked(s0, r, {x}, sleeper, holder)
  {
    EventSends(s0, s, x, sleeper, holder);
    assert Ok(s);
    var t := Do(s, Event(x, {1}));
    ResumeWakes(s0, t, x, sleeper, holder);
    hide Parked, Sent, Reached, BehavesWell, ByScheduled, Enabled, Do, Ok;
    BehavesLocks(s, Event(x, {1}));
    ReachedOn(s0, s, lapsed, Event(x, {1}), false);
    BehavesLocks(t, Resume(x));
    ReachedOn(s0, t, lapsed, Resume(x), false);
    r := Do(t, Resume(x));
  }

  lemma SoleAwake(s0: State, s: State, x: nat, sleeper: nat, holder: seq<nat>)
    requires Parked(s0, s, {x}, sleeper, holder)
    ensures x < |s.pc| && s.pc[x] == Outside && s.sched.Runnable(x) && s.sched.Next() == Inherit.Chosen(x)
  {
    assert x in {x} && ParkedTask(s, x, {x}, sleeper);
    forall t: nat | t < |s.pc| && t != x ensures !s.sched.Runnable(t) { assert ParkedTask(s, t, {x}, sleeper); }
    SoleRunnable(s, x);
  }

  /** The task that is awake locks a free mutex above it. */
  lemma AwakeLocks(s0: State, s: State, u: nat, m: nat, holder: seq<nat>)
    requires Inv(s) && Parked(s0, s, {u}, TASK_ID_NONE, holder) && u < |s.pc|
    requires m < |s.holder| && s.holder[m] == TASK_ID_NONE && MutexIndex(s, m) < TaskIndex(s, u)
    ensures var a := Lock(u, m, Forever);
            Enabled(s, a) && BehavesWell(s, a) && ByScheduled(s, a)
            && Parked(s0, Do(s, a), {u}, TASK_ID_NONE, holder[m := u])
  {
    SoleAwake(s0, s, u, TASK_ID_NONE, holder);
    assert s.sched.MutexWord(m) == s.sched.tables.none;
    var r := Do(s, Lock(u, m, Forever));
    hide Sched.Ok, Sched.Lock, Inv;
    forall t: nat | t < |r.pc| ensures ParkedTask(r, t, {u}, TASK_ID_NONE) {
      assert ParkedTask(s, t, {u}, TASK_ID_NONE);
    }
  }

  /** It goes to sleep for a tick. */
  lemma AwakeSleeps(s0: State, s: State, u: nat, holder: seq<nat>)
    requires Parked(s0, s, {u}, TASK_ID_NONE, holder) && u < |s.pc|
    ensures Enabled(s, Sleep(u, 1)) && LocksWell(s, Sleep(u, 1)) && ByScheduled(s, Sleep(u, 1))
    ensures Parked(s0, Do(s, Sleep(u, 1)), {}, u, holder)
  {
    SoleAwake(s0, s, u, TASK_ID_NONE, holder);
    var r := Do(s, Sleep(u, 1));
    assert ParkedTask(s, u, {u}, TASK_ID_NONE);
    hide Sched.Ok, Sched.Block;
    forall t: nat | t < |r.pc| ensures ParkedTask(r, t, {}, u) {
      assert ParkedTask(s, t, {u}, TASK_ID_NONE);
    }
  }

  /** The other task finds the mutex taken. */
  lemma AwakeContends(s0: State, s: State, t: nat, u: nat, m: nat, holder: seq<nat>)
    requires Parked(s0, s, {t}, u, holder) && t < |s.pc| && u < |s.pc| && t != u
    requires m < |s.holder| && s.holder[m] == u && MutexIndex(s, m) < TaskIndex(s, t)
    ensures var a := Lock(t, m, Forever);
            Enabled(s, a) && BehavesWell(s, a) && ByScheduled(s, a) && WaitsForMutex(Do(s, a), t, m)
  {
    SoleAwake(s0, s, t, u, holder);
    hide Sched.Ok, Sched.Block;
  }

  lemma StartsParked(s0: State)
    requires Init(s0) && s0.sched.Phact?
    ensures Parked(s0, s0, Below(|s0.pc|), TASK_ID_NONE, s0.holder)
  {
    hide Sched.Ok;
    forall t: nat | t < |s0.pc| ensures ParkedTask(s0, t, Below(|s0.pc|), TASK_ID_NONE) {
      assert s0.sched.Runnable(t);
    }
  }

  /** Start of the run: every task is parked. */
  lemma AllParked(s0: State) returns (r: State, free: seq<nat>)
    requires Init(s0) && s0.sched.Phact?
    ensures Reached(s0, r, false) && Parked(s0, r, {}, TASK_ID_NONE, free)
    ensures forall m | 0 <= m < |free| :: free[m] == TASK_ID_NONE
  {
    free := s0.holder;
    ReachedStart(s0);
    StartsParked(s0);
    hide Parked, Reached, Ok, Sched.AtStart;
    r := ParkAll(s0, s0, Below(|s0.pc|), free);
  }

  /** One of two tasks that share a mutex takes it and sleeps. */
  lemma HolderSleeps(s0: State, m: nat, t: nat, u: nat) returns (r: State, holder: seq<nat>)
    requires Init(s0) && s0.sched.Phact? && Sharers(s0, m, t, u)
    ensures Reached(s0, r, true) && Parked(s0, r, {}, u, holder) && m < |holder| && holder[m] == u
  {
    var s, free := AllParked(s0);
    var s1 := WakeOne(s0, s, false, u, TASK_ID_NONE, free);
    ReachedHasInv(s0, s1, false);
    AwakeLocks(s0, s1, u, m, free);
    var lock, sleep := Lock(u, m, Forever), Sleep(u, 1);
    var s2 := Do(s1, lock);
    holder := free[m := u];
    AwakeSleeps(s0, s2, u, holder);
    assert Ok(s1) && Ok(s2);
    hide Parked, Reached, BehavesWell, LocksWell, ByScheduled, Enabled, Do, Inv, Ok;
    BehavesLocks(s1, lock);
    ReachedOn(s0, s1, false, lock, false);
    ReachedOn(s0, s2, false, sleep, true);
    r := Do(s2, sleep);
  }

  /** The other one finds it taken: one wait that breaks the discipline is enough. */
  lemma SharedContends(s0: State) returns (r: State)
    requires Init(s0) && s0.sched.Phact? && Shared(s0)
    ensures Reached(s0, r, true) && Contended(r)
  {
    var m: nat, t: nat, u: nat :| Sharers(s0, m, t, u);
    var s, holder := HolderSleeps(s0, m, t, u);
    var s1 := WakeOne(s0, s, true, t, u, holder);
    AwakeContends(s0, s1, t, u, m, holder);
    assert Ok(s1);
    var lock := Lock(t, m, Forever);
    hide Parked, Reached, BehavesWell, LocksWell, ByScheduled, Enabled, Do, Ok;
    BehavesLocks(s1, lock);
    ReachedOn(s0, s1, true, lock, false);
    r := Do(s1, lock);
  }

  // ----- The condition ---------------------------------------------------------------------------------------------

  /** Some scheduled run from s0 in which tasks lock only mutexes above them leads to a task that waits for a mutex. */
  ghost predicate CanContend(s0: State) {
    exists states, actions, i: nat ::
      IsScheduledRun(states, actions) && states[0] == s0 && i < |states| && Contended(states[i])
      && forall k: nat | k < |actions| :: LocksWell(states[k], actions[k])
  }

  /** Ceilings alone prevent contention if and only if no two tasks have a lower priority than one mutex; otherwise a
      single wait with a mutex held makes a task find its mutex taken, so that tasks must not wait holding one. */
  lemma ContentionIffShared(s0: State)
    requires Init(s0) && s0.sched.Phact?
    ensures CanContend(s0) <==> Shared(s0)
    ensures CanContend(s0) <==> exists r :: Reached(s0, r, true) && Contended(r)
  {
    hide Shared, CanContend, Reached, Contended, Init;
    if Shared(s0) {
      var r := SharedContends(s0);
      ReachedCanContend(s0, r);
    } else {
      UnsharedCannotContend(s0);
      forall r | Reached(s0, r, true) && Contended(r) ensures false { ReachedCanContend(s0, r); }
    }
  }

  lemma UnsharedCannotContend(s0: State)
    requires s0.sched.Phact? && !Shared(s0)
    ensures !CanContend(s0)
  {
    hide Shared, Contended, IsRun, LocksWell;
    forall states, actions, i: nat
      | IsScheduledRun(states, actions) && states[0] == s0 && i < |states|
        && forall k: nat | k < |actions| :: LocksWell(states[k], actions[k])
      ensures !Contended(states[i])
    {
      UnsharedNeverContends(states, actions, i);
    }
  }

  lemma ReachedCanContend(s0: State, r: State)
    requires Reached(s0, r, true) && Contended(r)
    ensures CanContend(s0)
  {
    var states, actions, k: int :| Leads(states, actions, k, s0, r) && 0 <= k < |actions|;
    assert Contended(states[|actions|]);
  }
}
