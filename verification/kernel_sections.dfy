/** Every step of the kernel objects is carried out by a kernel section: by the unblocking, locking and blocking that
    the machine of interrupts knows, of the task that makes the step. */
module KernelSections {
  import opened Ids
  import opened Kernel
  import opened Sched
  import opened Timeouts
  import P = Preemption
  import KT = KernelTheorems
  import Joint = JointMachine

  /** A state in a kernel section. */
  ghost predicate Ready(p: P.State) {
    p.pc.Kernel? && p.sched.Ok() && p.current < p.sched.TaskCount() == |p.saved|
  }

  predicate Inner(a: P.Action) {
    a.Unblock? || a.LockMutex? || a.UnlockMutex?
  }

  /** The actions of the current task lead from p to q within the section. */
  ghost predicate Leads(p: P.State, actions: seq<P.Action>, q: P.State)
    decreases |actions|
  {
    if actions == [] then p == q
    else Inner(actions[0]) && P.Enabled(p, actions[0]) && Leads(P.Do(p, actions[0]), actions[1..], q)
  }

  lemma {:induction false} LeadsOn(p: P.State, first: seq<P.Action>, q: P.State, second: seq<P.Action>, r: P.State)
    requires Leads(p, first, q) && Leads(q, second, r)
    ensures Leads(p, first + second, r)
    decreases |first|
  {
    if first == [] {
      assert first + second == second;
    } else {
      assert (first + second)[0] == first[0] && (first + second)[1..] == first[1..] + second;
      LeadsOn(P.Do(p, first[0]), first[1..], q, second, r);
    }
  }

  /** Within the section the scheduler state can become to; only a pending preemption may be left beside it. */
  ghost predicate CanReach(p: P.State, to: Sched) {
    exists actions, pending :: Leads(p, actions, p.(sched := to, preemptPending := pending))
  }

  /** Some section from p on ends with the scheduler state to. */
  ghost predicate Carries(p: P.State, to: Sched) {
    exists actions, q, end ::
      Leads(p, actions, q) && Joint.EndsSection(q, end) && P.Enabled(q, end) && P.Do(q, end).sched == to
  }

  lemma Stays(p: P.State)
    requires Ready(p)
    ensures CanReach(p, p.sched)
  {
    assert p == p.(sched := p.sched, preemptPending := p.preemptPending);
    assert Leads(p, [], p.(sched := p.sched, preemptPending := p.preemptPending));
  }

  lemma OneMore(p: P.State, actions: seq<P.Action>, q: P.State, a: P.Action)
    requires Leads(p, actions, q) && Inner(a) && P.Enabled(q, a)
    ensures Leads(p, actions + [a], P.Do(q, a))
  {
    hide P.Enabled, P.Do;
    var r := P.Do(q, a);
    assert Leads(r, [], r) && [a][1..] == [];
    assert Leads(q, [a], r);
    LeadsOn(p, actions, q, [a], r);
  }

  lemma ThenUnblock(p: P.State, mid: Sched, t: nat)
    requires Ready(p) && mid.Ok() && mid.TaskCount() == p.sched.TaskCount() && CanReach(p, mid) && t < |p.saved|
    ensures CanReach(p, mid.SetRunnable(t))
  {
    var actions, pending :| Leads(p, actions, p.(sched := mid, preemptPending := pending));
    var q := p.(sched := mid, preemptPending := pending);
    OneMore(p, actions, q, P.Unblock(t));
    assert P.Do(q, P.Unblock(t)) == p.(sched := mid.SetRunnable(t), preemptPending := true);
  }

  lemma ThenLock(p: P.State, m: nat)
    requires Ready(p) && p.sched.Runnable(p.current) && p.sched.CanLock(m, p.current)
    ensures CanReach(p, p.sched.Lock(m, p.current))
  {
    assert Leads(p, [], p);
    OneMore(p, [], p, P.LockMutex(m));
    assert P.Do(p, P.LockMutex(m)) == p.(sched := p.sched.Lock(m, p.current), preemptPending := p.preemptPending);
  }

  lemma ThenUnlock(p: P.State, m: nat)
    requires Ready(p) && (p.sched.Phact? ==> m < |p.sched.tables.mutexToIndex|)
    ensures CanReach(p, p.sched.Unlock(m))
  {
    if p.sched.Kochab? {
      Stays(p);
    } else {
      assert Leads(p, [], p);
      OneMore(p, [], p, P.UnlockMutex(m));
      assert P.Do(p, P.UnlockMutex(m)) == p.(sched := p.sched.Unlock(m), preemptPending := true);
    }
  }

  /** The section ends with preemption enabled again, or with yield(). */
  lemma EndsPlain(p: P.State, to: Sched)
    requires Ready(p) && CanReach(p, to) && to.Ok() && to.TaskCount() == p.sched.TaskCount()
    ensures Carries(p, to)
  {
    var actions, pending :| Leads(p, actions, p.(sched := to, preemptPending := pending));
    var q := p.(sched := to, preemptPending := pending);
    assert Joint.EndsSection(q, P.PreemptEnable) && P.Enabled(q, P.PreemptEnable)
           && P.Do(q, P.PreemptEnable).sched == to;
  }

  lemma EndsBlocked(p: P.State, to: Sched, blocker: nat)
    requires Ready(p) && CanReach(p, to) && to.Ok() && to.TaskCount() == p.sched.TaskCount()
    requires blocker < |p.saved| || blocker == TASK_ID_NONE
    ensures Carries(p, to.Block(p.current, blocker))
  {
    var actions, pending :| Leads(p, actions, p.(sched := to, preemptPending := pending));
    var q := p.(sched := to, preemptPending := pending);
    assert Joint.EndsSection(q, P.BlockOn(blocker)) && P.Enabled(q, P.BlockOn(blocker))
           && P.Do(q, P.BlockOn(blocker)).sched == to.Block(p.current, blocker);
  }

  // ----- The steps of the kernel objects -------------------------------------------------------------------------

  /** The loop that wakes waiters is a chain of unblock() calls. */
  lemma {:induction false} WakeReaches(p: P.State, w: Woken, id: nat, none: nat, t: nat)
    requires Ready(p) && w.sched.Ok() && CanReach(p, w.sched)
    requires t <= w.sched.TaskCount() == |w.waiters| == |w.signals| == |p.saved|
    ensures CanReach(p, Wake(w, id, none, t).sched)
    decreases |w.waiters| - t
  {
    hide CanReach;
    if t < |w.waiters| {
      if w.waiters[t] == id {
        ThenUnblock(p, w.sched, t);
        var next := Woken(w.waiters[t := none], w.signals[t := w.signals[t] + {TASK_TIMER}], w.sched.SetRunnable(t));
        WakeReaches(p, next, id, none, t + 1);
      } else {
        WakeReaches(p, w, id, none, t + 1);
      }
    }
  }

  /** A task in a kernel section with the kernel objects in state k. */
  ghost predicate Acts(p: P.State, k: State) {
    Ready(p) && Ok(k) && p.sched == k.sched
  }

  lemma SendCarried(p: P.State, k: State, to: nat, sent: BitSet)
    requires Acts(p, k) && to < |k.pc|
    ensures CanReach(p, Send(k, to, sent).sched)
  {
    Stays(p);
    hide CanReach;
    ThenUnblock(p, p.sched, to);
  }

  /** A wait: the section ends with block_on(), or with yield() if a requested signal is pending. */
  lemma WaitCarried(p: P.State, k: State, mid: State, w: Pc)
    requires Acts(p, k) && Ok(mid) && |mid.pc| == |k.pc| && CanReach(p, mid.sched)
    requires w.Waiting? && WaitOk(mid, w)
    ensures Carries(p, Enter(mid, p.current, w).sched)
  {
    hide CanReach, Carries, Sched.Ok;
    assert w.blocker < |k.pc| || w.blocker == TASK_ID_NONE;
    if mid.signals[p.current] * w.requested != {} {
      EndsPlain(p, mid.sched);
    } else {
      EndsBlocked(p, mid.sched, w.blocker);
    }
  }

  lemma StartWaitCarried(p: P.State, k: State, mid: State, w: Pc)
    requires Acts(p, k) && Ok(mid) && |mid.pc| == |k.pc| && mid.sched == k.sched
    requires w.Waiting? && WaitOk(mid, w) && (w.timing.Until? ==> StillTime(mid.clock, w.timing))
    ensures Carries(p, StartWait(mid, p.current, w).sched)
  {
    hide Carries, CanReach, Sched.Ok, StillTime, TimerArgument;
    Stays(p);
    if w.timing.Until? && TimerArgument(mid.clock, w.timing) == 0 { SendCarried(p, mid, p.current, {TASK_TIMER}); }
    WaitCarried(p, k, StartTimer(mid, p.current, w.timing), w);
  }

  lemma MutexCarried(p: P.State, k: State, mid: State, m: nat, timing: Timing)
    requires Acts(p, k) && Ok(mid) && |mid.pc| == |k.pc| && mid.sched == k.sched
    requires m < |mid.holder| && mid.sched.Runnable(p.current) && AttemptOk(mid, p.current, m)
    ensures Carries(p, MutexAttempt(mid, p.current, m, timing).sched)
  {
    hide Carries, CanReach, Sched.Ok, StillTime, StartWait;
    if mid.holder[m] == TASK_ID_NONE {
      ThenLock(p, m);
      EndsPlain(p, p.sched.Lock(m, p.current));
    } else if StillTime(mid.clock, timing) {
      assert IsTaskOrNone(mid, mid.holder[m]);
      StartWaitCarried(p, k, mid.(mutexWaiters := mid.mutexWaiters[p.current := m]),
                       Waiting(ForMutex(m), {TASK_TIMER}, mid.holder[m], timing));
    } else {
      Stays(p);
      EndsPlain(p, p.sched);
    }
  }

  lemma SemCarried(p: P.State, k: State, mid: State, n: nat, timing: Timing)
    requires Acts(p, k) && Ok(mid) && |mid.pc| == |k.pc| && mid.sched == k.sched
    requires n < |mid.value| && mid.sched.Runnable(p.current)
    ensures Carries(p, SemAttempt(mid, p.current, n, timing).sched)
  {
    hide Carries, CanReach, Sched.Ok, StillTime, StartWait;
    Stays(p);
    if mid.value[n] == 0 && StillTime(mid.clock, timing) {
      StartWaitCarried(p, k, mid.(semWaiters := mid.semWaiters[p.current := n]),
                       Waiting(ForSemaphore(n), {TASK_TIMER}, TASK_ID_NONE, timing));
    } else {
      EndsPlain(p, p.sched);
    }
  }

  lemma WakeCarried(p: P.State, k: State, a: Action)
    requires Acts(p, k) && Enabled(k, a) && KT.Actor(a) == p.current && (a.Unlock? || a.Post?)
    ensures Carries(p, Do(k, a).sched)
  {
    hide Carries, CanReach, Sched.Ok, Wake;
    if a.Unlock? {
      ThenUnlock(p, a.m);
      var w := Woken(k.mutexWaiters, k.signals, k.sched.Unlock(a.m));
      WakeReaches(p, w, a.m, MUTEX_ID_NONE, 0);
      EndsPlain(p, Wake(w, a.m, MUTEX_ID_NONE, 0).sched);
    } else {
      Stays(p);
      var w := Woken(k.semWaiters, k.signals, k.sched);
      if k.value[a.k] == 0 {
        WakeReaches(p, w, a.k, SEM_ID_NONE, 0);
        EndsPlain(p, Wake(w, a.k, SEM_ID_NONE, 0).sched);
      } else {
        EndsPlain(p, k.sched);
      }
    }
  }

  lemma ResumeCarried(p: P.State, k: State)
    requires Acts(p, k) && Enabled(k, Resume(p.current))
    ensures Carries(p, ResumeStep(k, p.current).sched)
  {
    var t := p.current;
    var w := k.pc[t];
    assert WaitOk(k, w);
    hide Carries, CanReach, Sched.Ok, MutexAttempt, SemAttempt;
    Stays(p);
    if k.signals[t] * w.requested == {} {
      EndsBlocked(p, k.sched, w.blocker);
    } else {
      var got := k.(signals := k.signals[t := k.signals[t] - w.requested]);
      match w.purpose
      case ForMutex(m) => MutexCarried(p, k, got, m, w.timing);
      case ForSemaphore(n) => SemCarried(p, k, got, n, w.timing);
      case ForSignals => EndsPlain(p, k.sched);
    }
  }

  lemma RestCarried(p: P.State, k: State, a: Action)
    requires Acts(p, k) && Enabled(k, a) && KT.Actor(a) == p.current
    requires a.TryLock? || a.SemTryWait? || a.SetMax? || a.PollSignals? || a.SendSignals?
    ensures Carries(p, Do(k, a).sched)
  {
    hide Carries, CanReach, Sched.Ok;
    Stays(p);
    match a
    case TryLock(t, m) =>
      if k.holder[m] == TASK_ID_NONE {
        ThenLock(p, m);
        EndsPlain(p, p.sched.Lock(m, t));
      } else {
        EndsPlain(p, p.sched);
      }
    case SendSignals(_, to, sent) =>
      SendCarried(p, k, to, sent);
      EndsPlain(p, Send(k, to, sent).sched);
    case _ => EndsPlain(p, p.sched);
  }

  /** Every step that a task makes on the kernel objects is carried out by some kernel section of that task: from any
      state of a kernel section with the same scheduler state, actions of the task lead to the end of the section with
      the scheduler state after the step. */
  lemma StepIsCarried(p: P.State, k: State, a: Action)
    requires Acts(p, k) && Enabled(k, a) && KT.Actor(a) == p.current
    ensures Carries(p, Do(k, a).sched)
  {
    hide Carries, CanReach, Sched.Ok, MutexAttempt, SemAttempt, ResumeStep, StartWait;
    match a
    case Lock(_, m, timing) => MutexCarried(p, k, k, m, timing);
    case SemWait(_, n, timing) => SemCarried(p, k, k, n, timing);
    case WaitSignals(_, requested) => StartWaitCarried(p, k, k, SignalWait(requested));
    case Sleep(t, ticks) => SleepCarried(p, k, ticks);
    case Resume(_) => ResumeCarried(p, k);
    case _ => if a.Unlock? || a.Post? { WakeCarried(p, k, a); } else { RestCarried(p, k, a); }
  }

  lemma SleepCarried(p: P.State, k: State, ticks: nat)
    requires Acts(p, k) && Enabled(k, Sleep(p.current, ticks))
    ensures Carries(p, Do(k, Sleep(p.current, ticks)).sched)
  {
    hide Carries, CanReach, Sched.Ok;
    Stays(p);
    var t := p.current;
    if ticks == 0 { SendCarried(p, k, t, {TASK_TIMER}); }
    var mid := if ticks == 0 then Send(k, t, {TASK_TIMER}) else k;
    WaitCarried(p, k, mid, SignalWait({TASK_TIMER}));
  }
}
