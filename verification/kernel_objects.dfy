/** The kernel objects as the components keep them, in static arrays that the kernel calls update in place
    (components/signal, components/blocking-mutex, components/simple-semaphore, and the glue of components/kochab and
    components/phact).  Each operation is tied to the step function of the kernel machine that it carries out. */
module KernelObjects {
  import opened Ids
  import opened Sched
  import opened Kernel
  import opened Modular

  class Objects {
    const signals: array<BitSet>
    const holder: array<nat>
    const mutexWaiters: array<nat>
    const value: array<nat>
    const semWaiters: array<nat>
    const max: array<nat>
    const semRange: nat
    const maxEnabled: bool
    var sched: Sched
    var preemptPending: bool

    // The parts of the machine's state that no array holds.
    ghost var pc: seq<Pc>
    ghost var clock: nat
    ghost var posts: seq<nat>
    ghost var takes: seq<nat>

    ghost function View(): State
      reads this, signals, holder, mutexWaiters, value, semWaiters, max
    {
      State(sched, signals[..], pc, clock, holder[..], mutexWaiters[..], value[..], semWaiters[..], max[..],
            semRange, maxEnabled, posts, takes)
    }

    ghost predicate Valid()
      reads this, signals, holder, mutexWaiters, value, semWaiters, max
    {
      && holder != mutexWaiters && holder != value && holder != semWaiters && holder != max
      && mutexWaiters != value && mutexWaiters != semWaiters && mutexWaiters != max
      && value != semWaiters && value != max && semWaiters != max
      && Ok(View())
    }

    /** unblock: the pending preemption makes the scheduler run when preemption is enabled again. */
    method Unblock(task: nat)
      requires sched.Ok() && task < sched.TaskCount()
      modifies this`sched, this`preemptPending
      ensures sched == old(sched).SetRunnable(task) && preemptPending
    {
      sched := sched.SetRunnable(task);
      preemptPending := true;
    }

    /** signal_recv */
    method SignalRecv(task: nat, requested: BitSet) returns (received: BitSet)
      requires Valid() && task < signals.Length
      modifies signals
      ensures Valid()
      ensures received == old(signals[task]) * requested
      ensures View() == old(View()).(signals := old(signals[..])[task := old(signals[task]) - requested])
    {
      received := signals[task] * requested;
      signals[task] := signals[task] - received;
      assert signals[task] == old(signals[task]) - requested;
    }

    /** signal_send_set */
    method SignalSendSet(task: nat, sent: BitSet)
      requires sched.Ok() && task < sched.TaskCount() == signals.Length
      modifies signals, this`sched, this`preemptPending
      ensures sched == old(sched).SetRunnable(task) && preemptPending
      ensures signals[..] == old(signals[..])[task := old(signals[task]) + sent]
    {
      signals[task] := signals[task] + sent;
      Unblock(task);
    }

    /** mutex_try_lock: a free mutex is taken by the current task. */
    method MutexTryLock(current: nat, m: nat) returns (r: bool)
      requires Valid() && current < signals.Length && m < holder.Length && AttemptOk(View(), current, m)
      modifies holder, this`sched, this`pc
      ensures Valid()
      ensures r <==> old(holder[m]) == TASK_ID_NONE
      ensures View() == if r then Take(old(View()), current, m) else old(View())
      ensures holder[..] == if r then old(holder[..])[m := current] else old(holder[..])
    {
      r := holder[m] == TASK_ID_NONE;
      if r {
        holder[m] := current;
        sched := sched.Lock(m, current);
        pc := pc[current := Outside];
      }
    }

    /** One round of the loop, and its end. */
    static lemma WakeNext(w: Woken, id: nat, none: nat, t: nat)
      requires w.sched.Ok() && t <= w.sched.TaskCount() == |w.waiters| == |w.signals|
      ensures Wake(w, id, none, t) ==
              if t == |w.waiters| then w
              else if w.waiters[t] == id
              then Wake(Woken(w.waiters[t := none], w.signals[t := w.signals[t] + {TASK_TIMER}],
                              w.sched.SetRunnable(t)),
                        id, none, t + 1)
              else Wake(w, id, none, t + 1)
    {
    }

    /** The loop over the tasks that mutex_unlock and sem_post have in common: deregister and signal the tasks that
        wait for id. */
    method WakeWaiters(waiters: array<nat>, id: nat, none: nat)
      requires sched.Ok() && sched.TaskCount() == signals.Length == waiters.Length
      modifies waiters, signals, this`sched, this`preemptPending
      ensures Woken(waiters[..], signals[..], sched)
              == Wake(Woken(old(waiters[..]), old(signals[..]), old(sched)), id, none, 0)
      ensures preemptPending <==> old(preemptPending) || exists u | 0 <= u < waiters.Length :: old(waiters[u]) == id
      ensures forall u: nat | u < waiters.Length ::
                if old(waiters[u]) == id
                then waiters[u] == none && signals[u] == old(signals[u]) + {TASK_TIMER} && sched.Runnable(u)
                else waiters[u] == old(waiters[u]) && signals[u] == old(signals[u])
                     && (sched.Runnable(u) <==> old(sched).Runnable(u))
    {
      hide Sched.Ok, Sched.SetRunnable, Wake;
      ghost var start := Woken(waiters[..], signals[..], sched);
      var t := 0;
      while t < signals.Length
        invariant 0 <= t <= signals.Length
        invariant sched.Ok() && sched.TaskCount() == signals.Length
        invariant Wake(start, id, none, 0) == Wake(Woken(waiters[..], signals[..], sched), id, none, t)
        invariant forall u | t <= u < signals.Length :: waiters[u] == old(waiters[u])
        invariant preemptPending <==> old(preemptPending) || exists u | 0 <= u < t :: old(waiters[u]) == id
      {
        WakeNext(Woken(waiters[..], signals[..], sched), id, none, t);
        if waiters[t] == id {
          waiters[t] := none;
          SignalSendSet(t, {TASK_TIMER});
        }
        t := t + 1;
      }
      WakeNext(Woken(waiters[..], signals[..], sched), id, none, t);
    }

    /** mutex_unlock without its preempt_disable and preempt_enable; in Phact the unlock itself pends a preemption. */
    method MutexUnlock(m: nat)
      requires Valid() && m < holder.Length
      modifies holder, mutexWaiters, signals, this`sched, this`preemptPending
      ensures Valid() && View() == UnlockStep(old(View()), m)
      ensures holder[..] == old(holder[..])[m := TASK_ID_NONE]
      ensures forall u: nat | u < mutexWaiters.Length ::
                if old(mutexWaiters[u]) == m
                then mutexWaiters[u] == MUTEX_ID_NONE && signals[u] == old(signals[u]) + {TASK_TIMER}
                     && sched.Runnable(u)
                else mutexWaiters[u] == old(mutexWaiters[u]) && signals[u] == old(signals[u])
                     && (sched.Runnable(u) <==> old(sched).Runnable(u))
      ensures preemptPending <==>
              old(preemptPending) || sched.Phact?
              || exists u | 0 <= u < mutexWaiters.Length :: old(mutexWaiters[u]) == m
    {
      hide Sched.Ok, Wake;
      sched := sched.Unlock(m);
      if sched.Phact? {
        preemptPending := true;
      }
      WakeWaiters(mutexWaiters, m, MUTEX_ID_NONE);
      holder[m] := TASK_ID_NONE;
    }

    /** internal_sem_try_wait */
    method SemTryWait(k: nat) returns (r: bool)
      requires Valid() && k < value.Length
      modifies value, this`takes
      ensures Valid()
      ensures r <==> old(value[k]) != 0
      ensures View() == if r then SemTake(old(View()), k) else old(View())
      ensures value[..] == if r then old(value[..])[k := old(value[k]) - 1] else old(value[..])
    {
      r := value[k] != 0;
      if r {
        value[k] := value[k] - 1;
        takes := takes[k := takes[k] + 1];
      }
    }

    /** The part of sem_post that looks for waiters, when the value is zero. */
    method WakeForPost(k: nat)
      requires sched.Ok() && sched.TaskCount() == signals.Length == semWaiters.Length && k < value.Length
      requires value != semWaiters
      modifies semWaiters, signals, this`sched, this`preemptPending
      ensures var start := Woken(old(semWaiters[..]), old(signals[..]), old(sched));
              Woken(semWaiters[..], signals[..], sched)
              == if value[k] == 0 then Wake(start, k, SEM_ID_NONE, 0) else start
      ensures forall u: nat | u < semWaiters.Length ::
                if value[k] == 0 && old(semWaiters[u]) == k
                then semWaiters[u] == SEM_ID_NONE && signals[u] == old(signals[u]) + {TASK_TIMER} && sched.Runnable(u)
                else semWaiters[u] == old(semWaiters[u]) && signals[u] == old(signals[u])
                     && (sched.Runnable(u) <==> old(sched).Runnable(u))
    {
      hide Sched.Ok, Wake;
      if value[k] == 0 {
        WakeWaiters(semWaiters, k, SEM_ID_NONE);
      }
    }

    /** sem_post without its preempt_disable and preempt_enable; the requirement is what it asserts when maxima are
        configured. */
    method SemPost(k: nat)
      requires Valid() && k < value.Length && (maxEnabled ==> max[k] != 0 && value[k] < max[k])
      modifies value, semWaiters, signals, this`sched, this`preemptPending, this`posts
      ensures Valid() && View() == PostStep(old(View()), k)
      ensures value[..] == old(value[..])[k := (old(value[k]) + 1) % semRange]
      ensures forall u: nat | u < semWaiters.Length ::
                if old(value[k]) == 0 && old(semWaiters[u]) == k
                then semWaiters[u] == SEM_ID_NONE && signals[u] == old(signals[u]) + {TASK_TIMER} && sched.Runnable(u)
                else semWaiters[u] == old(semWaiters[u]) && signals[u] == old(signals[u])
                     && (sched.Runnable(u) <==> old(sched).Runnable(u))
    {
      hide Sched.Ok, Wake;
      WakeForPost(k);
      value[k] := Wrap(value[k] + 1, semRange);
      posts := posts[k := posts[k] + 1];
    }
  }
}
