/** The scheduler state of the two preemptive variants and what the rest of the kernel does to it: Kochab runs on
    the inheritance scheduler (components/kochab), Phact on the ceiling scheduler (components/phact). */
module Sched {
  import opened Ids
  import Inherit = SchedPrioInherit
  import Ceiling = SchedPrioCeiling

  datatype Sched =
    | Kochab(blockedOn: seq<nat>)
    | Phact(tables: Ceiling.Tables, lockedBy: seq<nat>)
  {
    ghost predicate Ok() {
      match this
      case Kochab(b) => Inherit.IsBlockGraph(b)
      case Phact(tb, e) => Ceiling.TablesOk(tb) && Ceiling.QueueOk(tb, e)
    }

    function TaskCount(): nat {
      match this
      case Kochab(b) => |b|
      case Phact(tb, e) => |tb.taskToIndex|
    }

    predicate Runnable(t: nat) {
      match this
      case Kochab(b) => t < |b| && b[t] == t
      case Phact(tb, e) => Ceiling.Runnable(tb, e, t)
    }

    /** Kochab's word of task t; Phact does not record what a task is blocked on. */
    function BlockerOf(t: nat): nat {
      if Kochab? && t < |blockedOn| then blockedOn[t] else TASK_ID_NONE
    }

    /** sched_get_next; CycleFound stands for a walk that does not end. */
    function Next(): Inherit.Choice
      requires Ok()
    {
      match this
      case Kochab(b) => Inherit.ReferenceGetNext(b)
      case Phact(tb, e) => Inherit.Chosen(Ceiling.NextTask(tb, e))
    }

    /** Phact's word of mutex m: free, or held by the task with the given index. */
    function MutexWord(m: nat): nat
      requires Ok() && Phact? && m < |tables.mutexToIndex|
    {
      lockedBy[tables.mutexToIndex[m]]
    }

    /** Same variant and tables, and the same words of the mutexes. */
    ghost predicate SameMutexWords(s: Sched)
      requires Ok() && s.Ok()
    {
      && s.Kochab? == Kochab? && s.TaskCount() == TaskCount()
      && (Phact? ==> s.tables == tables
                     && forall m: nat | m < |tables.mutexToIndex| :: s.MutexWord(m) == MutexWord(m))
    }

    /** sched_set_runnable */
    function SetRunnable(t: nat): (s: Sched)
      requires Ok() && t < TaskCount()
      ensures s.Ok() && SameMutexWords(s)
      ensures forall u: nat :: s.Runnable(u) <==> u == t || Runnable(u)
      ensures forall u: nat | u != t :: s.BlockerOf(u) == BlockerOf(u)
    {
      match this
      case Kochab(b) => Kochab(b[t := t])
      case Phact(tb, e) => Phact(tb, e[tb.taskToIndex[t] := tb.taskToIndex[t]])
    }

    /** block_on in Kochab, block in Phact, which ignores the blocker. */
    function Block(t: nat, blocker: nat): (s: Sched)
      requires Ok() && t < TaskCount() && (blocker < TaskCount() || blocker == TASK_ID_NONE)
      ensures s.Ok() && SameMutexWords(s)
      ensures forall u: nat | u != t :: s.Runnable(u) <==> Runnable(u)
      ensures Phact? || blocker != t ==> !s.Runnable(t)
      ensures forall u: nat :: s.BlockerOf(u) == if u == t && Kochab? then blocker else BlockerOf(u)
    {
      match this
      case Kochab(b) => Kochab(b[t := blocker])
      case Phact(tb, e) => Phact(tb, e[tb.taskToIndex[t] := tb.none])
    }

    /** The internal assertions of sched_set_mutex_locked_by; Kochab's scheduler knows nothing of mutexes. */
    predicate CanLock(m: nat, t: nat)
      requires t < TaskCount()
    {
      match this
      case Kochab(_) => true
      case Phact(tb, e) =>
        && m < |tb.mutexToIndex| && tb.mutexToIndex[m] < |e|
        && e[tb.mutexToIndex[m]] == tb.none
        && tb.mutexToIndex[m] < tb.taskToIndex[t]
    }

    /** mutex_core_locked_by */
    function Lock(m: nat, t: nat): (s: Sched)
      requires Ok() && t < TaskCount() && CanLock(m, t)
      ensures s.Ok() && s.TaskCount() == TaskCount()
      ensures s.Kochab? == Kochab? && (Phact? ==> s.tables == tables)
      ensures forall u: nat :: (s.Runnable(u) <==> Runnable(u)) && s.BlockerOf(u) == BlockerOf(u)
      ensures Phact? ==> forall k: nat | k < |tables.mutexToIndex| ::
                           s.MutexWord(k) == if k == m then tables.taskToIndex[t] else MutexWord(k)
    {
      match this
      case Kochab(b) => this
      case Phact(tb, e) => Phact(tb, e[tb.mutexToIndex[m] := tb.taskToIndex[t]])
    }

    /** mutex_core_unlocked */
    function Unlock(m: nat): (s: Sched)
      requires Ok() && (Phact? ==> m < |tables.mutexToIndex|)
      ensures s.Ok() && s.TaskCount() == TaskCount()
      ensures s.Kochab? == Kochab? && (Phact? ==> s.tables == tables)
      ensures forall u: nat :: (s.Runnable(u) <==> Runnable(u)) && s.BlockerOf(u) == BlockerOf(u)
      ensures Phact? ==> forall k: nat | k < |tables.mutexToIndex| ::
                           s.MutexWord(k) == if k == m then tables.none else MutexWord(k)
    {
      match this
      case Kochab(b) => this
      case Phact(tb, e) => Phact(tb, e[tb.mutexToIndex[m] := tb.none])
    }

    /** A lock never unseats the scheduled task, so it needs no pending preemption. */
    lemma LockKeepsNext(m: nat, t: nat)
      requires Ok() && t < TaskCount() && CanLock(m, t) && Runnable(t) && Next() == Inherit.Chosen(t)
      ensures Lock(m, t).Next() == Inherit.Chosen(t)
    {
      if Phact? {
        Ceiling.LockKeepsNext(tables, lockedBy, m, t);
      }
    }

    /** After start(): every task runnable, every mutex free, and task 0 the task of highest priority. */
    ghost predicate AtStart() {
      && Ok()
      && (forall t: nat | t < TaskCount() :: Runnable(t))
      && (Phact? ==>
            (forall t: nat | t < TaskCount() :: tables.taskToIndex[0] <= tables.taskToIndex[t])
            && forall m: nat | m < |tables.mutexToIndex| :: lockedBy[tables.mutexToIndex[m]] == tables.none)
    }

    /** start() switches to task 0, which is the task the scheduler picks. */
    lemma StartPicksTaskZero()
      requires AtStart()
      ensures Next() == Inherit.Chosen(0)
    {
      if Kochab? {
        assert blockedOn[0] == 0 by { assert Runnable(0); }
        assert Inherit.ResolveBlockChain(blockedOn, 0, {}) == Inherit.EndsIn(0);
      } else {
        assert Runnable(0);
        var i := tables.taskToIndex[0];
        forall j: nat | j < i ensures !Ceiling.Counts(lockedBy, j) {
          assert Ceiling.IsTask(tables, j) || Ceiling.IsMutex(tables, j);
        }
        Ceiling.ScanFinds(tables, lockedBy, 0, i);
      }
    }
  }
}
