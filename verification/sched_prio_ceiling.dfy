/** The strict-priority scheduler with immediate priority ceilings (components/sched-prio-ceiling).

    Tasks and mutexes share one queue sorted by descending priority.  The word of a task is its own index while the
    task is runnable and SCHED_INDEX_NONE while it is blocked; the word of a mutex is the index of the task that
    holds it, or SCHED_INDEX_NONE. */
module SchedPrioCeiling {
  import opened Ids

  /** The constant tables generated at configuration time; none is SCHED_INDEX_NONE, the largest value of the
      index type. */
  datatype Tables = Tables(taskToIndex: seq<nat>, mutexToIndex: seq<nat>, indexToMutexTask: seq<nat>, none: nat)

  predicate IsTask(tb: Tables, i: nat) {
    exists t: nat :: t < |tb.taskToIndex| && tb.taskToIndex[t] == i
  }

  predicate IsMutex(tb: Tables, i: nat) {
    exists m: nat :: m < |tb.mutexToIndex| && tb.mutexToIndex[m] == i
  }

  /** The index tables and their inverse agree, no index is used twice or left out, and SCHED_INDEX_NONE is no index. */
  ghost predicate TablesOk(tb: Tables) {
    && 0 < |tb.taskToIndex| <= TASK_ID_NONE
    && |tb.mutexToIndex| <= MUTEX_ID_NONE
    && 0 < |tb.indexToMutexTask| <= tb.none
    && (forall t: nat | t < |tb.taskToIndex| ::
          tb.taskToIndex[t] < |tb.indexToMutexTask| && tb.indexToMutexTask[tb.taskToIndex[t]] == t)
    && (forall m: nat | m < |tb.mutexToIndex| ::
          tb.mutexToIndex[m] < |tb.indexToMutexTask| && tb.indexToMutexTask[tb.mutexToIndex[m]] == m)
    && (forall t: nat, m: nat | t < |tb.taskToIndex| && m < |tb.mutexToIndex| ::
          tb.taskToIndex[t] != tb.mutexToIndex[m])
    && (forall i: nat | i < |tb.indexToMutexTask| :: IsTask(tb, i) || IsMutex(tb, i))
  }

  /** The words of the queue: a task's is its own index or NONE; a mutex is free or held by a task that comes after
      it. */
  ghost predicate QueueOk(tb: Tables, e: seq<nat>) {
    && |e| == |tb.indexToMutexTask|
    && (forall t: nat | t < |tb.taskToIndex| :: tb.taskToIndex[t] < |e|
          && (e[tb.taskToIndex[t]] == tb.taskToIndex[t] || e[tb.taskToIndex[t]] == tb.none))
    && (forall m: nat | m < |tb.mutexToIndex| :: tb.mutexToIndex[m] < |e|
          && (e[tb.mutexToIndex[m]] == tb.none
              || (tb.mutexToIndex[m] < e[tb.mutexToIndex[m]] && IsTask(tb, e[tb.mutexToIndex[m]]))))
  }

  predicate Runnable(tb: Tables, e: seq<nat>, t: nat) {
    t < |tb.taskToIndex| && tb.taskToIndex[t] < |e| && e[tb.taskToIndex[t]] == tb.taskToIndex[t]
  }

  ghost predicate SomeRunnable(tb: Tables, e: seq<nat>) {
    exists t: nat :: Runnable(tb, e, t)
  }

  /** The entry at i stands for a runnable task: that task itself, or a mutex it holds. */
  predicate Counts(e: seq<nat>, i: nat)
    requires i < |e|
  {
    e[i] < |e| && e[e[i]] == e[i]
  }

  /** The queue index at which the scan from i ends: the task behind the first entry that counts, or the last index. */
  function Scan(e: seq<nat>, i: nat): (r: nat)
    requires i < |e|
    ensures r < |e|
    decreases |e| - i
  {
    if Counts(e, i) then e[i]
    else if i + 1 < |e| then Scan(e, i + 1)
    else i
  }

  function NextTask(tb: Tables, e: seq<nat>): nat
    requires 0 < |e| == |tb.indexToMutexTask|
  {
    tb.indexToMutexTask[Scan(e, 0)]
  }

  class Scheduler {
    const tables: Tables
    const entries: array<nat>  // the locked_by words

    ghost predicate Valid()
      reads this, entries
    {
      TablesOk(tables) && QueueOk(tables, entries[..])
    }

    /** All tasks blocked and all mutexes free, the state before start(). */
    constructor (tables: Tables)
      requires TablesOk(tables)
      ensures Valid() && fresh(entries) && this.tables == tables
      ensures forall i | 0 <= i < entries.Length :: entries[i] == tables.none
    {
      this.tables := tables;
      entries := new nat[|tables.indexToMutexTask|](_ => tables.none);
    }

    method SetRunnable(task: nat)
      requires Valid() && task < |tables.taskToIndex|
      modifies entries
      ensures Valid()
      ensures entries[..] == old(entries[..])[tables.taskToIndex[task] := tables.taskToIndex[task]]
    {
      entries[tables.taskToIndex[task]] := tables.taskToIndex[task];
    }

    method SetBlocked(task: nat)
      requires Valid() && task < |tables.taskToIndex|
      modifies entries
      ensures Valid()
      ensures entries[..] == old(entries[..])[tables.taskToIndex[task] := tables.none]
    {
      entries[tables.taskToIndex[task]] := tables.none;
    }

    /** The two requirements on the queue are the component's internal assertions. */
    method SetMutexLockedBy(mutex: nat, task: nat)
      requires Valid() && mutex < |tables.mutexToIndex| && task < |tables.taskToIndex|
      requires entries[tables.mutexToIndex[mutex]] == tables.none
      requires tables.mutexToIndex[mutex] < tables.taskToIndex[task]
      modifies entries
      ensures Valid()
      ensures entries[..] == old(entries[..])[tables.mutexToIndex[mutex] := tables.taskToIndex[task]]
    {
      entries[tables.mutexToIndex[mutex]] := tables.taskToIndex[task];
    }

    method SetMutexUnlocked(mutex: nat)
      requires Valid() && mutex < |tables.mutexToIndex|
      modifies entries
      ensures Valid()
      ensures entries[..] == old(entries[..])[tables.mutexToIndex[mutex] := tables.none]
    {
      entries[tables.mutexToIndex[mutex]] := tables.none;
    }

    method GetNext() returns (task: nat)
      requires Valid()
      ensures task == NextTask(tables, entries[..])
    {
      var schedIdx := 0;
      var idx := 0;
      while idx <= entries.Length - 1
        invariant 0 <= idx <= entries.Length
        invariant idx < entries.Length ==> Scan(entries[..], 0) == Scan(entries[..], idx)
        invariant 0 < idx ==> schedIdx == idx - 1
        invariant idx == entries.Length ==> Scan(entries[..], 0) == schedIdx
      {
        schedIdx := idx;
        var nextIdx := entries[schedIdx];
        EntryInRange(tables, entries[..], idx);
        if nextIdx == tables.none {
          // an unlocked mutex or a blocked task: keep looking
        } else if nextIdx == schedIdx {
          break;
        } else if entries[nextIdx] == nextIdx {
          schedIdx := nextIdx;
          break;
        }
        idx := idx + 1;
      }
      task := tables.indexToMutexTask[schedIdx];
    }
  }

  // ----- What the answer means -------------------------------------------------------------------------------

  /** Index i gives its priority to task t: it is t's own index or that of a mutex t holds. */
  predicate Backs(tb: Tables, e: seq<nat>, i: nat, t: nat)
    requires i < |e| && t < |tb.taskToIndex|
  {
    i == tb.taskToIndex[t] || e[i] == tb.taskToIndex[t]
  }

  /** i is the effective index of t: the least of its own and those of the mutexes it holds. */
  ghost predicate Effective(tb: Tables, e: seq<nat>, i: nat, t: nat)
    requires |e| == |tb.indexToMutexTask| && t < |tb.taskToIndex|
  {
    && i < |e| && Backs(tb, e, i, t)
    && forall j: nat | j < i :: !Backs(tb, e, j, t)
  }

  lemma {:induction false} ScanFinds(tb: Tables, e: seq<nat>, i: nat, f: nat)
    requires i < |e| && i <= f < |e| && Counts(e, f) && forall j: nat | i <= j < f :: !Counts(e, j)
    ensures Scan(e, i) == e[f]
    decreases f - i
  {
    if i < f { ScanFinds(tb, e, i + 1, f); }
  }

  lemma {:induction false} FirstCounting(e: seq<nat>, i: nat, l: nat) returns (f: nat)
    requires i <= l < |e| && Counts(e, l)
    ensures i <= f <= l && Counts(e, f) && forall j: nat | i <= j < f :: !Counts(e, j)
    decreases l - i
  {
    if Counts(e, i) { f := i; } else { f := FirstCounting(e, i + 1, l); }
  }

  lemma EntryInRange(tb: Tables, e: seq<nat>, i: nat)
    requires TablesOk(tb) && QueueOk(tb, e) && i < |e|
    ensures e[i] == tb.none || e[i] < |e|
  {
    assert IsTask(tb, i) || IsMutex(tb, i);
  }

  /** Entries that count belong to runnable tasks. */
  lemma CountingOwner(tb: Tables, e: seq<nat>, i: nat) returns (t: nat)
    requires TablesOk(tb) && QueueOk(tb, e) && i < |e| && Counts(e, i)
    ensures Runnable(tb, e, t) && e[i] == tb.taskToIndex[t] && Backs(tb, e, i, t)
  {
    if IsTask(tb, i) {
      t :| t < |tb.taskToIndex| && tb.taskToIndex[t] == i;
    } else {
      var m: nat :| m < |tb.mutexToIndex| && tb.mutexToIndex[m] == i;
      t :| t < |tb.taskToIndex| && tb.taskToIndex[t] == e[i];
    }
  }

  lemma BackingCounts(tb: Tables, e: seq<nat>, i: nat, t: nat)
    requires i < |e| && t < |tb.taskToIndex|
    ensures Runnable(tb, e, t) && Backs(tb, e, i, t) ==> Counts(e, i)
  {
  }

  /** Whenever some task is runnable, the scheduler picks the runnable task of least effective index, and that task
      is unique; the pick is a runnable task exactly when there is one, since with none the scan falls through to
      the last entry of the queue. */
  lemma {:induction false} GetNextMeaning(tb: Tables, e: seq<nat>, t: nat)
    requires TablesOk(tb) && QueueOk(tb, e)
    ensures Runnable(tb, e, NextTask(tb, e)) <==> SomeRunnable(tb, e)
    ensures SomeRunnable(tb, e) ==>
              (NextTask(tb, e) == t <==>
               Runnable(tb, e, t) && exists i: nat :: Effective(tb, e, i, t) && Leads(tb, e, i, t))
    ensures !SomeRunnable(tb, e) ==> NextTask(tb, e) == tb.indexToMutexTask[|e| - 1]
  {
    if SomeRunnable(tb, e) {
      var w: nat :| Runnable(tb, e, w);
      var f := FirstCounting(e, 0, tb.taskToIndex[w]);
      ScanFinds(tb, e, 0, f);
      var c := CountingOwner(tb, e, f);
      forall j: nat, u: nat | j < f && Runnable(tb, e, u) ensures !Backs(tb, e, j, u) {
        BackingCounts(tb, e, j, u);
      }
      assert Effective(tb, e, f, c) && Leads(tb, e, f, c);
      if Runnable(tb, e, t) {
        forall i: nat | Effective(tb, e, i, t) && Leads(tb, e, i, t) ensures t == c {
          assert f <= i;
        }
      }
    } else {
      NothingCounts(tb, e, 0);
    }
  }

  /** No other runnable task is backed by an index at or before i. */
  ghost predicate Leads(tb: Tables, e: seq<nat>, i: nat, t: nat)
    requires |e| == |tb.indexToMutexTask|
  {
    forall j: nat, u: nat | j <= i && j < |e| && Runnable(tb, e, u) && Backs(tb, e, j, u) :: u == t
  }

  lemma {:induction false} NothingCounts(tb: Tables, e: seq<nat>, i: nat)
    requires TablesOk(tb) && QueueOk(tb, e) && i < |e| && !SomeRunnable(tb, e)
    ensures Scan(e, i) == |e| - 1
    decreases |e| - i
  {
    if Counts(e, i) {
      var t := CountingOwner(tb, e, i);
    } else if i + 1 < |e| {
      NothingCounts(tb, e, i + 1);
    }
  }

  /** Locking a free mutex keeps the scheduled task scheduled: it only raises that task's own effective priority. */
  lemma {:induction false} LockKeepsNext(tb: Tables, e: seq<nat>, m: nat, t: nat)
    requires TablesOk(tb) && QueueOk(tb, e) && Runnable(tb, e, t) && NextTask(tb, e) == t
    requires m < |tb.mutexToIndex| && e[tb.mutexToIndex[m]] == tb.none && tb.mutexToIndex[m] < tb.taskToIndex[t]
    ensures NextTask(tb, e[tb.mutexToIndex[m] := tb.taskToIndex[t]]) == t
  {
    var mi, ti := tb.mutexToIndex[m], tb.taskToIndex[t];
    var e' := e[mi := ti];
    var f := FirstCounting(e, 0, ti);
    ScanFinds(tb, e, 0, f);
    var c := CountingOwner(tb, e, f);
    assert c == t;
    var f' := if f < mi then f else mi;
    assert forall j: nat | j < f' :: Counts(e', j) == Counts(e, j);
    ScanFinds(tb, e', 0, f');
  }
}
