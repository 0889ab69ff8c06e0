/** The queue of the ceiling scheduler at configuration time (configure in components/phact.py). */
module CeilingConfig {
  import opened Ids
  import Ceiling = SchedPrioCeiling
  import Timers

  /** The configuration entry of a task or a mutex. */
  class Item {
    const isTask: bool
    const priority: int
    var idx: nat
    var schedIdx: nat
    var timer: nat   // of a task: the place of its own timer

    constructor (isTask: bool, priority: int)
      ensures this.isTask == isTask && this.priority == priority
    {
      this.isTask, this.priority := isTask, priority;
      idx, schedIdx, timer := 0, 0, 0;
    }
  }

  // ----- Stable sorting by descending priority -----------------------------------------------------------------

  function Insert(x: Item, s: seq<Item>): (r: seq<Item>)
    ensures multiset(r) == multiset{x} + multiset(s) && |r| == |s| + 1
  {
    if s == [] || s[0].priority <= x.priority then [x] + s
    else assert s == [s[0]] + s[1..]; [s[0]] + Insert(x, s[1..])
  }

  /** list.sort(key=priority, reverse=True), which keeps the order of entries of equal priority. */
  function Sort(s: seq<Item>): (r: seq<Item>)
    ensures multiset(r) == multiset(s) && |r| == |s|
  {
    if s == [] then [] else assert s == [s[0]] + s[1..]; Insert(s[0], Sort(s[1..]))
  }

  ghost predicate Descending(s: seq<Item>) {
    forall i, j | 0 <= i < j < |s| :: s[i].priority >= s[j].priority
  }

  ghost predicate Precedes(s: seq<Item>, x: Item, y: Item) {
    exists i, j :: 0 <= i < j < |s| && s[i] == x && s[j] == y
  }

  ghost predicate Distinct(s: seq<Item>) {
    forall i, j | 0 <= i < j < |s| :: s[i] != s[j]
  }

  lemma {:induction false} InsertKeepsDescending(x: Item, s: seq<Item>)
    requires Descending(s)
    ensures Descending(Insert(x, s))
  {
    if s != [] && s[0].priority > x.priority {
      InsertKeepsDescending(x, s[1..]);
      var rest := Insert(x, s[1..]);
      forall k | 0 <= k < |rest| ensures rest[k].priority <= s[0].priority {
        assert rest[k] in multiset(rest);
        if rest[k] != x { assert rest[k] in s[1..]; }
      }
    }
  }

  lemma {:induction false} SortIsDescending(s: seq<Item>)
    ensures Descending(Sort(s))
  {
    if s != [] {
      SortIsDescending(s[1..]);
      InsertKeepsDescending(s[0], Sort(s[1..]));
    }
  }

  lemma PrecedesInTail(first: Item, s: seq<Item>, y: Item, z: Item)
    requires Precedes(s, y, z)
    ensures Precedes([first] + s, y, z)
  {
    var i, j :| 0 <= i < j < |s| && s[i] == y && s[j] == z;
    assert ([first] + s)[i + 1] == y && ([first] + s)[j + 1] == z;
  }

  lemma PrecedesAsFirst(s: seq<Item>, z: Item)
    requires |s| > 0 && z in s[1..]
    ensures Precedes(s, s[0], z)
  {
    var j :| 0 <= j < |s[1..]| && s[1..][j] == z;
    assert s[j + 1] == z;
  }

  lemma {:induction false} InsertKeepsOrder(x: Item, s: seq<Item>, y: Item, z: Item)
    requires Precedes(s, y, z)
    ensures Precedes(Insert(x, s), y, z)
  {
    if s[0].priority <= x.priority {
      PrecedesInTail(x, s, y, z);
    } else {
      var i, j :| 0 <= i < j < |s| && s[i] == y && s[j] == z;
      var rest := Insert(x, s[1..]);
      if i == 0 {
        assert s[1..][j - 1] == z;
        assert z in multiset(rest);
        PrecedesAsFirst([s[0]] + rest, z);
      } else {
        assert s[1..][i - 1] == y && s[1..][j - 1] == z;
        InsertKeepsOrder(x, s[1..], y, z);
        PrecedesInTail(s[0], rest, y, z);
      }
    }
  }

  lemma {:induction false} InsertGoesBefore(x: Item, s: seq<Item>, y: Item)
    requires Descending(s) && y in s && y.priority <= x.priority
    ensures Precedes(Insert(x, s), x, y)
  {
    if s[0].priority <= x.priority {
      PrecedesAsFirst([x] + s, y);
    } else {
      InsertGoesBefore(x, s[1..], y);
      PrecedesInTail(s[0], Insert(x, s[1..]), x, y);
    }
  }

  /** An entry of higher priority comes first, and of two of equal priority the one that came first before. */
  lemma {:induction false} SortIsStable(s: seq<Item>, i: nat, j: nat)
    requires i < j < |s| && s[i].priority >= s[j].priority
    ensures Precedes(Sort(s), s[i], s[j])
  {
    SortIsDescending(s[1..]);
    hide Insert, Descending;
    if i == 0 {
      assert s[1..][j - 1] == s[j] && s[j] in multiset(Sort(s[1..]));
      InsertGoesBefore(s[0], Sort(s[1..]), s[j]);
    } else {
      SortIsStable(s[1..], i - 1, j - 1);
      InsertKeepsOrder(s[0], Sort(s[1..]), s[i], s[j]);
    }
  }

  lemma SameItems(a: seq<Item>, b: seq<Item>)
    requires multiset(a) == multiset(b)
    ensures forall x :: x in a <==> x in b
    ensures Distinct(a) ==> Distinct(b)
  {
    forall x ensures x in a <==> x in b { assert x in multiset(a) <==> x in multiset(b); }
    DistinctCount(a);
    DistinctCount(b);
  }

  lemma {:induction false} DistinctCount(s: seq<Item>)
    ensures Distinct(s) <==> forall x :: multiset(s)[x] <= 1
  {
    if s != [] {
      var rest := s[1..];
      assert s == [s[0]] + rest;
      DistinctCount(rest);
      if Distinct(s) {
        assert s[0] !in rest;
        assert forall x :: multiset(s)[x] <= 1;
      } else if forall x :: multiset(s)[x] <= 1 {
        assert multiset(s)[s[0]] <= 1;
        assert s[0] !in multiset(rest);
        forall x ensures multiset(rest)[x] <= 1 { assert multiset(s)[x] <= 1; }
        assert false;
      }
    }
  }

  // ----- The tables --------------------------------------------------------------------------------------------

  /** schedindex_size, in bits. */
  function IndexWidth(entries: nat): nat {
    if entries >= 65536 then 32 else if entries >= 256 then 16 else 8
  }

  /** SCHED_INDEX_NONE: the largest value of the index type. */
  function IndexNone(entries: nat): (none: nat)
    ensures entries < UINT32_RANGE ==> entries <= none
    ensures none == UINT8_RANGE - 1 <==> entries < UINT8_RANGE
    ensures none == UINT16_RANGE - 1 <==> UINT8_RANGE <= entries < UINT16_RANGE
    ensures none == UINT32_RANGE - 1 <==> UINT16_RANGE <= entries
  {
    match IndexWidth(entries)
    case 8 => UINT8_RANGE - 1
    case 16 => UINT16_RANGE - 1
    case _ => UINT32_RANGE - 1
  }

  /** The entries are distinct, tasks and mutexes apart. */
  ghost predicate Kinds(tasks: seq<Item>, mutexes: seq<Item>) {
    && Distinct(tasks + mutexes)
    && (forall x | x in tasks :: x.isTask) && (forall x | x in mutexes :: !x.isTask)
  }

  /** What configure leaves behind: the queue is the sorted list of all entries and every entry knows its places. */
  ghost predicate Placed(tasks: seq<Item>, mutexes: seq<Item>, queue: seq<Item>)
    reads tasks, mutexes, queue
  {
    && Kinds(tasks, mutexes) && queue == Sort(tasks + mutexes)
    && (forall t | 0 <= t < |tasks| :: tasks[t].idx == t)
    && (forall m | 0 <= m < |mutexes| :: mutexes[m].idx == m)
    && forall i | 0 <= i < |queue| :: queue[i].schedIdx == i
  }

  /** task_to_index, mutex_to_index and index_to_mutex_task as rendered from the configuration. */
  ghost predicate Rendered(tb: Ceiling.Tables, tasks: seq<Item>, mutexes: seq<Item>, queue: seq<Item>)
    reads tasks, mutexes, queue
  {
    && |tb.taskToIndex| == |tasks| && (forall t | 0 <= t < |tasks| :: tb.taskToIndex[t] == tasks[t].schedIdx)
    && |tb.mutexToIndex| == |mutexes| && (forall m | 0 <= m < |mutexes| :: tb.mutexToIndex[m] == mutexes[m].schedIdx)
    && |tb.indexToMutexTask| == |queue| && (forall i | 0 <= i < |queue| :: tb.indexToMutexTask[i] == queue[i].idx)
    && tb.none == IndexNone(|queue|)
  }

  /** Every entry is in the queue at its schedIdx. */
  lemma InQueue(tasks: seq<Item>, mutexes: seq<Item>, queue: seq<Item>)
    requires Placed(tasks, mutexes, queue)
    ensures forall t: nat | t < |tasks| :: tasks[t].schedIdx < |queue| && queue[tasks[t].schedIdx] == tasks[t]
    ensures forall m: nat | m < |mutexes| :: mutexes[m].schedIdx < |queue| && queue[mutexes[m].schedIdx] == mutexes[m]
    ensures forall i: nat | i < |queue| :: queue[i] in tasks || queue[i] in mutexes
  {
    SameItems(tasks + mutexes, queue);
    forall t: nat | t < |tasks| ensures tasks[t] in queue { assert tasks[t] in tasks + mutexes; }
    forall m: nat | m < |mutexes| ensures mutexes[m] in queue { assert mutexes[m] in tasks + mutexes; }
    forall i: nat | i < |queue| ensures queue[i] in tasks || queue[i] in mutexes { assert queue[i] in tasks + mutexes; }
  }

  /** An entry that comes before another in the lists and has no lower priority comes before it in the queue. */
  lemma QueueOrder(tasks: seq<Item>, mutexes: seq<Item>, queue: seq<Item>, i: nat, j: nat)
    requires Placed(tasks, mutexes, queue) && i < j < |tasks + mutexes|
    requires (tasks + mutexes)[i].priority >= (tasks + mutexes)[j].priority
    ensures (tasks + mutexes)[i].schedIdx < (tasks + mutexes)[j].schedIdx
  {
    SortIsStable(tasks + mutexes, i, j);
  }

  lemma TablesAreOk(tb: Ceiling.Tables, tasks: seq<Item>, mutexes: seq<Item>, queue: seq<Item>)
    requires Placed(tasks, mutexes, queue) && Rendered(tb, tasks, mutexes, queue)
    requires 0 < |tasks| <= TASK_ID_NONE && |mutexes| <= MUTEX_ID_NONE
    ensures Ceiling.TablesOk(tb)
  {
    InQueue(tasks, mutexes, queue);
    hide Sort, Distinct;
    forall i: nat | i < |queue| ensures Ceiling.IsTask(tb, i) || Ceiling.IsMutex(tb, i) {
      if queue[i] in tasks {
        var t: nat :| t < |tasks| && tasks[t] == queue[i];
        assert tb.taskToIndex[t] == i;
      } else {
        var m: nat :| m < |mutexes| && mutexes[m] == queue[i];
        assert tb.mutexToIndex[m] == i;
      }
    }
    forall t: nat, m: nat | t < |tasks| && m < |mutexes| ensures tasks[t].schedIdx != mutexes[m].schedIdx {
      assert tasks[t].isTask && !mutexes[m].isTask;
    }
  }

  /** In the queue a task stands before another task of lower priority, and before a mutex exactly if its priority is
      not below the mutex's: a mutex with the priority of a task stands after it. */
  lemma IndicesFollowPriorities(tb: Ceiling.Tables, tasks: seq<Item>, mutexes: seq<Item>, queue: seq<Item>,
                                t: nat, u: nat, m: nat)
    requires Placed(tasks, mutexes, queue) && Rendered(tb, tasks, mutexes, queue)
    requires t < |tasks| && u < |tasks| && m < |mutexes|
    ensures tasks[t].priority > tasks[u].priority ==> tb.taskToIndex[t] < tb.taskToIndex[u]
    ensures tb.taskToIndex[t] < tb.mutexToIndex[m] <==> tasks[t].priority >= mutexes[m].priority
  {
    var all := tasks + mutexes;
    assert all[t] == tasks[t] && all[u] == tasks[u] && all[|tasks| + m] == mutexes[m];
    InQueue(tasks, mutexes, queue);
    SortIsDescending(all);
    if tasks[t].priority >= mutexes[m].priority { QueueOrder(tasks, mutexes, queue, t, |tasks| + m); }
  }

  /** Over the tables of a configuration the scheduler picks a runnable task whose effective priority, from its own
      and the mutexes it holds, no priority behind any other runnable task exceeds. */
  lemma HighestPriorityRuns(tb: Ceiling.Tables, tasks: seq<Item>, mutexes: seq<Item>, queue: seq<Item>,
                            e: seq<nat>, c: nat)
    requires Placed(tasks, mutexes, queue) && Rendered(tb, tasks, mutexes, queue)
    requires Ceiling.TablesOk(tb) && Ceiling.QueueOk(tb, e)
    requires Ceiling.Runnable(tb, e, c) && Ceiling.NextTask(tb, e) == c
    ensures exists i: nat :: i < |e| && Ceiling.Backs(tb, e, i, c)
              && forall j: nat, u: nat
                   | j < |e| && Ceiling.Runnable(tb, e, u) && Ceiling.Backs(tb, e, j, u) && u != c ::
                   queue[j].priority <= queue[i].priority
  {
    SortIsDescending(tasks + mutexes);
    hide Sort;
    Ceiling.GetNextMeaning(tb, e, c);
    var i: nat :| Ceiling.Effective(tb, e, i, c) && Ceiling.Leads(tb, e, i, c);
    forall j: nat, u: nat | j < |e| && Ceiling.Runnable(tb, e, u) && Ceiling.Backs(tb, e, j, u) && u != c
      ensures queue[j].priority <= queue[i].priority
    {
      assert j > i;
    }
  }

  /** Sorting the two lists first keeps the entries and their kinds. */
  lemma SortedKinds(tasks: seq<Item>, mutexes: seq<Item>)
    requires Kinds(tasks, mutexes)
    ensures Kinds(Sort(tasks), Sort(mutexes))
    ensures Distinct(Sort(Sort(tasks) + Sort(mutexes))) && Distinct(Sort(tasks)) && Distinct(Sort(mutexes))
    ensures forall k | 0 <= k < |tasks| :: Sort(tasks)[k] in tasks && Sort(tasks)[k] !in Sort(mutexes)
    ensures forall k | 0 <= k < |mutexes| :: Sort(mutexes)[k] in mutexes
    ensures var queue := Sort(Sort(tasks) + Sort(mutexes));
            forall k | 0 <= k < |queue| :: queue[k] in tasks || queue[k] in mutexes
  {
    var sorted := Sort(tasks) + Sort(mutexes);
    hide Distinct, Sort;
    assert multiset(sorted) == multiset(tasks + mutexes);
    SameItems(tasks + mutexes, sorted);
    SameItems(sorted, Sort(sorted));
    PartsDistinct(Sort(tasks), Sort(mutexes));
    forall x | x in Sort(tasks) ensures x in tasks && x.isTask { assert x in multiset(Sort(tasks)); }
    forall x | x in Sort(mutexes) ensures x in mutexes && !x.isTask { assert x in multiset(Sort(mutexes)); }
    forall x | x in Sort(sorted) ensures x in tasks || x in mutexes {
      assert x in multiset(Sort(sorted));
      assert x in tasks + mutexes;
    }
  }

  lemma PartsDistinct(a: seq<Item>, b: seq<Item>)
    requires Distinct(a + b)
    ensures Distinct(a) && Distinct(b)
  {
    assert a == (a + b)[..|a|] && b == (a + b)[|a|..];
  }

  /** The timer created for task t: not periodic, disabled, and for the task-timer signal of that task alone. */
  function TaskTimer(t: nat): Timers.Timer {
    Timers.Timer(false, false, 0, 0, Timers.ERROR_ID_NONE, t, {TASK_TIMER})
  }

  /** configure from the lists of tasks, mutexes and timers on. */
  method Configure(tasks: seq<Item>, mutexes: seq<Item>, timers: seq<Timers.Timer>)
    returns (sortedTasks: seq<Item>, sortedMutexes: seq<Item>, queue: seq<Item>, allTimers: seq<Timers.Timer>)
    requires Kinds(tasks, mutexes)
    modifies tasks, mutexes
    ensures sortedTasks == Sort(tasks) && sortedMutexes == Sort(mutexes)
    ensures Placed(sortedTasks, sortedMutexes, queue)
    ensures |allTimers| == |timers| + |tasks| && allTimers[..|timers|] == timers
    ensures forall t | 0 <= t < |tasks| ::
              && sortedTasks[t].timer == |timers| + t
              && var tm := allTimers[sortedTasks[t].timer];
                 !tm.enabled && !tm.overflow && tm.reload == 0 && tm.errorId == Timers.ERROR_ID_NONE
                 && tm.task == t && tm.signalSet == {TASK_TIMER}
  {
    hide Distinct, Sort, Kinds;
    SortedKinds(tasks, mutexes);
    sortedTasks, sortedMutexes := Sort(tasks), Sort(mutexes);
    queue := Sort(sortedTasks + sortedMutexes);
    allTimers := NumberTasks(sortedTasks, timers);
    NumberMutexes(sortedMutexes);
    NumberQueue(queue);
    forall t | 0 <= t < |tasks|
      ensures sortedTasks[t].timer == |timers| + t && allTimers[sortedTasks[t].timer] == TaskTimer(t)
    {
      assert allTimers[|timers| + t] == TaskTimer(t);
    }
  }

  method NumberTasks(tasks: seq<Item>, timers: seq<Timers.Timer>) returns (all: seq<Timers.Timer>)
    requires Distinct(tasks)
    modifies tasks`idx, tasks`timer
    ensures forall k | 0 <= k < |tasks| :: tasks[k].idx == k && tasks[k].timer == |timers| + k
    ensures |all| == |timers| + |tasks| && all[..|timers|] == timers
    ensures forall k | 0 <= k < |tasks| :: all[|timers| + k] == TaskTimer(k)
  {
    all := timers;
    var i := 0;
    while i < |tasks|
      invariant 0 <= i <= |tasks| && |all| == |timers| + i && all[..|timers|] == timers
      invariant forall k | 0 <= k < i :: tasks[k].idx == k && tasks[k].timer == |timers| + k
      invariant forall k | 0 <= k < i :: all[|timers| + k] == TaskTimer(k)
    {
      tasks[i].idx := i;
      tasks[i].timer := |all|;
      all := all + [TaskTimer(i)];
      i := i + 1;
    }
  }

  method NumberQueue(queue: seq<Item>)
    requires Distinct(queue)
    modifies queue`schedIdx
    ensures forall k | 0 <= k < |queue| :: queue[k].schedIdx == k
  {
    var i := 0;
    while i < |queue|
      invariant 0 <= i <= |queue|
      invariant forall k | 0 <= k < i :: queue[k].schedIdx == k
    {
      queue[i].schedIdx := i;
      i := i + 1;
    }
  }

  method NumberMutexes(items: seq<Item>)
    requires Distinct(items)
    modifies items`idx
    ensures forall k | 0 <= k < |items| :: items[k].idx == k
  {
    var i := 0;
    while i < |items|
      invariant 0 <= i <= |items|
      invariant forall k | 0 <= k < i :: items[k].idx == k
    {
      items[i].idx := i;
      i := i + 1;
    }
  }
}
