/** The strict-priority scheduler with inheritance (components/sched-prio-inherit).

    Tasks are numbered by descending priority.  Word t of the block graph is t itself when task t is runnable,
    another task when t is blocked on that task, and TASK_ID_NONE when t is blocked on nobody in particular. */
module SchedPrioInherit {
  import opened Ids

  /** A block graph over at least one task, with every id inside the id type. */
  predicate IsBlockGraph(b: seq<nat>) {
    && 0 < |b| <= TASK_ID_NONE
    && forall t | 0 <= t < |b| :: b[t] < |b| || b[t] == TASK_ID_NONE
  }

  // ----- The reference model (rtos/sched.py) -----------------------------------------------------------------

  datatype Chain = EndsIn(task: nat) | CycleAsserted

  datatype Choice = Chosen(task: nat) | Nobody | CycleFound

  /** resolve_block_chain: follow the chain from t, asserting that no task already seen comes back. */
  function ResolveBlockChain(b: seq<nat>, t: nat, seen: set<nat>): Chain
    requires IsBlockGraph(b) && t < |b| && t !in seen
    decreases Below(|b|) - seen
  {
    var blockedOn := b[t];
    if blockedOn in seen then CycleAsserted
    else if blockedOn == t || blockedOn == TASK_ID_NONE then EndsIn(blockedOn)
    else
      assert t in Below(|b|) - seen && t !in Below(|b|) - (seen + {t});
      ResolveBlockChain(b, blockedOn, seen + {t})
  }

  /** PrioInheritSchedModel.get_next from the i-th task on: the first chain that does not end in None. */
  function ReferenceFrom(b: seq<nat>, i: nat): Choice
    requires IsBlockGraph(b) && i <= |b|
    decreases |b| - i
  {
    if i == |b| then Nobody
    else match ResolveBlockChain(b, i, {})
      case CycleAsserted => CycleFound
      case EndsIn(e) => if e == TASK_ID_NONE then ReferenceFrom(b, i + 1) else Chosen(e)
  }

  function ReferenceGetNext(b: seq<nat>): Choice
    requires IsBlockGraph(b)
  {
    ReferenceFrom(b, 0)
  }

  // ----- Chains ----------------------------------------------------------------------------------------------

  /** The task reached from t after k steps along the chain; ends of chains repeat. */
  function Hop(b: seq<nat>, t: nat, k: nat): (e: nat)
    requires IsBlockGraph(b) && (t < |b| || t == TASK_ID_NONE)
    ensures e < |b| || e == TASK_ID_NONE
    decreases k
  {
    if k == 0 || t == TASK_ID_NONE then t else Hop(b, b[t], k - 1)
  }

  predicate Stops(b: seq<nat>, t: nat)
    requires IsBlockGraph(b) && (t < |b| || t == TASK_ID_NONE)
  {
    t == TASK_ID_NONE || b[t] == t
  }

  /** The chain of t ends in e. */
  ghost predicate Ends(b: seq<nat>, t: nat, e: nat)
    requires IsBlockGraph(b) && (t < |b| || t == TASK_ID_NONE)
  {
    exists k: nat :: Hop(b, t, k) == e && Stops(b, Hop(b, t, k))
  }

  ghost predicate HasEnd(b: seq<nat>, t: nat)
    requires IsBlockGraph(b) && t < |b|
  {
    exists e :: Ends(b, t, e)
  }

  /** The walk of sched_get_next from task i on meets a chain without end: every chain before that one ends in
      TASK_ID_NONE, so that the walk goes on. */
  ghost predicate WalkLoops(b: seq<nat>, i: nat)
    requires IsBlockGraph(b)
  {
    exists f: nat :: i <= f < |b| && !HasEnd(b, f) && forall t: nat | i <= t < f :: Ends(b, t, TASK_ID_NONE)
  }

  // ----- The kernel's scheduler ------------------------------------------------------------------------------

  class Scheduler {
    const tasks: array<nat>  // the blocked_on words

    ghost predicate Valid()
      reads this, tasks
    {
      IsBlockGraph(tasks[..])
    }

    /** The scheduler of n tasks, all of them runnable, as start() leaves it. */
    constructor (n: nat)
      requires 0 < n <= TASK_ID_NONE
      ensures Valid() && fresh(tasks)
      ensures tasks[..] == seq(n, t requires 0 <= t < n => t)
    {
      tasks := new nat[n](t => t);
    }

    method SetRunnable(task: nat)
      requires Valid() && task < tasks.Length
      modifies tasks
      ensures Valid() && tasks[..] == old(tasks[..])[task := task]
    {
      tasks[task] := task;
    }

    method SetBlockedOn(task: nat, blocker: nat)
      requires Valid() && task < tasks.Length
      requires blocker < tasks.Length || blocker == TASK_ID_NONE
      modifies tasks
      ensures Valid() && tasks[..] == old(tasks[..])[task := blocker]
    {
      tasks[task] := blocker;
    }

    /** Walk the chain of each task in priority order until one ends in a runnable task.  The walk follows a chain
        without end for ever, so the caller owes a graph on which it meets none; TASK_ID_NONE is the answer exactly
        when the reference model finds nobody. */
    method GetNext() returns (task: nat)
      requires Valid()
      requires !WalkLoops(tasks[..], 0)
      ensures ReferenceGetNext(tasks[..]) == if task == TASK_ID_NONE then Nobody else Chosen(task)
    {
      ghost var b := tasks[..];
      AssertsIffWalkLoops(b, 0);
      hide HasEnd, WalkLoops;
      task := TASK_ID_NONE;
      var idx := 0;
      while idx < tasks.Length
        invariant 0 <= idx <= tasks.Length
        invariant ReferenceFrom(b, idx) == ReferenceGetNext(b)
        invariant task == TASK_ID_NONE
      {
        task := idx;
        ghost var seen: set<nat> := {};
        while true
          invariant task < tasks.Length && task !in seen
          invariant ResolveBlockChain(b, task, seen) == ResolveBlockChain(b, idx, {})
          decreases Below(|b|) - seen
        {
          var nextTask := tasks[task];
          if nextTask == task {
            return;
          }
          ghost var was := task;
          task := nextTask;
          if task == TASK_ID_NONE {
            break;
          }
          assert was in Below(|b|) - seen && was !in Below(|b|) - (seen + {was});
          seen := seen + {was};
        }
        idx := idx + 1;
      }
    }
  }

  // ----- What the answer means -------------------------------------------------------------------------------

  /** No chain returns to a task that is not runnable. */
  ghost predicate Acyclic(b: seq<nat>)
    requires IsBlockGraph(b)
  {
    forall t: nat, k: nat | t < |b| && 0 < k && Hop(b, t, k) == t :: b[t] == t
  }

  lemma {:induction false} HopAdds(b: seq<nat>, t: nat, j: nat, k: nat)
    requires IsBlockGraph(b) && (t < |b| || t == TASK_ID_NONE)
    ensures Hop(b, t, j + k) == Hop(b, Hop(b, t, j), k)
    decreases j
  {
    if j == 0 {
    } else if t == TASK_ID_NONE {
    } else {
      HopAdds(b, b[t], j - 1, k);
    }
  }

  lemma {:induction false} StoppedStays(b: seq<nat>, t: nat, k: nat)
    requires IsBlockGraph(b) && (t < |b| || t == TASK_ID_NONE) && Stops(b, t)
    ensures Hop(b, t, k) == t
    decreases k
  {
    if k > 0 && t != TASK_ID_NONE {
      StoppedStays(b, t, k - 1);
    }
  }

  /** A chain has at most one end. */
  lemma {:induction false} EndIsUnique(b: seq<nat>, t: nat, e: nat, f: nat)
    requires IsBlockGraph(b) && (t < |b| || t == TASK_ID_NONE)
    requires Ends(b, t, e) && Ends(b, t, f)
    ensures e == f
  {
    var j: nat :| Hop(b, t, j) == e && Stops(b, Hop(b, t, j));
    var k: nat :| Hop(b, t, k) == f && Stops(b, Hop(b, t, k));
    if j <= k {
      HopAdds(b, t, j, k - j);
      StoppedStays(b, e, k - j);
    } else {
      HopAdds(b, t, k, j - k);
      StoppedStays(b, f, j - k);
    }
  }

  /** Every task on a chain has the end of the chain. */
  lemma {:induction false} EndsLater(b: seq<nat>, t: nat, e: nat, k: nat)
    requires IsBlockGraph(b) && (t < |b| || t == TASK_ID_NONE) && Ends(b, t, e)
    ensures Ends(b, Hop(b, t, k), e)
  {
    var j: nat :| Hop(b, t, j) == e && Stops(b, Hop(b, t, j));
    HopAdds(b, t, j, k);
    HopAdds(b, t, k, j);
    StoppedStays(b, e, k);
    assert Hop(b, Hop(b, t, k), j) == e;
  }

  /** A chain that returns to a task which is not runnable never ends. */
  lemma {:induction false} CycleNeverEnds(b: seq<nat>, t: nat, m: nat, e: nat)
    requires IsBlockGraph(b) && t < |b| && 0 < m && Hop(b, t, m) == t && b[t] != t
    ensures !Ends(b, t, e)
  {
    if Ends(b, t, e) {
      var k: nat :| Hop(b, t, k) == e && Stops(b, Hop(b, t, k));
      RoundAndRound(b, t, m, k);
      HopAdds(b, t, k, m * k - k);
      StoppedStays(b, e, m * k - k);
    }
  }

  lemma {:induction false} RoundAndRound(b: seq<nat>, t: nat, m: nat, k: nat)
    requires IsBlockGraph(b) && t < |b| && 0 < m && Hop(b, t, m) == t
    ensures m * k >= k && Hop(b, t, m * k) == t
    decreases k
  {
    if k > 0 {
      RoundAndRound(b, t, m, k - 1);
      assert m * k == m * (k - 1) + m;
      HopAdds(b, t, m * (k - 1), m);
    } else {
      assert m * k == 0;
    }
  }

  /** What resolve_block_chain keeps: every task it has seen is blocked and leads to the task it looks at. */
  ghost predicate SeenLeadsTo(b: seq<nat>, seen: set<nat>, t: nat)
    requires IsBlockGraph(b) && t < |b|
  {
    forall s | s in seen :: s < |b| && b[s] != s && exists j: nat :: 0 < j && Hop(b, s, j) == t
  }

  lemma {:induction false} SeenStep(b: seq<nat>, seen: set<nat>, t: nat)
    requires IsBlockGraph(b) && t < |b| && SeenLeadsTo(b, seen, t)
    requires b[t] != t && b[t] < |b|
    ensures SeenLeadsTo(b, seen + {t}, b[t])
  {
    forall s | s in seen + {t} ensures s < |b| && b[s] != s && exists j: nat :: 0 < j && Hop(b, s, j) == b[t] {
      assert Hop(b, t, 1) == b[t] by { assert Hop(b, b[t], 0) == b[t]; }
      if s != t {
        var j: nat :| 0 < j && Hop(b, s, j) == t;
        HopAdds(b, s, j, 1);
        assert Hop(b, s, j + 1) == b[t];
      }
    }
  }

  /** The reference model's chain: its end when there is one, the assertion only when the chain runs into a cycle. */
  lemma {:induction false} ResolvedChain(b: seq<nat>, t: nat, seen: set<nat>)
    requires IsBlockGraph(b) && t < |b| && t !in seen && SeenLeadsTo(b, seen, t)
    ensures match ResolveBlockChain(b, t, seen)
            case EndsIn(e) => Ends(b, t, e)
            case CycleAsserted => exists k: nat, m: nat ::
              0 < m && Hop(b, t, k) < |b| && b[Hop(b, t, k)] != Hop(b, t, k)
              && Hop(b, Hop(b, t, k), m) == Hop(b, t, k)
    decreases Below(|b|) - seen
  {
    var next := b[t];
    assert Hop(b, t, 0) == t && Hop(b, t, 1) == next by { if next != TASK_ID_NONE { assert Hop(b, next, 0) == next; } }
    if next in seen {
      var j: nat :| 0 < j && Hop(b, next, j) == t;
      HopAdds(b, next, j, 1);
      assert Hop(b, t, 1) < |b| && b[Hop(b, t, 1)] != Hop(b, t, 1)
             && Hop(b, Hop(b, t, 1), j + 1) == Hop(b, t, 1);
    } else if next == t || next == TASK_ID_NONE {
      assert Stops(b, Hop(b, t, 1));
    } else {
      SeenStep(b, seen, t);
      assert t in Below(|b|) - seen && t !in Below(|b|) - (seen + {t});
      ResolvedChain(b, next, seen + {t});
      match ResolveBlockChain(b, next, seen + {t})
      case EndsIn(e) =>
        var k: nat :| Hop(b, next, k) == e && Stops(b, Hop(b, next, k));
        assert Hop(b, t, k + 1) == e;
      case CycleAsserted =>
        var k: nat, m: nat :| 0 < m && Hop(b, next, k) < |b| && b[Hop(b, next, k)] != Hop(b, next, k)
                              && Hop(b, Hop(b, next, k), m) == Hop(b, next, k);
        assert Hop(b, t, k + 1) == Hop(b, next, k);
    }
  }

  /** The chain of t ends in e exactly when the reference model says so, and the model asserts exactly on the
      chains that have no end. */
  lemma {:induction false} ChainMeaning(b: seq<nat>, t: nat, e: nat)
    requires IsBlockGraph(b) && t < |b|
    ensures ResolveBlockChain(b, t, {}) == EndsIn(e) <==> Ends(b, t, e)
  {
    ResolvedChain(b, t, {});
    match ResolveBlockChain(b, t, {})
    case EndsIn(f) =>
      if Ends(b, t, e) { EndIsUnique(b, t, e, f); }
    case CycleAsserted =>
      var k: nat, m: nat :| 0 < m && Hop(b, t, k) < |b| && b[Hop(b, t, k)] != Hop(b, t, k)
                            && Hop(b, Hop(b, t, k), m) == Hop(b, t, k);
      if Ends(b, t, e) {
        EndsLater(b, t, e, k);
        CycleNeverEnds(b, Hop(b, t, k), m, e);
      }
  }

  /** The reference model's assertion fails exactly when the kernel's walk meets a chain without end. */
  lemma {:induction false} AssertsIffWalkLoops(b: seq<nat>, i: nat)
    requires IsBlockGraph(b) && i <= |b|
    ensures ReferenceFrom(b, i).CycleFound? <==> WalkLoops(b, i)
    decreases |b| - i
  {
    if i < |b| {
      AssertsIffWalkLoops(b, i + 1);
      match ResolveBlockChain(b, i, {})
      case CycleAsserted =>
        forall e ensures !Ends(b, i, e) { ChainMeaning(b, i, e); }
        assert !HasEnd(b, i);
      case EndsIn(e) =>
        ChainMeaning(b, i, e);
        assert HasEnd(b, i);
        if e == TASK_ID_NONE {
          WalkGoesOn(b, i);
        } else if WalkLoops(b, i) {
          ChainMeaning(b, i, TASK_ID_NONE);
        }
    }
  }

  /** Past a chain that ends in TASK_ID_NONE the walk goes on. */
  lemma WalkGoesOn(b: seq<nat>, i: nat)
    requires IsBlockGraph(b) && i < |b| && Ends(b, i, TASK_ID_NONE)
    ensures WalkLoops(b, i) <==> WalkLoops(b, i + 1)
  {
    assert HasEnd(b, i);
    if WalkLoops(b, i + 1) {
      var f: nat :| i + 1 <= f < |b| && !HasEnd(b, f) && forall t: nat | i + 1 <= t < f :: Ends(b, t, TASK_ID_NONE);
      assert forall t: nat | i <= t < f :: Ends(b, t, TASK_ID_NONE);
    }
  }

  /** Every chain ends, so that the kernel's walk terminates whatever the priorities, exactly on acyclic graphs. */
  lemma {:induction false} ChainsEndIffAcyclic(b: seq<nat>)
    requires IsBlockGraph(b)
    ensures Acyclic(b) <==> forall t: nat | t < |b| :: HasEnd(b, t)
  {
    if Acyclic(b) {
      forall t: nat | t < |b| ensures HasEnd(b, t) {
        ResolvedChain(b, t, {});
        match ResolveBlockChain(b, t, {})
        case EndsIn(e) => assert Ends(b, t, e);
        case CycleAsserted =>
      }
    } else {
      var t: nat, k: nat :| t < |b| && 0 < k && Hop(b, t, k) == t && b[t] != t;
      forall e ensures !Ends(b, t, e) { CycleNeverEnds(b, t, k, e); }
      assert !HasEnd(b, t);
    }
  }

  /** On an acyclic graph the scheduler answers. */
  lemma {:induction false} AcyclicAnswers(b: seq<nat>, i: nat)
    requires IsBlockGraph(b) && Acyclic(b) && i <= |b|
    ensures !ReferenceFrom(b, i).CycleFound?
    decreases |b| - i
  {
    if i < |b| {
      ResolvedChain(b, i, {});
      AcyclicAnswers(b, i + 1);
    }
  }

  /** r inherits the priority of i: the chain of i passes through r. */
  ghost predicate Lends(b: seq<nat>, i: nat, r: nat)
    requires IsBlockGraph(b) && i < |b|
  {
    exists k: nat :: Hop(b, i, k) == r
  }

  /** i lends r its priority, and no task of priority i or higher lends its own to another runnable task. */
  ghost predicate Outranks(b: seq<nat>, i: nat, r: nat)
    requires IsBlockGraph(b) && i < |b|
  {
    && Lends(b, i, r)
    && forall j: nat, q: nat | j <= i && q < |b| && b[q] == q && Lends(b, j, q) :: q == r
  }

  /** The scheduler's answer is the runnable task of highest effective priority: a task i lends it its priority, and
      no task of priority i or higher lends its own to any other runnable task.  Nobody is the answer exactly when
      every chain ends in TASK_ID_NONE. */
  lemma {:induction false} GetNextMeaning(b: seq<nat>, r: nat)
    requires IsBlockGraph(b) && !ReferenceGetNext(b).CycleFound?
    ensures ReferenceGetNext(b) == Chosen(r) <==>
            r < |b| && b[r] == r && exists i: nat :: i < |b| && Outranks(b, i, r)
    ensures ReferenceGetNext(b).Nobody? <==> forall t: nat | t < |b| :: Ends(b, t, TASK_ID_NONE)
  {
    var i := FirstChain(b, 0);
    if i < |b| {
      var c := ReferenceGetNext(b).task;
      assert Lends(b, i, c);
      forall j: nat, q: nat | j <= i && q < |b| && b[q] == q && Lends(b, j, q) ensures q == c {
        var k: nat :| Hop(b, j, k) == q;
        assert Ends(b, j, q);
        if j < i { EndIsUnique(b, j, q, TASK_ID_NONE); } else { EndIsUnique(b, i, q, c); }
      }
      assert Outranks(b, i, c);
      if r < |b| && b[r] == r {
        forall i': nat | i' < |b| && Outranks(b, i', r) ensures r == c
        {
          var k: nat :| Hop(b, i', k) == r;
          assert Ends(b, i', r);
          if i' < i { EndIsUnique(b, i', r, TASK_ID_NONE); }
        }
      }
      if Ends(b, i, TASK_ID_NONE) { EndIsUnique(b, i, c, TASK_ID_NONE); }
    } else {
      if r < |b| && b[r] == r {
        forall i': nat | i' < |b| ensures !Lends(b, i', r) {
          if Lends(b, i', r) {
            var k: nat :| Hop(b, i', k) == r;
            assert Ends(b, i', r);
            EndIsUnique(b, i', r, TASK_ID_NONE);
          }
        }
      }
    }
  }

  /** The first task at or after i whose chain ends in a runnable task, or |b|. */
  lemma {:induction false} FirstChain(b: seq<nat>, i: nat) returns (f: nat)
    requires IsBlockGraph(b) && i <= |b| && !ReferenceFrom(b, i).CycleFound?
    ensures i <= f <= |b|
    ensures forall t: nat | i <= t < f :: Ends(b, t, TASK_ID_NONE)
    ensures f == |b| ==> ReferenceFrom(b, i).Nobody?
    ensures f < |b| ==> ReferenceFrom(b, i).Chosen? && var c := ReferenceFrom(b, i).task;
                        Ends(b, f, c) && c < |b| && b[c] == c
    decreases |b| - i
  {
    f := i;
    if i < |b| {
      ResolvedChain(b, i, {});
      if ResolveBlockChain(b, i, {}) == EndsIn(TASK_ID_NONE) {
        f := FirstChain(b, i + 1);
      }
    }
  }

  /** When every proper edge of the graph climbs a ranking, the graph is acyclic. */
  lemma {:induction false} ClimbingIsAcyclic(b: seq<nat>, rank: seq<int>)
    requires IsBlockGraph(b) && |rank| == |b|
    requires forall t: nat | t < |b| && b[t] != t && b[t] != TASK_ID_NONE :: rank[t] < rank[b[t]]
    ensures Acyclic(b)
  {
    forall t: nat, k: nat | t < |b| && 0 < k && Hop(b, t, k) == t ensures b[t] == t {
      if b[t] != t {
        Climbs(b, rank, t, k);
      }
    }
  }

  lemma {:induction false} Climbs(b: seq<nat>, rank: seq<int>, t: nat, k: nat)
    requires IsBlockGraph(b) && |rank| == |b| && t < |b| && b[t] != t && 0 < k
    requires forall t: nat | t < |b| && b[t] != t && b[t] != TASK_ID_NONE :: rank[t] < rank[b[t]]
    ensures Hop(b, t, k) == TASK_ID_NONE || rank[t] < rank[Hop(b, t, k)]
    decreases k
  {
    var next := b[t];
    if Stops(b, next) {
      StoppedStays(b, next, k - 1);
    } else if k > 1 {
      Climbs(b, rank, next, k - 1);
    } else {
      assert Hop(b, next, 0) == next;
    }
  }

  // ----- What blocking does to the graph ---------------------------------------------------------------------

  /** Up to where the chain of h meets t it does not depend on t's word. */
  lemma {:induction false} SameUntil(b: seq<nat>, t: nat, h: nat, x: nat, k: nat)
    requires IsBlockGraph(b) && t < |b| && h < |b| && (x < |b| || x == TASK_ID_NONE)
    requires forall j: nat | j < k :: Hop(b, x, j) != t
    ensures Hop(b[t := h], x, k) == Hop(b, x, k)
    decreases k
  {
    if k > 0 && x != TASK_ID_NONE {
      assert Hop(b, x, 0) == x;
      forall j: nat | j < k - 1 ensures Hop(b, b[x], j) != t { assert Hop(b, x, j + 1) != t; }
      SameUntil(b, t, h, b[x], k - 1);
    }
  }

  /** The first time the chain of x meets t. */
  lemma {:induction false} FirstMeeting(b: seq<nat>, x: nat, t: nat, k: nat) returns (f: nat)
    requires IsBlockGraph(b) && (x < |b| || x == TASK_ID_NONE) && Hop(b, x, k) == t
    ensures f <= k && Hop(b, x, f) == t && forall j: nat | j < f :: Hop(b, x, j) != t
  {
    f := 0;
    while Hop(b, x, f) != t
      invariant f <= k && forall j: nat | j < f :: Hop(b, x, j) != t
      decreases k - f
    {
      f := f + 1;
    }
  }

  /** A cycle that t's new word closes passes through t. */
  lemma CycleThroughChanged(b: seq<nat>, t: nat, h: nat, x: nat, m: nat)
    requires IsBlockGraph(b) && Acyclic(b) && t < |b| && h < |b| && x < |b| && b[t := h][x] != x
    requires 0 < m && Hop(b[t := h], x, m) == x
    ensures Hop(b[t := h], t, m) == t
  {
    var c := b[t := h];
    if forall j: nat | j < m :: Hop(b, x, j) != t {
      SameUntil(b, t, h, x, m);
      assert Hop(b, x, 0) == x;
    } else {
      var k: nat :| k < m && Hop(b, x, k) == t;
      var f := FirstMeeting(b, x, t, k);
      SameUntil(b, t, h, x, f);
      HopAdds(c, x, f, m);
      HopAdds(c, x, m, f);
    }
  }

  /** Blocking t on h closes a cycle if and only if the chain of h passes through t. */
  lemma BlockingClosesIff(b: seq<nat>, t: nat, h: nat)
    requires IsBlockGraph(b) && Acyclic(b) && t < |b| && h < |b| && h != t
    ensures Acyclic(b[t := h]) <==> !Lends(b, h, t)
  {
    var c := b[t := h];
    if k: nat :| Hop(b, h, k) == t {
      var f := FirstMeeting(b, h, t, k);
      SameUntil(b, t, h, h, f);
      assert Hop(c, t, f + 1) == t;
    } else {
      forall x: nat, m: nat | x < |b| && 0 < m && Hop(c, x, m) == x ensures c[x] == x {
        SameUntil(b, t, h, h, m - 1);
        assert Hop(c, t, m) == Hop(c, h, m - 1);
        if c[x] != x { CycleThroughChanged(b, t, h, x, m); }
      }
    }
  }

  /** A chain that ends in TASK_ID_NONE does not depend on the word of a runnable task. */
  lemma EndsWithout(b: seq<nat>, c: nat, h: nat, t: nat)
    requires IsBlockGraph(b) && c < |b| && b[c] == c && h < |b| && t < |b| && Ends(b, t, TASK_ID_NONE)
    ensures Ends(b[c := h], t, TASK_ID_NONE)
  {
    var k: nat :| Hop(b, t, k) == TASK_ID_NONE;
    forall j: nat | j < k ensures Hop(b, t, j) != c {
      HopAdds(b, t, j, k - j);
      StoppedStays(b, c, k - j);
    }
    SameUntil(b, c, h, t, k);
    assert Stops(b[c := h], Hop(b[c := h], t, k));
  }

  /** A chain that leads into a cycle has no end. */
  lemma LeadsIntoCycle(b: seq<nat>, f: nat, k: nat, c: nat, m: nat)
    requires IsBlockGraph(b) && f < |b| && c < |b| && Hop(b, f, k) == c && b[c] != c && 0 < m && Hop(b, c, m) == c
    ensures !HasEnd(b, f)
  {
    forall e ensures !Ends(b, f, e) {
      if Ends(b, f, e) {
        EndsLater(b, f, e, k);
        CycleNeverEnds(b, c, m, e);
      }
    }
  }

  /** When the scheduled task closes a cycle, the walk meets that cycle at once: the chain that led to the scheduled
      task now runs into it, and those before it still end in TASK_ID_NONE. */
  lemma ClosingLoopsAtOnce(b: seq<nat>, c: nat, h: nat)
    requires IsBlockGraph(b) && c < |b| && h < |b| && h != c
    requires ReferenceGetNext(b) == Chosen(c) && Lends(b, h, c)
    ensures WalkLoops(b[c := h], 0)
  {
    var d := b[c := h];
    var f := FirstChain(b, 0);
    var k: nat :| Hop(b, f, k) == c && Stops(b, Hop(b, f, k));
    var i := FirstMeeting(b, f, c, k);
    SameUntil(b, c, h, f, i);
    var l: nat :| Hop(b, h, l) == c;
    var j := FirstMeeting(b, h, c, l);
    SameUntil(b, c, h, h, j);
    assert Hop(d, c, j + 1) == Hop(d, h, j) == c;
    LeadsIntoCycle(d, f, i, c, j + 1);
    forall t: nat | t < f ensures Ends(d, t, TASK_ID_NONE) { EndsWithout(b, c, h, t); }
  }

  /** On an acyclic graph the walk meets no chain without end. */
  lemma AcyclicWalks(b: seq<nat>)
    requires IsBlockGraph(b) && Acyclic(b)
    ensures !WalkLoops(b, 0)
  {
    ChainsEndIffAcyclic(b);
  }

  /** Some tasks are set runnable or blocked on nobody, all others are left as they are. */
  predicate Loosens(b: seq<nat>, c: seq<nat>) {
    |c| == |b| && forall t: nat | t < |b| :: c[t] == b[t] || c[t] == t || c[t] == TASK_ID_NONE
  }

  lemma {:induction false} LooserHop(b: seq<nat>, c: seq<nat>, x: nat, k: nat)
    requires IsBlockGraph(b) && IsBlockGraph(c) && Loosens(b, c) && (x < |b| || x == TASK_ID_NONE)
    ensures Hop(c, x, k) == Hop(b, x, k) || Stops(c, Hop(c, x, k))
    decreases k
  {
    if k > 0 && x != TASK_ID_NONE {
      if Stops(c, c[x]) {
        StoppedStays(c, c[x], k - 1);
      } else {
        LooserHop(b, c, b[x], k - 1);
      }
    }
  }

  lemma LooserIsAcyclic(b: seq<nat>, c: seq<nat>)
    requires IsBlockGraph(b) && IsBlockGraph(c) && Loosens(b, c) && Acyclic(b)
    ensures Acyclic(c)
  {
    forall x: nat, m: nat | x < |c| && 0 < m && Hop(c, x, m) == x ensures c[x] == x {
      StoppedStays(c, TASK_ID_NONE, m - 1);
      LooserHop(b, c, x, m);
    }
  }
}
