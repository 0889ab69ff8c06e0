/** The round-robin scheduler (components/sched-rr) and its reference model in Python (rtos/sched.py). */
module SchedRoundRobin {
  import opened Ids
  import opened Modular

  // ----- The reference model -----------------------------------------------------------------------------------

  function Rotate<T>(s: seq<T>, n: nat): seq<T>
    requires n <= |s|
  {
    s[n..] + s[..n]
  }

  function IncMod(i: nat, n: nat): nat
    requires n > 0
  {
    (i + 1) % n
  }

  function Indexed(runnable: seq<bool>): seq<(nat, bool)> {
    seq(|runnable|, i => (i, if 0 <= i < |runnable| then runnable[i] else false))
  }

  /** The index of the first runnable entry, or TASK_ID_NONE. */
  function Head(entries: seq<(nat, bool)>): nat {
    if entries == [] then TASK_ID_NONE
    else if entries[0].1 then entries[0].0
    else Head(entries[1..])
  }

  predicate SchedOk(runnable: seq<bool>, cur: nat) {
    0 < |runnable| <= TASK_ID_NONE && cur < |runnable|
  }

  /** RrSchedModel.get_next: its result. */
  function ModelNext(runnable: seq<bool>, cur: nat): nat
    requires SchedOk(runnable, cur)
  {
    Head(Rotate(Indexed(runnable), IncMod(cur, |runnable|)))
  }

  /** RrSchedModel.get_next: the new value of cur. */
  function ModelCur(runnable: seq<bool>, cur: nat): nat
    requires SchedOk(runnable, cur)
  {
    var next := ModelNext(runnable, cur);
    if next == TASK_ID_NONE then |runnable| - 1 else next
  }

  // ----- What it means -----------------------------------------------------------------------------------------

  /** The first k tasks after cur are not runnable. */
  ghost predicate NoneRunnable(runnable: seq<bool>, cur: nat, k: nat)
    requires SchedOk(runnable, cur) && k <= |runnable|
  {
    forall j: nat | 0 < j <= k :: !runnable[Around(cur, j, |runnable|)]
  }

  lemma {:induction false} HeadIsFirst(entries: seq<(nat, bool)>, k: nat)
    requires k <= |entries| && forall j | 0 <= j < k :: !entries[j].1
    requires k < |entries| ==> entries[k].1
    ensures Head(entries) == if k < |entries| then entries[k].0 else TASK_ID_NONE
  {
    if k > 0 { HeadIsFirst(entries[1..], k - 1); }
  }

  lemma IncModValue(i: nat, n: nat)
    requires i < n
    ensures IncMod(i, n) == if i + 1 < n then i + 1 else 0
  {
    AroundIsRemainder(i, 1, n);
  }

  lemma RotatedAt(runnable: seq<bool>, cur: nat, p: nat)
    requires SchedOk(runnable, cur) && p < |runnable|
    ensures var t := Around(cur, p + 1, |runnable|);
            IncMod(cur, |runnable|) < |runnable|
            && Rotate(Indexed(runnable), IncMod(cur, |runnable|))[p] == (t, runnable[t])
  {
    IncModValue(cur, |runnable|);
    hide IncMod;
    var entries, first := Indexed(runnable), IncMod(cur, |runnable|);
    if p < |runnable| - first {
      assert Rotate(entries, first)[p] == entries[first + p];
    } else {
      assert Rotate(entries, first)[p] == entries[p - (|runnable| - first)];
    }
  }

  /** The model picks the first runnable task after cur in cyclic order, cur itself last. */
  lemma ModelMeaning(runnable: seq<bool>, cur: nat, k: nat)
    requires SchedOk(runnable, cur) && k <= |runnable| && NoneRunnable(runnable, cur, k)
    requires k < |runnable| ==> runnable[Around(cur, k + 1, |runnable|)]
    ensures ModelNext(runnable, cur) == if k < |runnable| then Around(cur, k + 1, |runnable|) else TASK_ID_NONE
  {
    var entries := Rotate(Indexed(runnable), IncMod(cur, |runnable|));
    forall p: nat | p < |runnable| ensures entries[p].1 == runnable[Around(cur, p + 1, |runnable|)]
                                           && entries[p].0 == Around(cur, p + 1, |runnable|) {
      RotatedAt(runnable, cur, p);
    }
    HeadIsFirst(entries, k);
  }

  // ----- The scheduler -----------------------------------------------------------------------------------------

  class Scheduler {
    const runnable: array<bool>
    var cur: nat   // the task scheduled last

    ghost predicate Valid()
      reads this, runnable
    {
      SchedOk(runnable[..], cur)
    }

    constructor (tasks: nat)
      requires 0 < tasks <= TASK_ID_NONE
      ensures Valid() && fresh(runnable) && cur == 0 && runnable[..] == seq(tasks, _ => false)
    {
      runnable := new bool[tasks](_ => false);
      cur := 0;
    }

    method SetRunnable(t: nat)
      requires Valid() && t < runnable.Length
      modifies runnable
      ensures Valid() && runnable[..] == old(runnable[..])[t := true]
    {
      runnable[t] := true;
    }

    method SetBlocked(t: nat)
      requires Valid() && t < runnable.Length
      modifies runnable
      ensures Valid() && runnable[..] == old(runnable[..])[t := false]
    {
      runnable[t] := false;
    }

    /** sched_next_index */
    function NextIndex(i: nat): nat
      reads runnable
      requires i < runnable.Length
    {
      if i == runnable.Length - 1 then 0 else i + 1
    }

    /** sched_get_next.  With assumeRunnable the search does not stop at cur, so some task must be runnable. */
    method GetNext(assumeRunnable: bool) returns (task: nat)
      requires Valid() && (assumeRunnable ==> exists t :: 0 <= t < runnable.Length && runnable[t])
      modifies this`cur
      ensures Valid()
      ensures task == ModelNext(runnable[..], old(cur)) && cur == ModelCur(runnable[..], old(cur))
    {
      ghost var n, some := runnable.Length, 0;
      if assumeRunnable {
        ghost var t: nat :| t < n && runnable[t];
        some := Distance(cur, t, n);
      }
      var next := NextIndex(cur);
      var found := runnable[next];
      ghost var k := 1;
      while !found && (assumeRunnable || next != cur)
        invariant 0 < k <= n && next == Around(cur, k, n) && found == runnable[next]
        invariant NoneRunnable(runnable[..], cur, k - 1)
        invariant assumeRunnable ==> some <= n && runnable[Around(cur, some, n)] && k <= some
        decreases n - k
      {
        next := NextIndex(next);
        found := runnable[next];
        k := k + 1;
      }
      ModelMeaning(runnable[..], cur, if found then k - 1 else n);
      if found {
        task := next;
      } else {
        next := runnable.Length - 1;
        task := TASK_ID_NONE;
      }
      cur := next;
    }
  }

  // ----- No starvation -----------------------------------------------------------------------------------------

  /** How many places after cur task t is. */
  function Distance(cur: nat, t: nat, n: nat): (d: nat)
    requires cur < n && t < n
    ensures 0 < d <= n && Around(cur, d, n) == t
  {
    if t > cur then t - cur else t + n - cur
  }

  /** A run of calls of sched_get_next; between calls tasks may become runnable or blocked in any way. */
  ghost predicate IsRun(n: nat, runnable: seq<seq<bool>>, cur: seq<nat>) {
    && |cur| == |runnable| + 1
    && forall k | 0 <= k < |runnable| ::
         |runnable[k]| == n && SchedOk(runnable[k], cur[k]) && cur[k + 1] == ModelCur(runnable[k], cur[k])
  }

  /** The runnable task with the lowest id, or TASK_ID_NONE. */
  ghost predicate IsFirst(runnable: seq<bool>, t: nat) {
    && (t < |runnable| ==> runnable[t])
    && (t >= |runnable| ==> t == TASK_ID_NONE)
    && forall u: nat | u < t && u < |runnable| :: !runnable[u]
  }

  lemma FirstFromEnd(runnable: seq<bool>, t: nat)
    requires 0 < |runnable| <= TASK_ID_NONE && IsFirst(runnable, t)
    ensures ModelNext(runnable, |runnable| - 1) == t
  {
    ModelMeaning(runnable, |runnable| - 1, if t < |runnable| then t else |runnable|);
  }

  /** A call that finds no task runnable starts the round afresh: the next call picks the runnable task with the lowest
      id, whatever was scheduled last. */
  lemma EmptyRoundStartsAfresh(n: nat, runnable: seq<seq<bool>>, cur: seq<nat>, k: nat, t: nat)
    requires IsRun(n, runnable, cur) && k + 1 < |runnable| && ModelNext(runnable[k], cur[k]) == TASK_ID_NONE
    ensures ModelNext(runnable[k + 1], cur[k + 1]) == t <==> IsFirst(runnable[k + 1], t)
  {
    var next := runnable[k + 1];
    var first := 0;
    while first < n && !next[first]
      invariant first <= n && forall u: nat | u < first :: !next[u]
    {
      first := first + 1;
    }
    FirstFromEnd(next, if first < n then first else TASK_ID_NONE);
  }

  /** A runnable task is picked, or the pick comes nearer to it. */
  lemma Approaches(runnable: seq<bool>, cur: nat, t: nat)
    requires SchedOk(runnable, cur) && t < |runnable| && runnable[t]
    ensures var next := ModelNext(runnable, cur);
            next < |runnable| && (next == t || Distance(next, t, |runnable|) < Distance(cur, t, |runnable|))
  {
    var n, k := |runnable|, 0;
    while k + 1 < Distance(cur, t, n) && !runnable[Around(cur, k + 1, n)]
      invariant k < Distance(cur, t, n) && NoneRunnable(runnable, cur, k)
    {
      k := k + 1;
    }
    ModelMeaning(runnable, cur, k);
  }

  /** A task that stays runnable is picked within as many calls as it is places away, at most n, whatever the other
      tasks do. */
  lemma {:induction false} NoStarvation(n: nat, runnable: seq<seq<bool>>, cur: seq<nat>, t: nat)
    requires IsRun(n, runnable, cur) && t < n && cur[0] < n && |runnable| >= Distance(cur[0], t, n)
    requires forall k | 0 <= k < |runnable| :: runnable[k][t]
    ensures exists k | 0 <= k < Distance(cur[0], t, n) :: ModelNext(runnable[k], cur[k]) == t
    decreases |runnable|
  {
    Approaches(runnable[0], cur[0], t);
    if ModelNext(runnable[0], cur[0]) != t {
      NoStarvation(n, runnable[1..], cur[1..], t);
      var k :| 0 <= k < Distance(cur[1], t, n) && ModelNext(runnable[1..][k], cur[1..][k]) == t;
      assert ModelNext(runnable[k + 1], cur[k + 1]) == t;
    }
  }
}
