/** Blocking puts and gets of message queues (components/message-queue) between the tasks of Rigel, whose tasks switch
    only where they yield.

    A step is what one task does from a kernel call, or from the return of yield() inside one, up to the next yield()
    or the end of the call; any runnable task may make the next step, and interrupt events and timers send signals
    between steps.  Messages themselves are in module MessageQueue; here a queue is its number of messages.  The
    number of messages left at which try_get wakes waiters is a parameter, the threshold. */
module MessageQueueProtocol {
  import opened Ids
  import opened Timeouts

  datatype Op = Put | Get

  datatype Reason = ForQueue(op: Op, queue: nat) | ForSignals

  datatype Pc = Outside | Waiting(reason: Reason, requested: BitSet, timing: Timing)

  datatype State = State(
    runnable: seq<bool>, signals: seq<BitSet>, pc: seq<Pc>, waiters: seq<nat>, clock: nat,
    length: seq<nat>, available: seq<nat>, threshold: nat)

  datatype Action =
    | Call(t: nat, op: Op, q: nat, timing: Timing)   // put, get, put_timeout, get_timeout
    | Try(t: nat, op: Op, q: nat)                    // try_put, try_get
    | WaitSignals(t: nat, requested: BitSet)
    | PollSignals(t: nat, requested: BitSet)
    | SendSignals(t: nat, to: nat, sent: BitSet)
    | Resume(t: nat)                                 // back from yield() inside a wait
    | Event(to: nat, sent: BitSet)                   // an interrupt event or an expired timer
    | Tick

  predicate WaitOk(queues: nat, p: Pc) {
    p.Waiting? && p.reason.ForQueue? ==> p.reason.queue < queues && p.requested == {TASK_TIMER}
  }

  predicate QueueOk(available: nat, length: nat) {
    available <= length && 0 < length <= 0xff
  }

  ghost predicate Ok(s: State) {
    && |s.runnable| == |s.signals| == |s.pc| == |s.waiters| <= TASK_ID_NONE
    && |s.length| == |s.available| <= MESSAGE_QUEUE_ID_NONE
    && (forall q: nat | q < |s.length| :: QueueOk(s.available[q], s.length[q]))
    && forall t: nat | t < |s.pc| :: WaitOk(|s.length|, s.pc[t])
  }

  function Send(s: State, t: nat, sent: BitSet): State
    requires Ok(s) && t < |s.pc|
  {
    s.(signals := s.signals[t := s.signals[t] + sent], runnable := s.runnable[t := true])
  }

  /** signal_wait_set, after sleep() has set the task's timer, up to its first yield(): with a requested signal pending
      the task stays runnable.  A timer set to 0 ticks fires at once. */
  function StartWait(s: State, t: nat, p: Pc): (r: State)
    requires Ok(s) && t < |s.pc| && p.Waiting? && (p.timing.Until? ==> StillTime(s.clock, p.timing))
  {
    var timed := if p.timing.Until? && TimerArgument(s.clock, p.timing) == 0 then Send(s, t, {TASK_TIMER}) else s;
    timed.(pc := s.pc[t := p],
           runnable := s.runnable[t := timed.signals[t] * p.requested != {}])
  }

  /** message_queue_waiters_wakeup */
  function Wake(s: State, q: nat): (r: State)
    requires Ok(s)
  {
    var n := |s.pc|;
    s.(waiters := seq(n, t requires 0 <= t < n => if s.waiters[t] == q then MESSAGE_QUEUE_ID_NONE else s.waiters[t]),
       signals := seq(n, t requires 0 <= t < n =>
                      if s.waiters[t] == q then s.signals[t] + {TASK_TIMER} else s.signals[t]),
       runnable := seq(n, t requires 0 <= t < n => s.waiters[t] == q || s.runnable[t]))
  }

  predicate Refused(s: State, op: Op, q: nat)
    requires Ok(s) && q < |s.length|
  {
    s.available[q] == if op.Put? then s.length[q] else 0
  }

  /** The number of messages after a put or get, and whether waiters are then woken. */
  function After(available: nat, op: Op): nat
    requires op.Get? ==> available > 0
  {
    if op.Put? then available + 1 else available - 1
  }

  function WakesAt(op: Op, threshold: nat): nat {
    if op.Put? then 1 else threshold
  }

  function Transfer(s: State, op: Op, q: nat): State
    requires Ok(s) && q < |s.length| && !Refused(s, op, q)
  {
    var left := After(s.available[q], op);
    var moved := s.(available := s.available[q := left]);
    if left == WakesAt(op, s.threshold) then Wake(moved, q) else moved
  }

  /** The loops of put, get, put_timeout and get_timeout from their tests on: transfer, or register and wait, or with
      the time over return false. */
  function Attempt(s: State, t: nat, op: Op, q: nat, timing: Timing): State
    requires Ok(s) && t < |s.pc| && q < |s.length|
  {
    if !Refused(s, op, q) then Transfer(s.(pc := s.pc[t := Outside]), op, q)
    else if StillTime(s.clock, timing) then
      StartWait(s.(waiters := s.waiters[t := q]), t, Waiting(ForQueue(op, q), {TASK_TIMER}, timing))
    else s.(pc := s.pc[t := Outside])
  }

  /** The wake-up signal received; message_queue_wait_timeout also deregisters the task. */
  function Woken(s: State, t: nat): State
    requires Ok(s) && t < |s.pc| && s.pc[t].Waiting?
  {
    s.(signals := s.signals[t := s.signals[t] - s.pc[t].requested],
       waiters := if s.pc[t].timing.Until? then s.waiters[t := MESSAGE_QUEUE_ID_NONE] else s.waiters)
  }

  function ResumeStep(s: State, t: nat): State
    requires Ok(s) && t < |s.pc| && s.pc[t].Waiting?
  {
    var p := s.pc[t];
    if s.signals[t] * p.requested == {} then s.(runnable := s.runnable[t := false])
    else match p.reason
      case ForQueue(op, q) => Attempt(Woken(s, t), t, op, q, p.timing)
      case ForSignals => s.(signals := s.signals[t := s.signals[t] - p.requested], pc := s.pc[t := Outside])
  }

  ghost predicate IsCall(s: State, t: nat) {
    t < |s.pc| == |s.runnable| && s.pc[t] == Outside && s.runnable[t]
  }

  ghost predicate Enabled(s: State, a: Action) {
    && Ok(s)
    && match a
       case Call(t, _, q, timing) => IsCall(s, t) && q < |s.length| && TimingOk(s.clock, timing)
       case Try(t, _, q) => IsCall(s, t) && q < |s.length|
       case WaitSignals(t, _) => IsCall(s, t)
       case PollSignals(t, _) => IsCall(s, t)
       case SendSignals(t, to, _) => IsCall(s, t) && to < |s.pc|
       case Resume(t) => t < |s.pc| && s.pc[t].Waiting? && s.runnable[t]
       case Event(to, _) => to < |s.pc|
       case Tick => true
  }

  ghost function Do(s: State, a: Action): State
    requires Enabled(s, a)
  {
    match a
    case Call(t, op, q, timing) => Attempt(s, t, op, q, timing)
    case Try(_, op, q) => if Refused(s, op, q) then s else Transfer(s, op, q)
    case WaitSignals(t, requested) => StartWait(s, t, Waiting(ForSignals, requested, Forever))
    case PollSignals(t, requested) => s.(signals := s.signals[t := s.signals[t] - requested])
    case SendSignals(_, to, sent) => Send(s, to, sent)
    case Resume(t) => ResumeStep(s, t)
    case Event(to, sent) => Send(s, to, sent)
    case Tick => s.(clock := s.clock + 1)
  }

  /** Empty queues of the given lengths and n tasks outside any wait. */
  ghost predicate Init(s: State, n: nat, length: seq<nat>, threshold: nat) {
    && Ok(s) && |s.pc| == n && s.length == length && s.threshold == threshold
    && (forall q: nat | q < |s.length| :: s.available[q] == 0)
    && forall t: nat | t < |s.pc| ::
         s.pc[t] == Outside && s.runnable[t] && s.signals[t] == {} && s.waiters[t] == MESSAGE_QUEUE_ID_NONE
  }

  ghost predicate Steps(s: State, a: Action, r: State) {
    Enabled(s, a) && r == Do(s, a)
  }

  ghost predicate IsRun(states: seq<State>, actions: seq<Action>, n: nat, length: seq<nat>, threshold: nat) {
    && |states| == |actions| + 1
    && Init(states[0], n, length, threshold)
    && forall i: nat {:trigger actions[i]} | i < |actions| :: Steps(states[i], actions[i], states[i + 1])
  }

  ghost predicate Reachable(s: State, n: nat, length: seq<nat>, threshold: nat) {
    exists states, actions :: IsRun(states, actions, n, length, threshold) && states[|actions|] == s
  }

  // ----- The invariant -----------------------------------------------------------------------------------------

  /** Task t waits to put to, or get from, queue q, and no wake-up signal is pending. */
  predicate Stuck(s: State, t: nat, op: Op, q: nat) {
    t < |s.pc| && t < |s.signals| && s.pc[t].Waiting? && s.pc[t].reason == ForQueue(op, q)
    && TASK_TIMER !in s.signals[t]
  }

  /** Why a task may wait without a wake-up pending, as far as the threshold lets it be known. */
  predicate Justified(op: Op, available: nat, length: nat, threshold: nat) {
    if op.Get? then available == 0 else threshold < length ==> available > threshold
  }

  /** A registered waiter's queue has not passed a point at which waiters are woken. */
  predicate Holding(available: nat, length: nat, threshold: nat) {
    threshold < length ==> available == 0 || available > threshold
  }

  ghost predicate TaskOk(p: Pc, runnable: bool, signals: BitSet, waiter: nat,
                         length: seq<nat>, available: seq<nat>, threshold: nat)
    requires |length| == |available|
  {
    && WaitOk(|length|, p)
    && (!runnable ==> p.Waiting? && signals * p.requested == {})
    && (waiter < |length| ==> Holding(available[waiter], length[waiter], threshold))
    && (p.Waiting? && p.reason.ForQueue? && TASK_TIMER !in signals ==>
          waiter == p.reason.queue
          && Justified(p.reason.op, available[waiter], length[waiter], threshold))
  }

  ghost predicate TaskInv(s: State, t: nat)
    requires Ok(s) && t < |s.pc|
  {
    TaskOk(s.pc[t], s.runnable[t], s.signals[t], s.waiters[t], s.length, s.available, s.threshold)
  }

  ghost predicate Inv(s: State) {
    Ok(s) && forall u: nat | u < |s.pc| :: TaskInv(s, u)
  }

  /** Task t is running and holds the kernel; its program counter is about to be set. */
  ghost predicate Running(s: State, t: nat) {
    Ok(s) && t < |s.pc| && s.runnable[t] && Inv(s.(pc := s.pc[t := Outside]))
  }

  lemma SendKeeps(s: State, t: nat, sent: BitSet)
    requires Inv(s) && t < |s.pc|
    ensures Inv(Send(s, t, sent))
  {
    var r := Send(s, t, sent);
    forall u: nat | u < |r.pc| ensures TaskInv(r, u) { assert TaskInv(s, u); }
  }

  lemma TransferKeeps(s: State, op: Op, q: nat)
    requires Inv(s) && q < |s.length| && !Refused(s, op, q)
    ensures Inv(Transfer(s, op, q))
  {
    var r := Transfer(s, op, q);
    forall u: nat | u < |r.pc| ensures TaskInv(r, u) { assert TaskInv(s, u); }
  }

  /** The wait that t starts has its registration and its reason in place. */
  lemma StartWaitKeeps(s: State, t: nat, p: Pc)
    requires Running(s, t) && p.Waiting? && WaitOk(|s.length|, p)
    requires p.timing.Until? ==> StillTime(s.clock, p.timing)
    requires p.reason.ForQueue? ==> s.waiters[t] == p.reason.queue && Refused(s, p.reason.op, p.reason.queue)
    ensures Inv(StartWait(s, t, p))
  {
    var o := s.(pc := s.pc[t := Outside]);
    var r := StartWait(s, t, p);
    forall u: nat | u < |r.pc| ensures TaskInv(r, u) { assert TaskInv(o, u); }
  }

  lemma AttemptKeeps(s: State, t: nat, op: Op, q: nat, timing: Timing)
    requires Running(s, t) && q < |s.length|
    ensures Inv(Attempt(s, t, op, q, timing))
  {
    var o := s.(pc := s.pc[t := Outside]);
    if !Refused(s, op, q) {
      TransferKeeps(o, op, q);
    } else if StillTime(s.clock, timing) {
      var w := s.(waiters := s.waiters[t := q]);
      var r := w.(pc := s.pc[t := Outside]);
      forall u: nat | u < |r.pc| ensures TaskInv(r, u) { assert TaskInv(o, u); }
      StartWaitKeeps(w, t, Waiting(ForQueue(op, q), {TASK_TIMER}, timing));
    }
  }

  lemma ResumeKeeps(s: State, t: nat)
    requires Inv(s) && t < |s.pc| && s.pc[t].Waiting? && s.runnable[t]
    ensures Inv(ResumeStep(s, t))
  {
    hide Attempt;
    var p, r := s.pc[t], ResumeStep(s, t);
    if s.signals[t] * p.requested != {} && p.reason.ForQueue? {
      var w := Woken(s, t);
      var o := w.(pc := s.pc[t := Outside]);
      forall u: nat | u < |o.pc| ensures TaskInv(o, u) { assert TaskInv(s, u); }
      AttemptKeeps(w, t, p.reason.op, p.reason.queue, p.timing);
    } else {
      forall u: nat | u < |r.pc| ensures TaskInv(r, u) { assert TaskInv(s, u); }
    }
  }

  lemma PollKeeps(s: State, t: nat, requested: BitSet)
    requires Inv(s) && IsCall(s, t)
    ensures Inv(s.(signals := s.signals[t := s.signals[t] - requested]))
  {
    var r := s.(signals := s.signals[t := s.signals[t] - requested]);
    forall u: nat | u < |r.pc| ensures TaskInv(r, u) { assert TaskInv(s, u); }
  }

  lemma CallRuns(s: State, t: nat)
    requires Inv(s) && IsCall(s, t)
    ensures Running(s, t)
  {
    assert s.pc[t := Outside] == s.pc;
  }

  lemma StepKeepsInv(s: State, a: Action)
    requires Inv(s) && Enabled(s, a)
    ensures Inv(Do(s, a))
  {
    hide Attempt, Transfer, ResumeStep, StartWait, Running;
    match a
    case Call(t, op, q, timing) => CallRuns(s, t); AttemptKeeps(s, t, op, q, timing);
    case Try(_, op, q) => if !Refused(s, op, q) { TransferKeeps(s, op, q); }
    case WaitSignals(t, requested) => CallRuns(s, t); StartWaitKeeps(s, t, Waiting(ForSignals, requested, Forever));
    case PollSignals(t, requested) => PollKeeps(s, t, requested);
    case SendSignals(_, to, sent) => SendKeeps(s, to, sent);
    case Resume(t) => ResumeKeeps(s, t);
    case Event(to, sent) => SendKeeps(s, to, sent);
    case Tick =>
      var r := Do(s, a);
      forall u: nat | u < |r.pc| ensures TaskInv(r, u) { assert TaskInv(s, u); }
  }

  /** The configuration never changes. */
  lemma StepKeepsSizes(s: State, a: Action)
    requires Enabled(s, a)
    ensures var r := Do(s, a); r.length == s.length && r.threshold == s.threshold && |r.pc| == |s.pc|
  {
  }

  lemma {:induction false} RunKeepsInv(states: seq<State>, actions: seq<Action>, n: nat, length: seq<nat>,
                                       threshold: nat, i: nat)
    requires IsRun(states, actions, n, length, threshold) && i < |states|
    ensures Inv(states[i]) && states[i].length == length && states[i].threshold == threshold && |states[i].pc| == n
  {
    hide Do, Enabled;
    if i > 0 {
      RunKeepsInv(states, actions, n, length, threshold, i - 1);
      assert Steps(states[i - 1], actions[i - 1], states[i]);
      StepKeepsInv(states[i - 1], actions[i - 1]);
      StepKeepsSizes(states[i - 1], actions[i - 1]);
    }
  }

  lemma ReachableHasInv(s: State, n: nat, length: seq<nat>, threshold: nat)
    requires Reachable(s, n, length, threshold)
    ensures Inv(s) && s.length == length && s.threshold == threshold && |s.pc| == n
  {
    hide Inv, Init;
    var states, actions :| IsRun(states, actions, n, length, threshold) && states[|actions|] == s;
    RunKeepsInv(states, actions, n, length, threshold, |actions|);
  }

  // ----- What it means -----------------------------------------------------------------------------------------

  /** Task t waits for queue q although it could go on, and nobody has woken it. */
  ghost predicate Forgotten(s: State, t: nat, op: Op, q: nat) {
    Ok(s) && q < |s.length| && Stuck(s, t, op, q) && !Refused(s, op, q)
  }

  /** A putter and a getter wait for each other at the same queue, and nobody has woken either. */
  predicate BothStuck(s: State, t: nat, u: nat, q: nat) {
    Stuck(s, t, Put, q) && Stuck(s, u, Get, q)
  }

  /** No getter is ever forgotten; no putter if the threshold is one less than the queue's length.  A task that waits
      without a wake-up pending is registered. */
  lemma NobodyForgotten(s: State, n: nat, length: seq<nat>, threshold: nat, t: nat, op: Op, q: nat)
    requires Reachable(s, n, length, threshold) && Stuck(s, t, op, q)
    ensures Ok(s) && q < |s.length| == |length| && s.waiters[t] == q
    ensures op.Get? || threshold == length[q] - 1 ==> Refused(s, op, q)
  {
    ReachableHasInv(s, n, length, threshold);
    assert TaskInv(s, t) && QueueOk(s.available[q], s.length[q]);
  }

  /** message_queue_invariants_check: the queue of every registered task is empty or full. */
  ghost predicate RegisteredOk(s: State, q: nat) {
    q < |s.available| == |s.length|
    && forall t: nat | t < |s.waiters| && s.waiters[t] == q :: s.available[q] == 0 || s.available[q] == s.length[q]
  }

  lemma RegisteredMeansEmptyOrFull(s: State, n: nat, length: seq<nat>, threshold: nat, q: nat)
    requires Reachable(s, n, length, threshold) && q < |length| && (threshold == length[q] - 1 || length[q] == 1)
    ensures RegisteredOk(s, q)
  {
    ReachableHasInv(s, n, length, threshold);
    assert QueueOk(s.available[q], s.length[q]);
    forall t: nat | t < |s.waiters| && s.waiters[t] == q
      ensures s.available[q] == 0 || s.available[q] == s.length[q]
    {
      assert TaskInv(s, t);
    }
  }

  lemma NeverBothStuck(s: State, n: nat, length: seq<nat>, threshold: nat, t: nat, u: nat, q: nat)
    requires Reachable(s, n, length, threshold) && q < |length| && threshold < length[q]
    ensures !BothStuck(s, t, u, q)
  {
    ReachableHasInv(s, n, length, threshold);
    if Stuck(s, t, Put, q) { assert TaskInv(s, t); }
    if Stuck(s, u, Get, q) { assert TaskInv(s, u); }
  }

  // ----- One task alone ----------------------------------------------------------------------------------------

  /** The only task: while it waits for a queue it could not go on, and it is registered only while it waits. */
  ghost predicate Alone(s: State) {
    && Ok(s) && |s.pc| == 1
    && (s.pc[0].Waiting? && s.pc[0].reason.ForQueue? ==> Refused(s, s.pc[0].reason.op, s.pc[0].reason.queue))
    && (s.waiters[0] < |s.length| ==>
          s.pc[0].Waiting? && s.pc[0].reason.ForQueue? && s.pc[0].reason.queue == s.waiters[0])
  }

  lemma AloneStep(s: State, a: Action)
    requires Alone(s) && Enabled(s, a)
    ensures Alone(Do(s, a))
  {
    if a.Resume? { assert WaitOk(|s.length|, s.pc[0]); }
    StepKeepsSizes(s, a);
    AloneOk(s, a);
  }

  lemma AloneOk(s: State, a: Action)
    requires Alone(s) && Enabled(s, a)
    ensures Ok(Do(s, a))
  {
    var r := Do(s, a);
    forall q: nat | q < |r.length| ensures QueueOk(r.available[q], r.length[q]) {
      assert QueueOk(s.available[q], s.length[q]);
    }
  }

  lemma {:induction false} AloneRun(states: seq<State>, actions: seq<Action>, length: seq<nat>, threshold: nat, i: nat)
    requires IsRun(states, actions, 1, length, threshold) && i < |states|
    ensures Alone(states[i])
  {
    if i > 0 {
      hide Do, Enabled, Alone;
      AloneRun(states, actions, length, threshold, i - 1);
      assert Steps(states[i - 1], actions[i - 1], states[i]);
      AloneStep(states[i - 1], actions[i - 1]);
    }
  }

  /** A task alone is never forgotten, never waits for itself, and satisfies the check, whatever the threshold. */
  lemma AloneIsSafe(s: State, length: seq<nat>, threshold: nat, t: nat, u: nat, op: Op, q: nat)
    requires Reachable(s, 1, length, threshold) && q < |length|
    ensures !Forgotten(s, t, op, q) && !BothStuck(s, t, u, q) && RegisteredOk(s, q)
  {
    ReachableHasInv(s, 1, length, threshold);
    var states, actions :| IsRun(states, actions, 1, length, threshold) && states[|actions|] == s;
    AloneRun(states, actions, length, threshold, |actions|);
  }

  // ----- The threshold matters ---------------------------------------------------------------------------------

  ghost predicate Configured(n: nat, length: seq<nat>, q: nat) {
    1 <= n <= TASK_ID_NONE && |length| <= MESSAGE_QUEUE_ID_NONE && q < |length|
    && forall i: nat | i < |length| :: 0 < length[i] <= 0xff
  }

  function Numbers(n: nat, x: nat): (r: seq<nat>)
    ensures |r| == n && forall i: nat | i < n :: r[i] == x
  {
    seq(n, _ => x)
  }

  const NO_SIGNALS: BitSet := {}

  /** Queue q holds k messages and no task waits. */
  function Idle(n: nat, length: seq<nat>, threshold: nat, q: nat, k: nat): State
    requires q < |length|
  {
    State(seq(n, _ => true), seq(n, _ => NO_SIGNALS), seq(n, _ => Outside), Numbers(n, MESSAGE_QUEUE_ID_NONE), 0,
          length, Numbers(|length|, 0)[q := k], threshold)
  }

  /** The same with task t waiting at queue q. */
  function With(s: State, t: nat, op: Op, q: nat): State
    requires t < |s.pc| == |s.runnable| == |s.waiters|
  {
    s.(runnable := s.runnable[t := false], waiters := s.waiters[t := q],
       pc := s.pc[t := Waiting(ForQueue(op, q), {TASK_TIMER}, Forever)])
  }

  lemma ReachStep(s: State, n: nat, length: seq<nat>, threshold: nat, a: Action) returns (r: State)
    requires Reachable(s, n, length, threshold) && Enabled(s, a)
    ensures r == Do(s, a) && Reachable(r, n, length, threshold)
  {
    hide Init, Enabled, Do;
    r := Do(s, a);
    var states, actions :| IsRun(states, actions, n, length, threshold) && states[|actions|] == s;
    var states', actions' := states + [r], actions + [a];
    forall i: nat | i < |actions'| ensures Steps(states'[i], actions'[i], states'[i + 1]) {
      if i < |actions| { assert actions'[i] == actions[i]; } else { assert Steps(s, a, r); }
    }
    assert IsRun(states', actions', n, length, threshold) && states'[|actions'|] == r;
  }

  lemma {:induction false} Filled(n: nat, length: seq<nat>, threshold: nat, q: nat, k: nat)
    requires Configured(n, length, q) && k <= length[q]
    ensures Reachable(Idle(n, length, threshold, q, k), n, length, threshold)
  {
    var s := Idle(n, length, threshold, q, k);
    if k == 0 {
      var actions: seq<Action> := [];
      assert IsRun([s], actions, n, length, threshold) && [s][|actions|] == s;
    } else {
      Filled(n, length, threshold, q, k - 1);
      var r := ReachStep(Idle(n, length, threshold, q, k - 1), n, length, threshold, Try(0, Put, q));
      assert r.available == s.available && r.waiters == s.waiters && r.signals == s.signals && r.runnable == s.runnable;
      assert r == s;
    }
  }

  /** A full queue with one task waiting to put, of which all but k messages are got, passes no wake-up as long as k is
      above the threshold, or the threshold is never met. */
  lemma {:induction false} Drained(n: nat, length: seq<nat>, threshold: nat, q: nat, k: nat)
    requires Configured(n, length, q) && 2 <= n && k <= length[q] && (threshold < k || threshold >= length[q])
    ensures Reachable(With(Idle(n, length, threshold, q, k), 1, Put, q), n, length, threshold)
    decreases length[q] - k
  {
    var s := With(Idle(n, length, threshold, q, k), 1, Put, q);
    if k == length[q] {
      Filled(n, length, threshold, q, k);
      var r := ReachStep(Idle(n, length, threshold, q, k), n, length, threshold, Call(1, Put, q, Forever));
      assert r.available == s.available && r.waiters == s.waiters && r.signals == s.signals && r.runnable == s.runnable;
      assert r == s;
    } else {
      Drained(n, length, threshold, q, k + 1);
      var r := ReachStep(With(Idle(n, length, threshold, q, k + 1), 1, Put, q), n, length, threshold, Try(0, Get, q));
      assert r.available == s.available;
      assert r == s;
    }
  }

  lemma PutterForgotten(n: nat, length: seq<nat>, threshold: nat, q: nat) returns (s: State)
    requires Configured(n, length, q) && 2 <= n && threshold != length[q] - 1
    ensures Reachable(s, n, length, threshold) && Forgotten(s, 1, Put, q)
    ensures length[q] > 1 ==> !RegisteredOk(s, q)
  {
    Drained(n, length, threshold, q, length[q] - 1);
    s := With(Idle(n, length, threshold, q, length[q] - 1), 1, Put, q);
    ReachableHasInv(s, n, length, threshold);
    assert s.waiters[1] == q && s.available[q] == length[q] - 1;
  }

  lemma PutterAndGetterStuck(n: nat, length: seq<nat>, threshold: nat, q: nat) returns (s: State)
    requires Configured(n, length, q) && 2 <= n && threshold >= length[q]
    ensures Reachable(s, n, length, threshold) && BothStuck(s, 1, 0, q)
  {
    Drained(n, length, threshold, q, 0);
    s := ReachStep(With(Idle(n, length, threshold, q, 0), 1, Put, q), n, length, threshold, Call(0, Get, q, Forever));
  }

  /** No task ever waits for a queue at which it could go on, without having been woken, if and only if the threshold is
      one less than the queue's length or there is only one task; tasks that wait to get are never at risk.  With the
      threshold as written, the number of queues less one, the first means exactly the queues whose length is the
      number of queues. */
  lemma WakeupsNeedThreshold(n: nat, length: seq<nat>, threshold: nat, q: nat)
    requires Configured(n, length, q)
    ensures (forall s, t: nat, op | Reachable(s, n, length, threshold) :: !Forgotten(s, t, op, q))
            <==> threshold == length[q] - 1 || n == 1
    ensures forall s, t: nat | Reachable(s, n, length, threshold) :: !Forgotten(s, t, Get, q)
    ensures threshold == |length| - 1 ==> (threshold == length[q] - 1 <==> length[q] == |length|)
  {
    forall s, t: nat, op | Reachable(s, n, length, threshold) && Stuck(s, t, op, q)
      ensures Ok(s) && q < |s.length| && (op.Get? || threshold == length[q] - 1 || n == 1 ==> Refused(s, op, q))
    {
      NobodyForgotten(s, n, length, threshold, t, op, q);
      if n == 1 { AloneIsSafe(s, length, threshold, t, t, op, q); }
    }
    if threshold != length[q] - 1 && n > 1 {
      var s := PutterForgotten(n, length, threshold, q);
    }
  }

  /** A putter and a getter can end up waiting for each other at one queue, neither woken, if and only if the threshold
      reaches the queue's length and there are two tasks: as written, exactly at queues shorter than the number of
      queues. */
  lemma MutualWaitNeedsThreshold(n: nat, length: seq<nat>, threshold: nat, q: nat)
    requires Configured(n, length, q)
    ensures (exists s, t: nat, u: nat :: Reachable(s, n, length, threshold) && BothStuck(s, t, u, q))
            <==> threshold >= length[q] && n > 1
    ensures threshold == |length| - 1 ==> (threshold >= length[q] <==> length[q] < |length|)
  {
    if threshold >= length[q] && n > 1 {
      var s := PutterAndGetterStuck(n, length, threshold, q);
    } else {
      forall s, t: nat, u: nat | Reachable(s, n, length, threshold) ensures !BothStuck(s, t, u, q) {
        if n == 1 { AloneIsSafe(s, length, threshold, t, u, Put, q); }
        else { NeverBothStuck(s, n, length, threshold, t, u, q); }
      }
    }
  }

  /** The internal assertion on the queues of registered tasks holds in every reachable state if and only if the
      threshold is one less than the queue's length, or the queue holds one message, or there is only one task. */
  lemma AssertionNeedsThreshold(n: nat, length: seq<nat>, threshold: nat, q: nat)
    requires Configured(n, length, q)
    ensures (forall s | Reachable(s, n, length, threshold) :: RegisteredOk(s, q))
            <==> threshold == length[q] - 1 || length[q] == 1 || n == 1
  {
    if threshold == length[q] - 1 || length[q] == 1 || n == 1 {
      forall s | Reachable(s, n, length, threshold) ensures RegisteredOk(s, q) {
        if n == 1 { AloneIsSafe(s, length, threshold, 0, 0, Put, q); }
        else { RegisteredMeansEmptyOrFull(s, n, length, threshold, q); }
      }
    } else {
      var s := PutterForgotten(n, length, threshold, q);
    }
  }

  /** A registered waiter need not be blocked: any signal makes it runnable before it deregisters, whatever the
      configuration. */
  lemma WaiterMayBeRunnable(n: nat, length: seq<nat>, threshold: nat, q: nat) returns (s: State)
    requires Configured(n, length, q)
    ensures Reachable(s, n, length, threshold) && |s.waiters| == |s.runnable| == n
    ensures s.waiters[0] == q && s.runnable[0]
  {
    Filled(n, length, threshold, q, 0);
    s := ReachStep(Idle(n, length, threshold, q, 0), n, length, threshold, Call(0, Get, q, Forever));
    s := ReachStep(s, n, length, threshold, Event(0, {TASK_TIMER}));
  }

  // ----- Calls that wait ---------------------------------------------------------------------------------------

  /** Task t tests its queue: on the call, or back from a wait with the wake-up pending. */
  predicate Tests(s: State, a: Action, t: nat, op: Op, q: nat, timing: Timing) {
    || a == Call(t, op, q, timing)
    || (a == Resume(t) && t < |s.pc| == |s.signals| && s.pc[t].Waiting? && s.signals[t] * s.pc[t].requested != {}
        && s.pc[t].reason == ForQueue(op, q) && s.pc[t].timing == timing)
  }

  /** One message moves and the call returns, or none does and the call returns only when its time is over. */
  ghost predicate Outcome(s: State, r: State, t: nat, op: Op, q: nat, timing: Timing)
    requires Ok(s) && q < |s.length|
  {
    && t < |r.pc|
    && (if !Refused(s, op, q) then r.pc[t] == Outside && r.available == s.available[q := After(s.available[q], op)]
        else
          && r.available == s.available
          && (r.pc[t] == Outside <==> !StillTime(s.clock, timing))
          && (r.pc[t].Waiting? ==> r.pc[t] == Waiting(ForQueue(op, q), {TASK_TIMER}, timing)))
  }

  lemma TestOutcome(s: State, a: Action, t: nat, op: Op, q: nat, timing: Timing)
    requires Enabled(s, a) && Tests(s, a, t, op, q, timing)
    ensures q < |s.length| && Outcome(s, Do(s, a), t, op, q, timing)
  {
    if a.Resume? { assert WaitOk(|s.length|, s.pc[t]); }
  }

  function Actor(a: Action): nat {
    match a
    case Call(t, _, _, _) => t case Try(t, _, _) => t case WaitSignals(t, _) => t case PollSignals(t, _) => t
    case SendSignals(t, _, _) => t case Resume(t) => t
    case Event(_, _) => TASK_ID_NONE case Tick => TASK_ID_NONE
  }

  /** A waiting task leaves its wait only by its own resuming, and while it waits it waits for the same. */
  lemma WaitGoesOn(s: State, a: Action, t: nat)
    requires Enabled(s, a) && t < |s.pc| && s.pc[t].Waiting?
    ensures var r := Do(s, a);
            && |r.pc| == |s.pc|
            && (r.pc[t] != s.pc[t] ==> a == Resume(t))
            && (r.pc[t].Waiting? ==> r.pc[t].reason == s.pc[t].reason && r.pc[t].timing == s.pc[t].timing)
  {
  }

  /** Between states i and j of a run task t is in one call, made by action i, and at j the call has just returned. */
  ghost predicate CallOver(states: seq<State>, actions: seq<Action>, i: nat, j: nat, t: nat, call: Action)
    requires |states| == |actions| + 1
  {
    && i < j < |states| && call.Call? && call.t == t && actions[i] == call
    && (forall k: nat | i < k < j :: t < |states[k].pc| && states[k].pc[t].Waiting?)
    && t < |states[j].pc| && states[j].pc[t] == Outside
  }

  lemma {:induction false} WaitsForCall(states: seq<State>, actions: seq<Action>, n: nat, length: seq<nat>,
                                        threshold: nat, i: nat, k: nat, t: nat, call: Action)
    requires IsRun(states, actions, n, length, threshold) && i < k < |states|
    requires call.Call? && call.t == t && actions[i] == call
    requires forall l: nat | i < l <= k :: t < |states[l].pc| && states[l].pc[t].Waiting?
    ensures states[k].pc[t].reason == ForQueue(call.op, call.q) && states[k].pc[t].timing == call.timing
    decreases k
  {
    hide Do, Enabled;
    assert Steps(states[k - 1], actions[k - 1], states[k]);
    if i + 1 < k {
      WaitsForCall(states, actions, n, length, threshold, i, k - 1, t, call);
      WaitGoesOn(states[k - 1], actions[k - 1], t);
    } else {
      TestOutcome(states[i], actions[i], t, call.op, call.q, call.timing);
    }
  }

  /** put, get, put_timeout and get_timeout in every run: the step with which the call returns moves exactly one
      message, unless the call has a timeout whose time is over and its queue is full, or empty, even then; no earlier
      step of the call moves any. */
  lemma {:induction false} CallsMoveOneMessage(states: seq<State>, actions: seq<Action>, n: nat, length: seq<nat>,
                                               threshold: nat, i: nat, j: nat, t: nat, call: Action)
    requires IsRun(states, actions, n, length, threshold) && CallOver(states, actions, i, j, t, call)
    ensures var s, r := states[j - 1], states[j];
            && Ok(s) && call.q < |s.length|
            && if !Refused(s, call.op, call.q)
               then r.available == s.available[call.q := After(s.available[call.q], call.op)]
               else r.available == s.available && call.timing.Until? && !StillTime(s.clock, call.timing)
    ensures forall k: nat | i <= k < j - 1 && Actor(actions[k]) == t :: states[k + 1].available == states[k].available
  {
    hide Do, Enabled, Refused;
    forall k: nat | i <= k < j && Actor(actions[k]) == t
      ensures Ok(states[k]) && call.q < |states[k].length|
      ensures if k == j - 1 then Outcome(states[k], states[j], t, call.op, call.q, call.timing)
              else states[k + 1].available == states[k].available
    {
      CallStep(states, actions, n, length, threshold, i, j, k, t, call);
    }
    LastIsOwn(states, actions, n, length, threshold, i, j, t, call);
  }

  /** The step with which a call returns is the task's own. */
  lemma LastIsOwn(states: seq<State>, actions: seq<Action>, n: nat, length: seq<nat>, threshold: nat,
                  i: nat, j: nat, t: nat, call: Action)
    requires IsRun(states, actions, n, length, threshold) && CallOver(states, actions, i, j, t, call)
    ensures Actor(actions[j - 1]) == t
  {
    hide Do, Enabled;
    if i < j - 1 {
      assert Steps(states[j - 1], actions[j - 1], states[j]);
      WaitGoesOn(states[j - 1], actions[j - 1], t);
    }
  }

  lemma CallStep(states: seq<State>, actions: seq<Action>, n: nat, length: seq<nat>, threshold: nat,
                 i: nat, j: nat, k: nat, t: nat, call: Action)
    requires IsRun(states, actions, n, length, threshold) && CallOver(states, actions, i, j, t, call)
    requires i <= k < j && Actor(actions[k]) == t
    ensures Ok(states[k]) && call.q < |states[k].length|
    ensures if k == j - 1 then Outcome(states[k], states[j], t, call.op, call.q, call.timing)
            else states[k + 1].available == states[k].available
  {
    hide Do;
    var s, a, r := states[k], actions[k], states[k + 1];
    assert Steps(s, a, r);
    if k > i { WaitsForCall(states, actions, n, length, threshold, i, k, t, call); }
    if a.Resume? && s.signals[t] * s.pc[t].requested == {} {
      BlocksAgain(s, t);
    } else {
      TestOutcome(s, a, t, call.op, call.q, call.timing);
    }
  }

  lemma BlocksAgain(s: State, t: nat)
    requires Enabled(s, Resume(t)) && s.signals[t] * s.pc[t].requested == {}
    ensures var r := Do(s, Resume(t));
            r.pc == s.pc && r.available == s.available && WaitOk(|s.length|, s.pc[t])
  {
  }

  // ----- Timeouts ----------------------------------------------------------------------------------------------

  /** put_timeout and get_timeout in every run: as long as the deadline fits the tick counter and the counter has not
      wrapped since the call, a test that finds the queue full, or empty, returns false at or after the deadline, and
      before it waits with a timer argument between 1 and the timeout that says exactly how many ticks are left. */
  lemma TimeoutsAreKept(states: seq<State>, actions: seq<Action>, n: nat, length: seq<nat>, threshold: nat,
                        i: nat, t: nat, op: Op, q: nat, start: nat, timeout: nat)
    requires IsRun(states, actions, n, length, threshold) && i < |actions|
    requires Tests(states[i], actions[i], t, op, q, Until(start, timeout)) && timeout < UINT16_RANGE
    requires DeadlineFits(start, timeout) && SameEpoch(states[i].clock, start)
    ensures Ok(states[i]) && q < |states[i].length|
    ensures var s, r := states[i], states[i + 1];
            Refused(s, op, q) ==>
              && t < |r.pc| && r.available == s.available
              && (r.pc[t] == Outside <==> s.clock >= start + timeout)
              && (r.pc[t] != Outside ==>
                    r.pc[t] == Waiting(ForQueue(op, q), {TASK_TIMER}, Until(start, timeout))
                    && StillTime(s.clock, Until(start, timeout))
                    && 1 <= TimerArgument(s.clock, Until(start, timeout)) == start + timeout - s.clock <= timeout)
  {
    hide Do, StillTime, TimerArgument, Refused;
    assert Steps(states[i], actions[i], states[i + 1]);
    TestOutcome(states[i], actions[i], t, op, q, Until(start, timeout));
    DeadlineTest(states[i].clock, start, timeout);
  }

  // ----- The waiter array in place -----------------------------------------------------------------------------

  /** message_queue_waiters_wakeup over the kernel's arrays. */
  method WaitersWakeup(waiters: array<nat>, signals: array<BitSet>, runnable: array<bool>, q: nat, ghost s: State)
    requires Ok(s) && s.waiters == waiters[..] && s.signals == signals[..] && s.runnable == runnable[..]
    modifies waiters, signals, runnable
    ensures Wake(s, q) == s.(waiters := waiters[..], signals := signals[..], runnable := runnable[..])
  {
    var t := 0;
    while t < waiters.Length
      invariant 0 <= t <= waiters.Length
      invariant forall u | 0 <= u < t :: waiters[u] == Wake(s, q).waiters[u]
                                         && signals[u] == Wake(s, q).signals[u] && runnable[u] == Wake(s, q).runnable[u]
      invariant forall u | t <= u < waiters.Length :: waiters[u] == s.waiters[u]
                                                      && signals[u] == s.signals[u] && runnable[u] == s.runnable[u]
    {
      if waiters[t] == q {
        signals[t] := signals[t] + {TASK_TIMER};
        runnable[t] := true;
        waiters[t] := MESSAGE_QUEUE_ID_NONE;
      }
      t := t + 1;
    }
    assert waiters[..] == Wake(s, q).waiters && signals[..] == Wake(s, q).signals
           && runnable[..] == Wake(s, q).runnable;
  }
}
