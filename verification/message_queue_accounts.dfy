/** What each action of MessageQueueProtocol does to each part of the state, and the accounts that follow for whole
    runs: messages, signals, runnability, waiters and the clock, told from the list of actions. */
module MessageQueueAccounts {
  import opened Ids
  import opened Timeouts
  import opened Counting
  import opened MessageQueueProtocol

  // ----- What a step is about ----------------------------------------------------------------------------------

  /** Task t is back from yield() with a requested signal pending. */
  predicate Back(s: State, a: Action, t: nat) {
    a == Resume(t) && t < |s.pc| == |s.signals| && s.pc[t].Waiting? && s.signals[t] * s.pc[t].requested != {}
  }

  /** What the step tries to do to which queue; ForSignals when it tries nothing. */
  function Goal(s: State, a: Action): Reason {
    match a
    case Call(_, op, q, _) => ForQueue(op, q)
    case Try(_, op, q) => ForQueue(op, q)
    case Resume(t) => if Back(s, a, t) then s.pc[t].reason else ForSignals
    case _ => ForSignals
  }

  function TimingOf(s: State, a: Action): Timing {
    match a
    case Call(_, _, _, timing) => timing
    case Resume(t) => if Back(s, a, t) then s.pc[t].timing else Forever
    case _ => Forever
  }

  /** There is room to put, or a message to get. */
  predicate CanMove(s: State, op: Op, q: nat) {
    q < |s.available| == |s.length| && s.available[q] != if op.Put? then s.length[q] else 0
  }

  /** The step puts a message into queue q, or gets one from it. */
  predicate Moves(s: State, a: Action, op: Op, q: nat) {
    Goal(s, a) == ForQueue(op, q) && CanMove(s, op, q)
  }

  /** The step cannot and goes on waiting for queue q. */
  predicate Registers(s: State, a: Action, q: nat) {
    var goal := Goal(s, a);
    goal.ForQueue? && goal.queue == q && !CanMove(s, goal.op, q) && !a.Try? && StillTime(s.clock, TimingOf(s, a))
  }

  predicate RegistersSome(s: State, a: Action) {
    Goal(s, a).ForQueue? && Registers(s, a, Goal(s, a).queue)
  }

  /** The acting task's own timer is started with no ticks to wait. */
  predicate Fires(s: State, a: Action) {
    RegistersSome(s, a) && TimingOf(s, a).Until? && TimerArgument(s.clock, TimingOf(s, a)) == 0
  }

  /** Task u deregisters itself after a timed wait. */
  predicate Deregisters(s: State, a: Action, u: nat) {
    Back(s, a, u) && s.pc[u].reason.ForQueue? && s.pc[u].timing.Until?
  }

  /** The put makes the queue not empty, or the get reaches the threshold. */
  predicate WakesQueue(s: State, a: Action, q: nat) {
    || (Moves(s, a, Put, q) && s.available[q] == 0)
    || (Moves(s, a, Get, q) && s.available[q] == s.threshold + 1)
  }

  /** The step wakes task u as a registered waiter. */
  predicate WakesWaiter(s: State, a: Action, u: nat) {
    u < |s.waiters| && !Deregisters(s, a, u) && WakesQueue(s, a, s.waiters[u])
  }

  /** The signals that the step sends to task u. */
  function Sent(s: State, a: Action, u: nat): BitSet {
    match a
    case SendSignals(_, to, sent) => if to == u then sent else {}
    case Event(to, sent) => if to == u then sent else {}
    case _ => if WakesWaiter(s, a, u) || (Fires(s, a) && Actor(a) == u) then {TASK_TIMER} else {}
  }

  /** The signals that task u receives in the step, if pending. */
  function Received(s: State, a: Action, u: nat): BitSet {
    match a
    case PollSignals(t, requested) => if t == u then requested else {}
    case Resume(t) => if t == u && Back(s, a, u) then s.pc[u].requested else {}
    case _ => {}
  }

  /** The step makes task u runnable. */
  predicate Wakes(s: State, a: Action, u: nat) {
    match a
    case SendSignals(_, to, _) => to == u
    case Event(to, _) => to == u
    case _ => WakesWaiter(s, a, u)
  }

  /** Task u makes the step and is blocked at its end: it waits and no signal it waits for is pending. */
  predicate Blocks(s: State, a: Action, u: nat) {
    && u == Actor(a) && u < |s.signals|
    && match a
       case WaitSignals(_, requested) => s.signals[u] * requested == {}
       case Resume(_) => !Back(s, a, u) || (RegistersSome(s, a) && !Fires(s, a))
       case _ => RegistersSome(s, a) && TASK_TIMER !in s.signals[u] && !Fires(s, a)
  }

  // ----- The account of one step -------------------------------------------------------------------------------

  ghost predicate QueueAccount(s: State, a: Action, r: State) {
    && r.length == s.length && r.threshold == s.threshold && |r.available| == |s.available| == |s.length|
    && r.clock == s.clock + (if a == Tick then 1 else 0)
    && forall q: nat | q < |s.available| ::
         r.available[q] == if Moves(s, a, Put, q) then s.available[q] + 1
                           else if Moves(s, a, Get, q) then s.available[q] - 1 else s.available[q]
  }

  ghost predicate SameTasks(s: State, r: State) {
    && |s.signals| == |s.waiters| == |s.runnable| == |s.pc|
    && |r.signals| == |r.waiters| == |r.runnable| == |r.pc| == |s.pc|
  }

  ghost predicate TaskAccount(s: State, a: Action, r: State, u: nat)
    requires SameTasks(s, r) && u < |s.pc|
  {
    && r.signals[u] == (s.signals[u] - Received(s, a, u)) + Sent(s, a, u)
    && (r.runnable[u] <==> !Blocks(s, a, u) && (s.runnable[u] || Wakes(s, a, u)))
    && r.waiters[u] == (if u == Actor(a) && RegistersSome(s, a) then Goal(s, a).queue
                        else if WakesWaiter(s, a, u) || Deregisters(s, a, u) then MESSAGE_QUEUE_ID_NONE
                        else s.waiters[u])
  }

  ghost predicate Account(s: State, a: Action, r: State) {
    && QueueAccount(s, a, r) && SameTasks(s, r)
    && forall u: nat | u < |s.pc| :: TaskAccount(s, a, r, u)
  }

  /** What an attempt does, told from the state in which it is made. */
  ghost predicate AttemptParts(s: State, t: nat, op: Op, q: nat, timing: Timing, r: State) {
    && SameTasks(s, r) && t < |s.pc| && q < |s.available| == |s.length|
    && r.length == s.length && r.threshold == s.threshold && r.clock == s.clock
    && var can := CanMove(s, op, q);
       var wakes := can && s.available[q] == (if op.Put? then 0 else s.threshold + 1);
       var wait := !can && StillTime(s.clock, timing);
       var fires := wait && timing.Until? && TimerArgument(s.clock, timing) == 0;
       && r.available == (if !can then s.available
                          else s.available[q := if op.Put? then s.available[q] + 1 else s.available[q] - 1])
       && forall u: nat | u < |s.pc| ::
            var woken := wakes && s.waiters[u] == q;
            && r.signals[u] == s.signals[u] + (if woken || (u == t && fires) then {TASK_TIMER} else {})
            && r.runnable[u] == (if u == t && wait then fires || TASK_TIMER in s.signals[u] else s.runnable[u] || woken)
            && r.waiters[u] == (if u == t && wait then q else if woken then MESSAGE_QUEUE_ID_NONE else s.waiters[u])
  }

  lemma TimerBit(bits: BitSet)
    ensures bits * {TASK_TIMER} != {} <==> TASK_TIMER in bits
  {
    if TASK_TIMER in bits { assert TASK_TIMER in bits * {TASK_TIMER}; }
  }

  lemma AttemptHasParts(s: State, t: nat, op: Op, q: nat, timing: Timing)
    requires Ok(s) && t < |s.pc| && q < |s.length|
    ensures AttemptParts(s, t, op, q, timing, Attempt(s, t, op, q, timing))
  {
    hide StillTime, TimerArgument;
    assert QueueOk(s.available[q], s.length[q]);
    if !CanMove(s, op, q) && StillTime(s.clock, timing) {
      var r := Attempt(s, t, op, q, timing);
      TimerBit(r.signals[t]);
    }
  }

  lemma CallAccount(s: State, a: Action)
    requires Enabled(s, a) && a.Call?
    ensures Account(s, a, Do(s, a))
  {
    hide StillTime, TimerArgument, Attempt;
    AttemptHasParts(s, a.t, a.op, a.q, a.timing);
  }

  lemma TryAccount(s: State, a: Action)
    requires Enabled(s, a) && a.Try?
    ensures Account(s, a, Do(s, a))
  {
    assert QueueOk(s.available[a.q], s.length[a.q]);
  }

  lemma SignalAccount(s: State, a: Action)
    requires Enabled(s, a) && (a.WaitSignals? || a.PollSignals? || a.SendSignals? || a.Event? || a.Tick?)
    ensures Account(s, a, Do(s, a))
  {
  }

  lemma BackAccount(s: State, a: Action)
    requires Enabled(s, a) && a.Resume? && Back(s, a, a.t) && s.pc[a.t].reason.ForQueue?
    ensures Account(s, a, Do(s, a))
  {
    hide StillTime, TimerArgument, Attempt;
    var p := s.pc[a.t];
    assert WaitOk(|s.length|, p);
    var w := Woken(s, a.t);
    AttemptHasParts(w, a.t, p.reason.op, p.reason.queue, p.timing);
    var r := Do(s, a);
    assert QueueAccount(s, a, r);
    forall u: nat | u < |s.pc| ensures TaskAccount(s, a, r, u) {}
  }

  lemma OtherResumeAccount(s: State, a: Action)
    requires Enabled(s, a) && a.Resume? && !(Back(s, a, a.t) && s.pc[a.t].reason.ForQueue?)
    ensures Account(s, a, Do(s, a))
  {
  }

  /** One step: each part of the state is what it was, changed by what the action moves, sends, receives, registers,
      wakes and blocks. */
  lemma {:induction false} StepAccount(s: State, a: Action)
    requires Enabled(s, a)
    ensures Account(s, a, Do(s, a))
  {
    hide Enabled, Do, Account;
    match a
    case Call(_, _, _, _) => CallAccount(s, a);
    case Try(_, _, _) => TryAccount(s, a);
    case Resume(t) =>
      if Back(s, a, t) && s.pc[t].reason.ForQueue? { BackAccount(s, a); } else { OtherResumeAccount(s, a); }
    case _ => SignalAccount(s, a);
  }

  lemma RunAccount(states: seq<State>, actions: seq<Action>, n: nat, length: seq<nat>, threshold: nat, i: nat)
    requires IsRun(states, actions, n, length, threshold) && i < |actions|
    ensures |states| == |actions| + 1 && |states[i].pc| == n && Account(states[i], actions[i], states[i + 1])
  {
    RunKeepsInv(states, actions, n, length, threshold, i);
    assert Steps(states[i], actions[i], states[i + 1]);
    hide Inv, Enabled, Do, Account;
    StepAccount(states[i], actions[i]);
  }

  lemma StartsIdle(states: seq<State>, actions: seq<Action>, n: nat, length: seq<nat>, threshold: nat)
    requires IsRun(states, actions, n, length, threshold)
    ensures |states| == |actions| + 1
    ensures var s := states[0];
            && |s.pc| == |s.signals| == |s.runnable| == |s.waiters| == n && s.length == length
            && |s.available| == |length| <= MESSAGE_QUEUE_ID_NONE && s.threshold == threshold
            && (forall q: nat | q < |s.available| :: s.available[q] == 0)
            && forall u: nat | u < n :: s.signals[u] == {} && s.runnable[u] && s.waiters[u] == MESSAGE_QUEUE_ID_NONE
  {
  }

  lemma RunTaskAccount(states: seq<State>, actions: seq<Action>, n: nat, length: seq<nat>, threshold: nat,
                       i: nat, u: nat)
    requires IsRun(states, actions, n, length, threshold) && i < |actions| && u < n
    ensures |states| == |actions| + 1
    ensures SameTasks(states[i], states[i + 1]) && |states[i].pc| == n
    ensures TaskAccount(states[i], actions[i], states[i + 1], u)
  {
    hide IsRun, TaskAccount;
    RunAccount(states, actions, n, length, threshold, i);
  }

  // ----- Messages and the clock, counted -----------------------------------------------------------------------

  /** A message is put into queue q, or got from it. */
  ghost function MoveSteps(states: seq<State>, actions: seq<Action>, op: Op, q: nat): nat -> bool {
    (i: nat) => i < |actions| && i < |states| && Moves(states[i], actions[i], op, q)
  }

  ghost function TickSteps(actions: seq<Action>): nat -> bool {
    (i: nat) => i < |actions| && actions[i] == Tick
  }

  /** No message is lost or made up: a queue holds as many messages as puts went through less the gets that did, counted
      from the actions of the run.  The clock counts the ticks. */
  lemma {:induction false} MessageLedger(states: seq<State>, actions: seq<Action>, n: nat, length: seq<nat>,
                                         threshold: nat, i: nat, q: nat)
    requires IsRun(states, actions, n, length, threshold) && i < |states| && q < |length|
    ensures |states[i].available| == |length|
    ensures Count(i, MoveSteps(states, actions, Put, q))
            == Count(i, MoveSteps(states, actions, Get, q)) + states[i].available[q]
    ensures states[i].clock == states[0].clock + Count(i, TickSteps(actions))
  {
    hide IsRun, Goal, TaskAccount;
    StartsIdle(states, actions, n, length, threshold);
    if i > 0 {
      MessageLedger(states, actions, n, length, threshold, i - 1, q);
      RunAccount(states, actions, n, length, threshold, i - 1);
      assert QueueAccount(states[i - 1], actions[i - 1], states[i]);
    }
  }

  // ----- Signals and blocked tasks -----------------------------------------------------------------------------

  ghost function PendingAt(states: seq<State>, u: nat, b: nat): nat -> bool {
    (i: nat) => i < |states| && u < |states[i].signals| && b in states[i].signals[u]
  }

  ghost function SendSteps(states: seq<State>, actions: seq<Action>, u: nat, b: nat): nat -> bool {
    (i: nat) => i < |actions| && i < |states| && b in Sent(states[i], actions[i], u)
  }

  ghost function ReceiveSteps(states: seq<State>, actions: seq<Action>, u: nat, b: nat): nat -> bool {
    (i: nat) => i < |actions| && i < |states| && b in Received(states[i], actions[i], u)
  }

  /** Exactly the bits are pending for a task that some step sent to it and that it has not received since: sent by a
      task, an interrupt event or a timer, or by the put or get that wakes the tasks registered for its queue. */
  lemma {:induction false} SignalsPendIffSent(states: seq<State>, actions: seq<Action>, n: nat, length: seq<nat>,
                                              threshold: nat, i: nat, u: nat, b: nat)
    requires IsRun(states, actions, n, length, threshold) && i < |states| && u < n
    ensures u < |states[i].signals|
    ensures b in states[i].signals[u]
            <==> Since(i, SendSteps(states, actions, u, b), ReceiveSteps(states, actions, u, b))
  {
    hide IsRun, Since, Sent, Received, WakesWaiter, Deregisters, Blocks;
    StartsIdle(states, actions, n, length, threshold);
    var on, sets, resets :=
      PendingAt(states, u, b), SendSteps(states, actions, u, b), ReceiveSteps(states, actions, u, b);
    if i > 0 { RunTaskAccount(states, actions, n, length, threshold, i - 1, u); }
    forall k: nat | k < i ensures on(k + 1) <==> sets(k) || (on(k) && !resets(k)) {
      RunTaskAccount(states, actions, n, length, threshold, k, u);
    }
    OnIffSetSince(i, on, sets, resets);
  }

  ghost function BlockedAt(states: seq<State>, u: nat): nat -> bool {
    (i: nat) => i < |states| && u < |states[i].runnable| && !states[i].runnable[u]
  }

  ghost function BlockSteps(states: seq<State>, actions: seq<Action>, u: nat): nat -> bool {
    (i: nat) => i < |actions| && i < |states| && Blocks(states[i], actions[i], u)
  }

  ghost function WakeSteps(states: seq<State>, actions: seq<Action>, u: nat): nat -> bool {
    (i: nat) => i < |actions| && i < |states| && Wakes(states[i], actions[i], u)
  }

  /** A task is blocked exactly when it blocked itself, in a wait without a requested signal pending, and nothing has
      woken it since: a signal sent to it, or a put or get that wakes the tasks registered for its queue. */
  lemma {:induction false} BlockedIffNotWoken(states: seq<State>, actions: seq<Action>, n: nat, length: seq<nat>,
                                              threshold: nat, i: nat, u: nat)
    requires IsRun(states, actions, n, length, threshold) && i < |states| && u < n
    ensures u < |states[i].runnable|
    ensures !states[i].runnable[u]
            <==> Since(i, BlockSteps(states, actions, u), WakeSteps(states, actions, u))
  {
    hide IsRun, Since, Sent, Received, Blocks, Wakes, WakesWaiter, Deregisters, RegistersSome;
    StartsIdle(states, actions, n, length, threshold);
    var on, sets, resets := BlockedAt(states, u), BlockSteps(states, actions, u), WakeSteps(states, actions, u);
    if i > 0 { RunTaskAccount(states, actions, n, length, threshold, i - 1, u); }
    forall k: nat | k < i ensures on(k + 1) <==> sets(k) || (on(k) && !resets(k)) {
      RunTaskAccount(states, actions, n, length, threshold, k, u);
    }
    OnIffSetSince(i, on, sets, resets);
  }

  /** A signal sent by a task, an interrupt event or a timer reaches its task, makes it runnable, and changes no other
      task's signals or runnability. */
  lemma SendsReachTheirTask(states: seq<State>, actions: seq<Action>, n: nat, length: seq<nat>, threshold: nat, i: nat)
    requires IsRun(states, actions, n, length, threshold) && i < |actions|
    requires actions[i].SendSignals? || actions[i].Event?
    ensures var s, a, r := states[i], actions[i], states[i + 1];
            && a.to < |s.signals| == |s.runnable|
            && r.signals == s.signals[a.to := s.signals[a.to] + a.sent] && r.runnable == s.runnable[a.to := true]
            && r.waiters == s.waiters && r.available == s.available
  {
    RunKeepsInv(states, actions, n, length, threshold, i);
    assert Steps(states[i], actions[i], states[i + 1]);
    hide IsRun;
    var s, a, r := states[i], actions[i], states[i + 1];
    StepAccount(s, a);
    assert r.signals == s.signals[a.to := s.signals[a.to] + a.sent];
  }

  // ----- Waiters -----------------------------------------------------------------------------------------------

  ghost function WaiterAt(states: seq<State>, u: nat, q: nat): nat -> bool {
    (i: nat) => i < |states| && u < |states[i].waiters| && states[i].waiters[u] == q
  }

  ghost function RegisterSteps(states: seq<State>, actions: seq<Action>, u: nat, q: nat): nat -> bool {
    (i: nat) => i < |actions| && i < |states| && Actor(actions[i]) == u && Registers(states[i], actions[i], q)
  }

  /** Task u is deregistered by a put or get that wakes the waiters of q, deregisters itself after a timed wait, or
      registers for another queue. */
  ghost function ReleaseSteps(states: seq<State>, actions: seq<Action>, u: nat, q: nat): nat -> bool {
    (i: nat) => i < |actions| && i < |states| && (
      WakesQueue(states[i], actions[i], q) || Deregisters(states[i], actions[i], u)
      || (Actor(actions[i]) == u && RegistersSome(states[i], actions[i])))
  }

  lemma WaiterStep(states: seq<State>, actions: seq<Action>, n: nat, length: seq<nat>, threshold: nat,
                   k: nat, u: nat, q: nat)
    requires IsRun(states, actions, n, length, threshold) && k < |actions| && u < n && q != MESSAGE_QUEUE_ID_NONE
    ensures WaiterAt(states, u, q)(k + 1)
            <==> RegisterSteps(states, actions, u, q)(k)
                 || (WaiterAt(states, u, q)(k) && !ReleaseSteps(states, actions, u, q)(k))
  {
    hide IsRun, Registers, Sent, Received, Blocks, Wakes, WakesQueue, Deregisters, Goal;
    RunTaskAccount(states, actions, n, length, threshold, k, u);
    RegistersOne(states[k], actions[k], q);
  }

  lemma RegistersOne(s: State, a: Action, q: nat)
    ensures Registers(s, a, q) <==> RegistersSome(s, a) && Goal(s, a).queue == q
    ensures RegistersSome(s, a) && Goal(s, a).queue < |s.available| == |s.length| ==>
              !WakesQueue(s, a, Goal(s, a).queue)
  {
  }

  /** A task is registered for a queue exactly when it went to wait for it, finding it full or empty, and since then
      neither a waking put or get has come nor has the task's own timed wait ended or the task gone to wait again. */
  lemma {:induction false} WaiterIff(states: seq<State>, actions: seq<Action>, n: nat, length: seq<nat>,
                                     threshold: nat, i: nat, u: nat, q: nat)
    requires IsRun(states, actions, n, length, threshold) && i < |states| && u < n && q != MESSAGE_QUEUE_ID_NONE
    ensures u < |states[i].waiters|
    ensures states[i].waiters[u] == q
            <==> Since(i, RegisterSteps(states, actions, u, q), ReleaseSteps(states, actions, u, q))
  {
    hide IsRun, Since, Registers, RegistersSome, WakesQueue, Deregisters, TaskAccount;
    StartsIdle(states, actions, n, length, threshold);
    var on, sets, resets := WaiterAt(states, u, q), RegisterSteps(states, actions, u, q),
                            ReleaseSteps(states, actions, u, q);
    if i > 0 { RunTaskAccount(states, actions, n, length, threshold, i - 1, u); }
    forall k: nat | k < i ensures on(k + 1) <==> sets(k) || (on(k) && !resets(k)) {
      WaiterStep(states, actions, n, length, threshold, k, u, q);
    }
    OnIffSetSince(i, on, sets, resets);
  }
}
