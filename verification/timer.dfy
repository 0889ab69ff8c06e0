/** Timers (components/timer): 16-bit expiries against the tick counter. */
module Timers {
  import opened Ids
  import opened Modular

  const ERROR_ID_NONE: nat := 0

  /** struct timer.  A reload of 0 means that the timer is not periodic. */
  datatype Timer = Timer(enabled: bool, overflow: bool, expiry: nat, reload: nat,
                         errorId: nat, task: nat, signalSet: BitSet)

  predicate TimerOk(tm: Timer, tasks: nat) {
    tm.expiry < UINT16_RANGE && tm.reload < UINT16_RANGE && (tm.errorId == ERROR_ID_NONE ==> tm.task < tasks)
  }

  /** timer_expired at the tick whose count, without bound, is now. */
  predicate Expired(tm: Timer, now: nat) {
    tm.enabled && tm.expiry == now % UINT16_RANGE
  }

  /** What timer_process_one does to a timer, given the signals pending for its task. */
  function Processed(tm: Timer, pending: BitSet): Timer {
    var done := if tm.reload > 0 then tm.(expiry := (tm.expiry + tm.reload) % UINT16_RANGE) else tm.(enabled := false);
    if tm.signalSet <= pending then done.(overflow := true) else done
  }

  lemma ProcessedFields(tm: Timer, pending: BitSet)
    ensures Processed(tm, pending) == tm.(
              enabled := tm.enabled && tm.reload > 0,
              expiry := if tm.reload > 0 then (tm.expiry + tm.reload) % UINT16_RANGE else tm.expiry,
              overflow := tm.overflow || tm.signalSet <= pending)
  {
  }

  /** timer_remaining: the difference as 16 bits. */
  function Remaining(tm: Timer, now: nat): nat {
    if tm.enabled then (tm.expiry - now % UINT16_RANGE) % UINT16_RANGE else 0
  }

  // ----- Exactness ---------------------------------------------------------------------------------------------

  predicate SameSchedule(a: Timer, b: Timer) {
    a.enabled == b.enabled && a.expiry == b.expiry && a.reload == b.reload
  }

  /** What tick now does to a timer, but for the overflow flag. */
  function Ticked(tm: Timer, now: nat): Timer {
    if Expired(tm, now) then Processed(tm, {}) else tm
  }

  /** The timer over consecutive ticks from start on, left alone by tasks: each tick only processes it if it has
      expired; which signals are pending then is open. */
  ghost predicate LeftAlone(tms: seq<Timer>, start: nat) {
    |tms| > 0 && forall j: nat | j + 1 < |tms| :: TicksAt(tms, start, j)
  }

  predicate TicksAt(tms: seq<Timer>, start: nat, j: nat)
    requires j + 1 < |tms|
  {
    SameSchedule(tms[j + 1], Ticked(tms[j], start + j + 1))
  }

  /** The low 16 bits of the low 32 bits are the low 16 bits. */
  lemma LowBits(n: nat)
    ensures (n % UINT32_RANGE) % UINT16_RANGE == n % UINT16_RANGE
  {
    var q, r := n / UINT32_RANGE, n % UINT32_RANGE;
    assert n == (q * UINT16_RANGE + r / UINT16_RANGE) * UINT16_RANGE + r % UINT16_RANGE;
    ModUnique(n, q * UINT16_RANGE + r / UINT16_RANGE, r % UINT16_RANGE, UINT16_RANGE);
  }

  /** Two counts less than the 16-bit range apart agree in 16 bits only if they are equal, and their 16-bit difference
      is their difference. */
  lemma WordDistance(a: nat, b: nat)
    requires a <= b < a + UINT16_RANGE
    ensures a % UINT16_RANGE == b % UINT16_RANGE <==> a == b
    ensures (b % UINT16_RANGE - a % UINT16_RANGE) % UINT16_RANGE == b - a
  {
  }

  lemma NextRemainder(j: nat, n: nat)
    requires 0 < n
    ensures (j + 1) % n == if j % n == n - 1 then 0 else j % n + 1
  {
    SuccessorAt(j, j / n, j % n, n);
  }

  /** One tick of a timer that has left ticks to go. */
  lemma CountsDown(tm: Timer, now: nat, left: nat)
    requires tm.enabled && 0 < left < UINT16_RANGE && tm.expiry == (now + left) % UINT16_RANGE
    ensures Remaining(tm, now) == left && (Expired(tm, now + 1) <==> left == 1)
    ensures left == 1 && tm.reload > 0 ==> Processed(tm, {}).expiry == (now + 1 + tm.reload) % UINT16_RANGE
  {
    WordDistance(now, now + left);
    WordDistance(now + 1, now + left);
    ModSum(now + left, tm.reload);
  }

  lemma ModSum(a: nat, b: nat)
    ensures (a % UINT16_RANGE + b) % UINT16_RANGE == (a + b) % UINT16_RANGE
  {
  }

  /** The ticks left to the next expiry, j ticks after a period of r began. */
  function Left(j: nat, r: nat): (left: nat)
    requires 0 < r
    ensures 0 < left <= r
  {
    if j == 0 then r else if Left(j - 1, r) == 1 then r else Left(j - 1, r) - 1
  }

  lemma {:induction false} LeftIsRemainder(j: nat, r: nat)
    requires 0 < r
    ensures Left(j, r) == r - j % r
  {
    if j == 0 {
      ModUnique(0, 0, 0, r);
    } else {
      LeftIsRemainder(j - 1, r);
      NextRemainder(j - 1, r);
    }
  }

  lemma {:induction false} PeriodicCountsDown(tms: seq<Timer>, start: nat, j: nat)
    requires LeftAlone(tms, start) && j < |tms| && 0 < tms[0].reload < UINT16_RANGE
    requires tms[0].enabled && tms[0].expiry == (start + tms[0].reload) % UINT16_RANGE
    ensures tms[j].enabled && tms[j].reload == tms[0].reload
    ensures tms[j].expiry == (start + j + Left(j, tms[0].reload)) % UINT16_RANGE
  {
    if j > 0 {
      PeriodicCountsDown(tms, start, j - 1);
      CountsDown(tms[j - 1], start + j - 1, Left(j - 1, tms[0].reload));
      assert TicksAt(tms, start, j - 1);
    }
  }

  /** A periodic timer enabled at tick start with a reload of r expires at start + r, start + 2r, ... and at no other
      tick, however often the 16-bit expiry and the tick counter wrap; timer_remaining always tells the ticks left. */
  lemma PeriodicIsExact(tms: seq<Timer>, start: nat, j: nat)
    requires LeftAlone(tms, start) && j < |tms| && 0 < tms[0].reload < UINT16_RANGE
    requires tms[0].enabled && tms[0].expiry == (start + tms[0].reload) % UINT16_RANGE
    ensures var r := tms[0].reload;
            && tms[j].enabled && tms[j].reload == r
            && Remaining(tms[j], start + j) == r - j % r
            && (Expired(tms[j], start + j + 1) <==> (j + 1) % r == 0)
  {
    hide Remaining, Expired, Processed, LeftAlone;
    PeriodicCountsDown(tms, start, j);
    CountsDown(tms[j], start + j, Left(j, tms[0].reload));
    LeftIsRemainder(j, tms[0].reload);
    NextRemainder(j, tms[0].reload);
  }

  /** timer_oneshot with a timeout of r ticks at tick start: it expires at start + r and never again. */
  lemma {:induction false} OneShotIsExact(tms: seq<Timer>, start: nat, r: nat, j: nat)
    requires LeftAlone(tms, start) && j < |tms| && 0 < r < UINT16_RANGE
    requires tms[0].enabled && tms[0].reload == 0 && tms[0].expiry == (start + r) % UINT16_RANGE
    ensures (tms[j].enabled <==> j < r) && tms[j].reload == 0
    ensures tms[j].enabled ==> tms[j].expiry == tms[0].expiry
    ensures Remaining(tms[j], start + j) == if j < r then r - j else 0
    ensures Expired(tms[j], start + j + 1) <==> j + 1 == r
  {
    if j > 0 {
      OneShotIsExact(tms, start, r, j - 1);
      assert TicksAt(tms, start, j - 1);
    }
    if j < r {
      WordDistance(start + j, start + r);
      WordDistance(start + j + 1, start + r);
    }
  }

  // ----- The timers of a system --------------------------------------------------------------------------------

  /** The signals pending for task t when it is the turn of timer i at tick now: those pending before the tick and
      those of the timers before i that expire at this tick. */
  function Pending(timers: seq<Timer>, signals: seq<BitSet>, now: nat, i: nat, t: nat): BitSet
    requires i <= |timers| && t < |signals|
  {
    if i == 0 then signals[t]
    else Pending(timers, signals, now, i - 1, t)
         + if Expired(timers[i - 1], now) && timers[i - 1].task == t then timers[i - 1].signalSet else {}
  }

  /** Bit b is pending for task t before the tick, or one of the first i timers that expire at it sends it. */
  ghost predicate Sends(timers: seq<Timer>, signals: seq<BitSet>, now: nat, i: nat, t: nat, b: nat)
    requires i <= |timers| && t < |signals|
  {
    || b in signals[t]
    || exists k: nat :: k < i && Expired(timers[k], now) && timers[k].task == t && b in timers[k].signalSet
  }

  lemma {:induction false} PendingMeaning(timers: seq<Timer>, signals: seq<BitSet>, now: nat, i: nat, t: nat, b: nat)
    requires i <= |timers| && t < |signals|
    ensures b in Pending(timers, signals, now, i, t) <==>
            Sends(timers, signals, now, i, t, b)
  {
    if i > 0 { PendingMeaning(timers, signals, now, i - 1, t, b); }
  }

  /** Timer i after tick now has been processed for it and those before it. */
  function AfterTick(timers: seq<Timer>, signals: seq<BitSet>, now: nat, i: nat): Timer
    requires i < |timers| && TimerOk(timers[i], |signals|)
  {
    if Expired(timers[i], now) && timers[i].errorId == ERROR_ID_NONE
    then Processed(timers[i], Pending(timers, signals, now, i, timers[i].task)) else timers[i]
  }

  /** Timer i after tick now, field by field: an expired one is due a reload later or disabled, and its overflow flag is
      raised if all its signals were pending at its turn. */
  ghost predicate TickedTimer(was: seq<Timer>, sent: seq<BitSet>, now: nat, i: nat, tm: Timer)
    requires i < |was| && TimerOk(was[i], |sent|) && was[i].task < |sent|
  {
    && tm.task == was[i].task && tm.signalSet == was[i].signalSet
    && tm.reload == was[i].reload && tm.errorId == was[i].errorId
    && (tm.enabled <==> was[i].enabled && (Expired(was[i], now) ==> was[i].reload > 0))
    && tm.expiry == (if Expired(was[i], now) && was[i].reload > 0
                     then (was[i].expiry + was[i].reload) % UINT16_RANGE else was[i].expiry)
    && (tm.overflow <==>
          was[i].overflow
          || (Expired(was[i], now) && forall b | b in was[i].signalSet :: Sends(was, sent, now, i, was[i].task, b)))
  }

  /** What a tick does to all timers and signals. */
  ghost predicate TickEffect(was: seq<Timer>, sent: seq<BitSet>, now: nat, timers: seq<Timer>, signals: seq<BitSet>) {
    && |timers| == |was| && |signals| == |sent|
    && (forall i: nat | i < |was| ::
          TimerOk(was[i], |sent|)
          && (if was[i].errorId == ERROR_ID_NONE then TickedTimer(was, sent, now, i, timers[i])
              else !Expired(was[i], now) && timers[i] == was[i]))
    && forall t: nat, b: nat | t < |sent| :: b in signals[t] <==> Sends(was, sent, now, |was|, t, b)
  }

  /** At tick now the loop has processed the timers before id: none of them was fatal, and what they sent is pending. */
  ghost predicate TickedUpTo(was: seq<Timer>, sent: seq<BitSet>, now: nat, id: nat,
                             timers: seq<Timer>, signals: seq<BitSet>) {
    && id <= |was| == |timers| && |sent| == |signals|
    && (forall i: nat | i < |was| :: TimerOk(was[i], |sent|))
    && (forall i: nat | i < id :: timers[i] == AfterTick(was, sent, now, i)
                                  && (Expired(was[i], now) ==> was[i].errorId == ERROR_ID_NONE))
    && (forall i: nat | id <= i < |was| :: timers[i] == was[i])
    && forall t: nat | t < |sent| :: signals[t] == Pending(was, sent, now, id, t)
  }

  /** One round of the loop. */
  lemma TickNext(was: seq<Timer>, sent: seq<BitSet>, now: nat, id: nat, timers: seq<Timer>, signals: seq<BitSet>)
    requires TickedUpTo(was, sent, now, id, timers, signals) && id < |was|
    ensures timers[id] == was[id] && TimerOk(was[id], |signals|)
    ensures !Expired(was[id], now) ==> TickedUpTo(was, sent, now, id + 1, timers, signals)
    ensures Expired(was[id], now) && was[id].errorId == ERROR_ID_NONE ==>
              TickedUpTo(was, sent, now, id + 1, timers[id := Processed(was[id], signals[was[id].task])],
                         signals[was[id].task := signals[was[id].task] + was[id].signalSet])
  {
    hide Processed;
  }

  lemma AfterTickFields(was: seq<Timer>, sent: seq<BitSet>, now: nat, i: nat)
    requires i < |was| && TimerOk(was[i], |sent|) && was[i].errorId == ERROR_ID_NONE
    ensures TickedTimer(was, sent, now, i, AfterTick(was, sent, now, i))
    ensures TimerOk(AfterTick(was, sent, now, i), |sent|)
  {
    hide Sends, Pending;
    forall b: nat ensures b in Pending(was, sent, now, i, was[i].task) <==> Sends(was, sent, now, i, was[i].task, b) {
      PendingMeaning(was, sent, now, i, was[i].task, b);
    }
  }

  lemma TickedTimers(was: seq<Timer>, sent: seq<BitSet>, now: nat, timers: seq<Timer>, signals: seq<BitSet>)
    requires TickedUpTo(was, sent, now, |was|, timers, signals)
    ensures |timers| == |was| && |signals| == |sent|
    ensures forall i: nat | i < |was| :: TimerOk(timers[i], |sent|)
    ensures forall i: nat | i < |was| && Expired(was[i], now) :: was[i].errorId == ERROR_ID_NONE
    ensures TickEffect(was, sent, now, timers, signals)
  {
    hide Sends, TickedTimer, Pending, Processed;
    forall i: nat | i < |was|
      ensures TimerOk(timers[i], |sent|)
      ensures was[i].errorId == ERROR_ID_NONE ==> TickedTimer(was, sent, now, i, timers[i])
    {
      if was[i].errorId == ERROR_ID_NONE { AfterTickFields(was, sent, now, i); }
    }
    forall t: nat, b: nat | t < |sent| ensures b in signals[t] <==> Sends(was, sent, now, |was|, t, b) {
      PendingMeaning(was, sent, now, |was|, t, b);
    }
  }

  lemma TickStart(was: seq<Timer>, sent: seq<BitSet>, now: nat)
    requires forall i: nat | i < |was| :: TimerOk(was[i], |sent|)
    ensures TickedUpTo(was, sent, now, 0, was, sent)
  {
  }

  // ----- Timers over a run of ticks ----------------------------------------------------------------------------

  /** What a tick finds and leaves. */
  datatype Tick = Tick(was: seq<Timer>, sent: seq<BitSet>, timers: seq<Timer>, signals: seq<BitSet>)

  /** Consecutive ticks from the one after start on.  Between two of them tasks send and receive signals and use the
      other timers; of timer id they only check the overflow flag. */
  ghost predicate TickRun(ticks: seq<Tick>, start: nat, id: nat) {
    && (forall j: nat | j < |ticks| ::
          && id < |ticks[j].was|
          && TickEffect(ticks[j].was, ticks[j].sent, start + j + 1, ticks[j].timers, ticks[j].signals))
    && forall j: nat | j + 1 < |ticks| :: Untouched(ticks, id, j)
  }

  ghost predicate Untouched(ticks: seq<Tick>, id: nat, j: nat)
    requires j + 1 < |ticks|
  {
    && id < |ticks[j].timers| && id < |ticks[j + 1].was|
    && ticks[j + 1].was[id] == ticks[j].timers[id].(overflow := ticks[j + 1].was[id].overflow)
  }

  /** The timer as the ticks find it. */
  ghost function Found(ticks: seq<Tick>, start: nat, id: nat): (tms: seq<Timer>)
    requires TickRun(ticks, start, id)
    ensures |tms| == |ticks| && forall j: nat | j < |tms| :: tms[j] == ticks[j].was[id]
  {
    seq(|ticks|, j requires 0 <= j < |ticks| => ticks[j].was[id])
  }

  lemma {:induction false} SettingsStay(ticks: seq<Tick>, start: nat, id: nat, j: nat)
    requires TickRun(ticks, start, id) && j < |ticks|
    ensures var tm, first := ticks[j].was[id], ticks[0].was[id];
            tm.task == first.task && tm.signalSet == first.signalSet && tm.errorId == first.errorId
  {
    if j > 0 {
      SettingsStay(ticks, start, id, j - 1);
      assert Untouched(ticks, id, j - 1);
    }
  }

  lemma FoundIsLeftAlone(ticks: seq<Tick>, start: nat, id: nat)
    requires TickRun(ticks, start, id) && |ticks| > 0
    ensures LeftAlone(Found(ticks, start, id), start)
  {
    var tms := Found(ticks, start, id);
    forall j: nat | j + 1 < |tms| ensures TicksAt(tms, start, j) {
      assert Untouched(ticks, id, j);
    }
  }

  /** At a tick at which the timer expires, all its signals are pending for its task afterwards, and the overflow flag
      is raised if they all were before its turn; at any other tick it changes nothing. */
  ghost predicate Delivers(ticks: seq<Tick>, start: nat, id: nat, j: nat, expires: bool)
    requires TickRun(ticks, start, id) && j < |ticks| && ticks[0].was[id].task < |ticks[j].sent|
  {
    var was, tm, first := ticks[j].was[id], ticks[j].timers[id], ticks[0].was[id];
    && (if expires
        then first.signalSet <= ticks[j].signals[first.task]
             && (tm.overflow <==>
                   was.overflow || forall b | b in first.signalSet ::
                     Sends(ticks[j].was, ticks[j].sent, start + j + 1, id, first.task, b))
        else tm == was)
  }

  lemma ExpiryDelivers(ticks: seq<Tick>, start: nat, id: nat, j: nat)
    requires TickRun(ticks, start, id) && j < |ticks| && ticks[0].was[id].errorId == ERROR_ID_NONE
    ensures ticks[0].was[id].task < |ticks[j].sent|
    ensures Delivers(ticks, start, id, j, Expired(ticks[j].was[id], start + j + 1))
  {
    SettingsStay(ticks, start, id, j);
    var k := ticks[j];
    var first := ticks[0].was[id];
    assert TickedTimer(k.was, k.sent, start + j + 1, id, k.timers[id]);
    if Expired(k.was[id], start + j + 1) {
      forall b | b in first.signalSet ensures b in k.signals[first.task] {
        assert Sends(k.was, k.sent, start + j + 1, |k.was|, first.task, b);
      }
    }
  }

  /** A periodic timer enabled at tick start with a reload of r sends the signals it is configured with at start + r,
      start + 2r, ... and nothing at other ticks, and keeps count of overflows. */
  lemma PeriodicDelivers(ticks: seq<Tick>, start: nat, id: nat, j: nat)
    requires TickRun(ticks, start, id) && j < |ticks| && ticks[0].was[id].errorId == ERROR_ID_NONE
    requires var tm := ticks[0].was[id];
             tm.enabled && 0 < tm.reload && tm.expiry == (start + tm.reload) % UINT16_RANGE
    ensures ticks[0].was[id].task < |ticks[j].sent|
    ensures Delivers(ticks, start, id, j, (j + 1) % ticks[0].was[id].reload == 0)
  {
    var tms := Found(ticks, start, id);
    FoundIsLeftAlone(ticks, start, id);
    assert TimerOk(tms[0], |ticks[0].sent|);
    PeriodicIsExact(tms, start, j);
    ExpiryDelivers(ticks, start, id, j);
  }

  /** A one-shot timer due in r ticks sends its signals at start + r, and nothing ever again. */
  lemma OneShotDelivers(ticks: seq<Tick>, start: nat, id: nat, j: nat, r: nat)
    requires TickRun(ticks, start, id) && j < |ticks| && ticks[0].was[id].errorId == ERROR_ID_NONE
    requires var tm := ticks[0].was[id];
             tm.enabled && tm.reload == 0 && tm.expiry == (start + r) % UINT16_RANGE && 0 < r < UINT16_RANGE
    ensures ticks[0].was[id].task < |ticks[j].sent|
    ensures Delivers(ticks, start, id, j, j + 1 == r)
  {
    var tms := Found(ticks, start, id);
    FoundIsLeftAlone(ticks, start, id);
    OneShotIsExact(tms, start, r, j);
    ExpiryDelivers(ticks, start, id, j);
  }

  // ----- The operations ----------------------------------------------------------------------------------------

  class System {
    const timers: array<Timer>
    const signals: array<BitSet>   // pending, by task
    var currentTicks: nat          // timer_current_ticks, 32 bits wide
    ghost var now: nat             // all ticks ever counted

    ghost predicate Valid()
      reads this, timers, signals
    {
      && currentTicks == now % UINT32_RANGE
      && timers.Length <= 0xff
      && forall i | 0 <= i < timers.Length :: TimerOk(timers[i], signals.Length)
    }

    constructor (timers: seq<Timer>, tasks: nat)
      requires |timers| <= 0xff && forall i | 0 <= i < |timers| :: TimerOk(timers[i], tasks)
      ensures Valid() && fresh(this.timers) && fresh(signals) && now == 0
      ensures this.timers[..] == timers && signals[..] == seq(tasks, _ => {})
    {
      this.timers := new Timer[|timers|](i requires 0 <= i < |timers| => timers[i]);
      this.signals := new BitSet[tasks](_ => {});
      currentTicks, now := 0, 0;
    }

    /** current_timeout */
    function CurrentTimeout(): (c: nat)
      requires Valid()
      reads this, timers, signals
      ensures c == now % UINT16_RANGE
    {
      LowBits(now);
      currentTicks % UINT16_RANGE
    }

    /** timer_process_one.  A timer with an error id ends the run: fatal. */
    method ProcessOne(id: nat) returns (fatal: bool)
      requires Valid() && id < timers.Length
      modifies timers, signals
      ensures fatal <==> old(timers[id]).errorId != ERROR_ID_NONE
      ensures !fatal ==>
                var tm := old(timers[id]);
                && Valid()
                && timers[..] == old(timers[..])[id := tm.(
                     enabled := tm.enabled && tm.reload > 0,
                     expiry := if tm.reload > 0 then (tm.expiry + tm.reload) % UINT16_RANGE else tm.expiry,
                     overflow := tm.overflow || tm.signalSet <= old(signals[tm.task]))]
                && signals[..] == old(signals[..])[tm.task := old(signals[tm.task]) + tm.signalSet]
    {
      var tm := timers[id];
      if tm.reload > 0 {
        timers[id] := timers[id].(expiry := (tm.expiry + tm.reload) % UINT16_RANGE);
      } else {
        timers[id] := timers[id].(enabled := false);
      }
      if tm.errorId != ERROR_ID_NONE {
        return true;
      }
      if tm.signalSet <= signals[tm.task] {
        timers[id] := timers[id].(overflow := true);
      }
      signals[tm.task] := signals[tm.task] + tm.signalSet;
      fatal := false;
    }

    /** timer_enable: a timer without a reload expires at once. */
    method Enable(id: nat) returns (fatal: bool)
      requires Valid() && id < timers.Length
      modifies timers, signals
      ensures fatal <==> old(timers[id]).reload == 0 && old(timers[id]).errorId != ERROR_ID_NONE
      ensures !fatal ==> Valid()
      ensures !fatal && old(timers[id]).reload == 0 ==>
                var tm := old(timers[id]);
                && timers[..] == old(timers[..])[id := tm.(
                     enabled := false, overflow := tm.overflow || tm.signalSet <= old(signals[tm.task]))]
                && signals[..] == old(signals[..])[tm.task := old(signals[tm.task]) + tm.signalSet]
      ensures old(timers[id]).reload > 0 ==>
                var tm := old(timers[id]);
                && timers[..] == old(timers[..])[id := tm.(
                     enabled := true, expiry := (now + tm.reload) % UINT16_RANGE)]
                && signals[..] == old(signals[..])
    {
      if timers[id].reload == 0 {
        fatal := ProcessOne(id);
      } else {
        ModSum(now, timers[id].reload);
        timers[id] := timers[id].(expiry := (CurrentTimeout() + timers[id].reload) % UINT16_RANGE, enabled := true);
        fatal := false;
      }
    }

    /** timer_oneshot */
    method OneShot(id: nat, timeout: nat) returns (fatal: bool)
      requires Valid() && id < timers.Length && timeout < UINT16_RANGE
      modifies timers, signals
      ensures fatal <==> timeout == 0 && old(timers[id]).errorId != ERROR_ID_NONE
      ensures !fatal ==> Valid() && forall i | 0 <= i < timers.Length && i != id :: timers[i] == old(timers[i])
      ensures timeout > 0 ==>
                && timers[id]
                   == old(timers[id]).(reload := 0, enabled := true, expiry := (now + timeout) % UINT16_RANGE)
                && signals[..] == old(signals[..])
      ensures !fatal && timeout == 0 ==>
                var tm := old(timers[id]);
                && timers[id] == tm.(
                     reload := 0, enabled := false, overflow := tm.overflow || tm.signalSet <= old(signals[tm.task]))
                && signals[..] == old(signals[..])[tm.task := old(signals[tm.task]) + tm.signalSet]
    {
      timers[id] := timers[id].(reload := timeout);
      fatal := Enable(id);
      if !fatal {
        timers[id] := timers[id].(reload := 0);
      }
    }

    /** timer_tick_process: more than one pending tick is fatal; a single one processes, in the order of their ids, the
        timers that expire at it.  Each leaves its signals pending for its task; its overflow flag is raised exactly
        when they all were pending already. */
    method TickProcess(pendingTicks: nat) returns (fatal: bool)
      requires Valid()
      modifies this`currentTicks, this`now, timers, signals
      ensures now == old(now) + if pendingTicks == 1 then 1 else 0
      ensures fatal <==> pendingTicks > 1
                         || (pendingTicks == 1 && exists i | 0 <= i < timers.Length ::
                               Expired(old(timers[i]), now) && old(timers[i]).errorId != ERROR_ID_NONE)
      ensures !fatal ==> Valid()
      ensures pendingTicks == 0 ==> timers[..] == old(timers[..]) && signals[..] == old(signals[..])
      ensures !fatal && pendingTicks == 1 ==>
                TickEffect(old(timers[..]), old(signals[..]), now, timers[..], signals[..])
    {
      if pendingTicks > 1 {
        return true;
      }
      if pendingTicks != 0 {
        currentTicks, now := (currentTicks + 1) % UINT32_RANGE, now + 1;
        fatal := ProcessTimers();
      } else {
        fatal := false;
      }
    }

    /** The loop of timer_tick_process. */
    method ProcessTimers() returns (fatal: bool)
      requires Valid()
      modifies timers, signals
      ensures fatal <==> exists i | 0 <= i < timers.Length ::
                           Expired(old(timers[i]), now) && old(timers[i]).errorId != ERROR_ID_NONE
      ensures !fatal ==>
                && Valid()
                && TickEffect(old(timers[..]), old(signals[..]), now, timers[..], signals[..])
    {
      hide Processed, AfterTick, Pending, TickedUpTo, TickEffect;
      var timeout := CurrentTimeout();
      ghost var was, sent := timers[..], signals[..];
      TickStart(was, sent, now);
      var id := 0;
      while id < timers.Length
        invariant 0 <= id <= timers.Length && Valid()
        invariant TickedUpTo(was, sent, now, id, timers[..], signals[..])
      {
        TickNext(was, sent, now, id, timers[..], signals[..]);
        ProcessedFields(timers[id], if timers[id].task < signals.Length then signals[timers[id].task] else {});
        if timers[id].enabled && timers[id].expiry == timeout {
          var stopped := ProcessOne(id);
          if stopped {
            return true;
          }
        }
        id := id + 1;
      }
      TickedTimers(was, sent, now, timers[..], signals[..]);
      fatal := false;
    }

    /** timer_remaining */
    function TimerRemaining(id: nat): (r: nat)
      requires Valid() && id < timers.Length
      reads this, timers, signals
      ensures r == Remaining(timers[id], now)
    {
      if timers[id].enabled then (timers[id].expiry - CurrentTimeout()) % UINT16_RANGE else 0
    }

    /** timer_check_overflow reads the overflow flag and clears it. */
    method CheckOverflow(id: nat) returns (r: bool)
      requires Valid() && id < timers.Length
      modifies timers
      ensures Valid() && r == old(timers[id].overflow)
      ensures timers[..] == old(timers[..])[id := old(timers[id]).(overflow := false)]
    {
      r := timers[id].overflow;
      timers[id] := timers[id].(overflow := false);
    }

    /** timer_disable */
    method Disable(id: nat)
      requires Valid() && id < timers.Length
      modifies timers
      ensures Valid() && timers[..] == old(timers[..])[id := old(timers[id]).(enabled := false)]
    {
      timers[id] := timers[id].(enabled := false);
    }
  }
}
