/** Deadlines of the blocking calls with a timeout: absolute_timeout in components/blocking-mutex,
    components/simple-semaphore and components/message-queue. */
module Timeouts {
  import opened Ids

  /** Without or with a timeout; `start` is the tick at which the call read the clock. */
  datatype Timing = Forever | Until(start: nat, timeout: nat)

  /** A timeout is 16 bits wide and the clock was read at or before the given tick. */
  predicate TimingOk(clock: nat, timing: Timing) {
    timing.Until? ==> timing.start <= clock && timing.timeout < UINT16_RANGE
  }

  /** absolute_timeout > timer_current_ticks, where clock counts ticks without bound. */
  predicate StillTime(clock: nat, timing: Timing) {
    timing.Until? ==> (timing.start + timing.timeout) % UINT32_RANGE > clock % UINT32_RANGE
  }

  /** The argument absolute_timeout - timer_current_ticks of the timed block, narrowed to TicksRelative. */
  function TimerArgument(clock: nat, timing: Timing): nat
    requires timing.Until? && StillTime(clock, timing)
  {
    ((timing.start + timing.timeout) % UINT32_RANGE - clock % UINT32_RANGE) % UINT16_RANGE
  }

  /** The deadline fits the 32-bit tick counter. */
  predicate DeadlineFits(start: nat, timeout: nat) {
    start % UINT32_RANGE + timeout < UINT32_RANGE
  }

  /** The tick counter has not wrapped since the call read it. */
  predicate SameEpoch(clock: nat, start: nat) {
    start <= clock && clock / UINT32_RANGE == start / UINT32_RANGE
  }

  /** While the tick counter has not wrapped since the call read it, the comparison with the clock tells the deadline
      rightly, at every tick, exactly when the deadline fits the counter; otherwise it says "over" at once. */
  lemma DeadlineTest(clock: nat, start: nat, timeout: nat)
    requires SameEpoch(clock, start) && timeout < UINT16_RANGE
    ensures clock < start + timeout ==> (StillTime(clock, Until(start, timeout)) <==> DeadlineFits(start, timeout))
    ensures clock >= start + timeout ==> !StillTime(clock, Until(start, timeout))
    ensures StillTime(clock, Until(start, timeout)) ==>
              TimerArgument(clock, Until(start, timeout)) == start + timeout - clock
              && 1 <= start + timeout - clock <= timeout
  {
    var e := start / UINT32_RANGE;
    assert start == e * UINT32_RANGE + start % UINT32_RANGE;
    assert clock == e * UINT32_RANGE + clock % UINT32_RANGE;
    if DeadlineFits(start, timeout) {
      assert start + timeout == e * UINT32_RANGE + (start % UINT32_RANGE + timeout);
    } else {
      assert start + timeout == (e + 1) * UINT32_RANGE + (start % UINT32_RANGE + timeout - UINT32_RANGE);
    }
  }
}
