/** Identifier and word-size constants shared by the kernel components.

    Task, mutex, semaphore and message-queue ids are small unsigned integers; the largest value of the id
    type is the NONE value of the corresponding option type, so a system has at most 255 of each. */
module Ids {
  const TASK_ID_NONE: nat := 255
  const MUTEX_ID_NONE: nat := 255
  const SEM_ID_NONE: nat := 255
  const MESSAGE_QUEUE_ID_NONE: nat := 255

  const UINT8_RANGE: nat := 0x100
  const UINT16_RANGE: nat := 0x1_0000
  const UINT32_RANGE: nat := 0x1_0000_0000

  /** A set of signals or interrupt events: bit i of the source's word is set when i is a member. */
  type BitSet = set<nat>

  /** The bit of SIGNAL_ID__TASK_TIMER, the builtin signal on which mutexes, semaphores, message queues and sleeps
      wait.  Its position among the configured signals is irrelevant; bit 0 stands for it here. */
  const TASK_TIMER: nat := 0

  ghost predicate IsLowest(bits: BitSet, i: nat) {
    i in bits && forall j | j in bits :: i <= j
  }

  /** The lowest member, as __builtin_ffs finds the lowest set bit. */
  function Lowest(bits: BitSet): (i: nat)
    requires bits != {}
    ensures IsLowest(bits, i)
  {
    LowestExists(bits);
    var i :| i in bits && forall j | j in bits :: i <= j;
    i
  }

  lemma {:induction false} LowestExists(bits: BitSet)
    requires bits != {}
    ensures exists i :: i in bits && IsLowest(bits, i)
    decreases |bits|
  {
    var x :| x in bits;
    var rest := bits - {x};
    if rest == {} {
      assert bits == {x};
      assert IsLowest(bits, x);
    } else {
      LowestExists(rest);
      var y :| y in rest && IsLowest(rest, y);
      assert bits == rest + {x};
      assert IsLowest(bits, if x < y then x else y);
    }
  }

  /** The ids below n. */
  function Below(n: nat): (ids: set<nat>)
    ensures forall i: nat :: i in ids <==> i < n
    ensures |ids| == n
  {
    if n == 0 then {} else Below(n - 1) + {n - 1}
  }
}
