/** The byte ring buffer of a message queue (components/message-queue): try_put, try_get and memcopy. */
module MessageQueue {
  import opened Ids
  import opened Modular

  newtype Byte = x: int | 0 <= x < 0x100

  lemma SlotsFit(i: nat, n: nat, size: nat)
    requires i < n <= 0xff && size <= 0xff
    ensures i * size + size <= n * size && i * size < UINT16_RANGE
  {
    assert (i + 1) * size <= n * size by { MulMonotonic(i + 1, n, size); }
    assert (i + 1) * size == i * size + size;
    assert i * size <= 0xff * size by { MulMonotonic(i, 0xff, size); }
  }

  lemma MulMonotonic(a: nat, b: nat, c: nat)
    requires a <= b
    ensures a * c <= b * c
  {
    assert (b - a) * c >= 0;
    assert b * c == a * c + (b - a) * c;
  }

  lemma SlotsApart(i: nat, j: nat, size: nat)
    requires i != j
    ensures i * size + size <= j * size || j * size + size <= i * size
  {
    if i < j { MulMonotonic(i + 1, j, size); assert (i + 1) * size == i * size + size; }
    else { MulMonotonic(j + 1, i, size); assert (j + 1) * size == j * size + size; }
  }

  lemma CopiedBetween(now: seq<Byte>, was: seq<Byte>, from: seq<Byte>, offset: nat)
    requires |now| == |was| && offset + |from| <= |was|
    requires forall k | 0 <= k < |from| :: now[offset + k] == from[k]
    requires forall k | 0 <= k < offset || offset + |from| <= k < |was| :: now[k] == was[k]
    ensures now == was[..offset] + from + was[offset + |from|..]
  {
    assert forall k | offset <= k < offset + |from| :: now[k] == now[offset + (k - offset)];
  }

  /** memcopy: copy length bytes forwards, byte by byte.  Within one buffer the source's assertion demands that the
      destination begins before the source, where a forward copy is right even if the two overlap, or not before the
      source's end. */
  method MemCopy(dst: array<Byte>, dstOffset: nat, src: array<Byte>, srcOffset: nat, length: nat)
    requires dstOffset + length <= dst.Length && srcOffset + length <= src.Length
    requires dst == src ==> dstOffset < srcOffset || dstOffset >= srcOffset + length
    modifies dst
    ensures dst[..] == old(dst[..dstOffset]) + old(src[srcOffset..srcOffset + length])
                       + old(dst[dstOffset + length..])
  {
    ghost var was, from := dst[..], src[srcOffset..srcOffset + length];
    var i := 0;
    while i < length
      invariant 0 <= i <= length
      invariant forall k | 0 <= k < i :: dst[dstOffset + k] == from[k]
      invariant forall k | 0 <= k < dstOffset || dstOffset + length <= k < dst.Length :: dst[k] == was[k]
      invariant forall k | srcOffset + i <= k < srcOffset + length :: src[k] == from[k - srcOffset]
    {
      assert dst != src || dstOffset + i <= srcOffset + i || dstOffset + i >= srcOffset + length;
      dst[dstOffset + i] := src[srcOffset + i];
      assert forall k | 0 <= k < i :: dst[dstOffset + k] == from[k];
      i := i + 1;
    }
    CopiedBetween(dst[..], was, from, dstOffset);
  }

  /** A buffer of n slots of the given size, with head and available as the kernel keeps them. */
  predicate Shape(bytes: seq<Byte>, size: nat, n: nat, head: nat, available: nat) {
    0 < size <= 0xff && 0 < n <= 0xff && |bytes| == n * size && head < n && available <= n
  }

  function Message(bytes: seq<Byte>, size: nat, n: nat, i: nat): seq<Byte>
    requires Shape(bytes, size, n, 0, 0) && i < n
  {
    SlotsFit(i, n, size);
    bytes[i * size..i * size + size]
  }

  /** The messages in the queue, oldest first. */
  function Window(bytes: seq<Byte>, size: nat, n: nat, head: nat, available: nat): (w: seq<seq<Byte>>)
    requires Shape(bytes, size, n, head, available)
    ensures |w| == available
  {
    seq(available, k requires 0 <= k < available => Message(bytes, size, n, Around(head, k, n)))
  }

  /** The buffer with slot i overwritten. */
  function Overwrite(bytes: seq<Byte>, size: nat, n: nat, i: nat, message: seq<Byte>): seq<Byte>
    requires Shape(bytes, size, n, 0, 0) && i < n && |message| == size
  {
    SlotsFit(i, n, size);
    bytes[..i * size] + message + bytes[i * size + size..]
  }

  /** Writing slot i changes that slot and no other. */
  lemma OverwriteOne(bytes: seq<Byte>, size: nat, n: nat, i: nat, message: seq<Byte>, j: nat)
    requires Shape(bytes, size, n, 0, 0) && i < n && |message| == size && j < n
    ensures Shape(Overwrite(bytes, size, n, i, message), size, n, 0, 0)
    ensures Message(Overwrite(bytes, size, n, i, message), size, n, j)
            == if j == i then message else Message(bytes, size, n, j)
  {
    SlotsFit(i, n, size);
    SlotsFit(j, n, size);
    if j != i { SlotsApart(i, j, size); }
  }

  /** Writing the slot after the last message adds that message at the end. */
  lemma PutAppends(bytes: seq<Byte>, size: nat, n: nat, head: nat, available: nat, message: seq<Byte>)
    requires Shape(bytes, size, n, head, available) && available < n && |message| == size
    ensures var after := Overwrite(bytes, size, n, Around(head, available, n), message);
            Shape(after, size, n, head, available + 1)
            && Window(after, size, n, head, available + 1) == Window(bytes, size, n, head, available) + [message]
  {
    hide Message, Overwrite;
    var i := Around(head, available, n);
    var after := Overwrite(bytes, size, n, i, message);
    OverwriteOne(bytes, size, n, i, message, i);
    var before, window := Window(bytes, size, n, head, available), Window(after, size, n, head, available + 1);
    forall k: nat | k < available
      ensures window[k] == before[k]
    {
      OverwriteOne(bytes, size, n, i, message, Around(head, k, n));
    }
  }

  /** Moving head on by one drops the oldest message. */
  lemma GetDrops(bytes: seq<Byte>, size: nat, n: nat, head: nat, available: nat)
    requires Shape(bytes, size, n, head, available) && 0 < available
    ensures Window(bytes, size, n, Around(head, 1, n), available - 1) == Window(bytes, size, n, head, available)[1..]
  {
  }

  /** buffer_index of a put, narrowed to 8 bits. */
  function BufferIndex(head: nat, available: nat, n: nat): nat
    requires 0 < n
  {
    ((head + available) % n) % UINT8_RANGE
  }

  /** buffer_offset, narrowed to 16 bits. */
  function BufferOffset(index: nat, size: nat): nat {
    (index * size) % UINT16_RANGE
  }

  /** The slot after head. */
  function NextHead(head: nat, n: nat): nat
    requires 0 < n
  {
    (head + 1) % n
  }

  /** Neither narrowing loses anything, and the slot lies in the buffer. */
  lemma OffsetsFit(bytes: seq<Byte>, size: nat, n: nat, head: nat, available: nat, i: nat)
    requires Shape(bytes, size, n, head, available) && i < n
    ensures BufferIndex(head, available, n) == Around(head, available, n)
    ensures BufferOffset(i, size) == i * size && i * size + size <= |bytes|
  {
    AroundIsRemainder(head, available, n);
    SlotsFit(i, n, size);
  }

  /** Copying a message to the offset of a put appends it. */
  lemma PutStep(bytes: seq<Byte>, size: nat, n: nat, head: nat, available: nat, message: seq<Byte>)
    requires Shape(bytes, size, n, head, available) && available < n && |message| == size
    ensures var offset := BufferOffset(BufferIndex(head, available, n), size);
            && offset + size <= |bytes|
            && var after := bytes[..offset] + message + bytes[offset + size..];
               Shape(after, size, n, head, available + 1)
               && Window(after, size, n, head, available + 1) == Window(bytes, size, n, head, available) + [message]
  {
    OffsetsFit(bytes, size, n, head, available, Around(head, available, n));
    PutAppends(bytes, size, n, head, available, message);
  }

  /** The offset of a get is that of the oldest message, which leaves the queue when head moves on. */
  lemma GetStep(bytes: seq<Byte>, size: nat, n: nat, head: nat, available: nat)
    requires Shape(bytes, size, n, head, available) && 0 < available
    ensures var offset, window := BufferOffset(head, size), Window(bytes, size, n, head, available);
            && offset + size <= |bytes| && window == [bytes[offset..offset + size]] + window[1..]
            && Shape(bytes, size, n, NextHead(head, n), available - 1)
            && Window(bytes, size, n, NextHead(head, n), available - 1) == window[1..]
  {
    OffsetsFit(bytes, size, n, head, available, head);
    AroundIsRemainder(head, 1, n);
    GetDrops(bytes, size, n, head, available);
    assert Window(bytes, size, n, head, available)[0] == Message(bytes, size, n, head);
  }

  lemma Reassociate(a: seq<seq<Byte>>, x: seq<Byte>, b: seq<seq<Byte>>)
    ensures a + ([x] + b) == (a + [x]) + b
  {
  }

  class Queue {
    const messages: array<Byte>  // messageSize * queueLength bytes
    const messageSize: nat
    const queueLength: nat
    var head: nat        // slot of the oldest message
    var available: nat   // number of messages in the queue

    // Every message ever put and got, oldest first.
    ghost var puts: seq<seq<Byte>>
    ghost var gets: seq<seq<Byte>>

    ghost predicate Ok()
      reads this, messages
    {
      Shape(messages[..], messageSize, queueLength, head, available)
    }

    ghost function Contents(): seq<seq<Byte>>
      reads this, messages
      requires Ok()
    {
      Window(messages[..], messageSize, queueLength, head, available)
    }

    /** Over any history of puts and gets the messages got are the first ones put, in the order of the puts; the rest
        are in the queue. */
    ghost predicate Valid()
      reads this, messages
    {
      Ok() && puts == gets + Contents()
    }

    constructor (messageSize: nat, queueLength: nat)
      requires 0 < messageSize <= 0xff && 0 < queueLength <= 0xff
      ensures Valid() && fresh(messages) && this.messageSize == messageSize && this.queueLength == queueLength
      ensures puts == [] && gets == []
    {
      this.messageSize, this.queueLength := messageSize, queueLength;
      messages := new Byte[queueLength * messageSize](_ => 0);
      head, available := 0, 0;
      puts, gets := [], [];
    }

    /** message_queue_try_put: refused exactly when the queue is full; otherwise the message goes last.  wake says that
        waiters are woken, because the queue was empty.  Index and offset are narrowed to their 8 and 16 bits. */
    method TryPut(message: array<Byte>) returns (r: bool, wake: bool)
      requires Valid() && message != messages && message.Length >= messageSize
      modifies this`available, this`puts, messages
      ensures Valid()
      ensures r <==> old(available) < queueLength
      ensures wake <==> r && old(available) == 0
      ensures r ==> Contents() == old(Contents()) + [message[..messageSize]]
                    && puts == old(puts) + [message[..messageSize]]
      ensures !r ==> Contents() == old(Contents()) && puts == old(puts)
    {
      if available == queueLength {
        return false, false;
      }
      PutStep(messages[..], messageSize, queueLength, head, available, message[..messageSize]);
      hide Shape, Window, BufferIndex, BufferOffset;
      var bufferOffset := BufferOffset(BufferIndex(head, available, queueLength), messageSize);
      MemCopy(messages, bufferOffset, message, 0, messageSize);
      available := available + 1;
      puts := puts + [message[..messageSize]];
      r, wake := true, available == 1;
    }

    /** message_queue_try_get: refused exactly when the queue is empty; otherwise the oldest message is copied out byte
        for byte and leaves the queue.  wake says that waiters are woken, because the number of messages left equals
        the threshold. */
    method TryGet(message: array<Byte>, threshold: nat) returns (r: bool, wake: bool)
      requires Valid() && message != messages && message.Length >= messageSize
      modifies this`available, this`head, this`gets, message
      ensures Valid()
      ensures r <==> old(available) > 0
      ensures wake <==> r && old(available) - 1 == threshold
      ensures r ==> message[..] == old(Contents())[0] + old(message[messageSize..])
                    && Contents() == old(Contents())[1..] && gets == old(gets) + [old(Contents())[0]]
      ensures !r ==> Contents() == old(Contents()) && gets == old(gets) && message[..] == old(message[..])
    {
      if available == 0 {
        return false, false;
      }
      GetStep(messages[..], messageSize, queueLength, head, available);
      hide Shape, Window, BufferOffset, NextHead;
      ghost var first, rest := Contents()[0], Contents()[1..];
      Reassociate(gets, first, rest);
      var bufferOffset := BufferOffset(head, messageSize);
      MemCopy(message, 0, messages, bufferOffset, messageSize);
      assert message[..] == first + old(message[messageSize..]);
      head := NextHead(head, queueLength);
      available := available - 1;
      assert Contents() == rest;
      gets := gets + [first];
      r, wake := true, available == threshold;
    }
  }
}
