// The serial output path of the firmware (src/main.rs): text is formatted
// into a bounded byte queue (`SerialBuffer`, a `core::fmt::Write`), and a
// task later drains the queue into the UART one byte at a time.

module Serial {
  import opened Results

  newtype byte = x: int | 0 <= x < 256

  /** The number of bytes the queue of `SerialBuffer` holds (`Queue<u8, U32>`). */
  const QueueCapacity: nat := 32

  /** `core::fmt::Error`: the formatter could not take all of the text. */
  datatype FmtError = FmtError

  /** The bytes a bounded queue holding `queued` keeps of `bytes` when they are offered one by one. */
  function Accepted(queued: seq<byte>, bytes: seq<byte>, capacity: nat): (kept: seq<byte>)
    requires |queued| <= capacity
    ensures |kept| == if |queued| + |bytes| <= capacity then |bytes| else capacity - |queued|
    ensures kept == bytes[..|kept|]
  {
    if |queued| + |bytes| <= capacity then bytes else bytes[..capacity - |queued|]
  }

  /** Offering bytes to a queue that has room for all of them keeps every one. */
  lemma AcceptedAll(queued: seq<byte>, bytes: seq<byte>, capacity: nat)
    requires |queued| <= capacity
    ensures Accepted(queued, bytes, capacity) == bytes <==> |queued| + |bytes| <= capacity
  {
    if |queued| + |bytes| > capacity {
      assert |Accepted(queued, bytes, capacity)| < |bytes|;
    }
  }

  /**
   * A fixed-capacity first-in first-out queue of bytes (`heapless::spsc::Queue`):
   * `items` are the queued bytes, oldest first.
   */
  class Queue {
    var items: seq<byte>
    const capacity: nat

    predicate Valid()
      reads this`items
    {
      |items| <= capacity
    }

    /** `Queue::new`: empty. */
    constructor (capacity: nat)
      ensures this.capacity == capacity && items == [] && Valid()
    {
      this.capacity := capacity;
      items := [];
    }

    /** `enqueue`: add `b` at the back, or hand it back when the queue is full. */
    method Enqueue(b: byte) returns (r: Result<(), byte>)
      requires Valid()
      modifies this`items
      ensures Valid()
      ensures r.Ok? <==> |old(items)| < capacity
      ensures items == if r.Ok? then old(items) + [b] else old(items)
      ensures r.Err? ==> r.error == b
    {
      if |items| == capacity {
        return Err(b);
      }
      items := items + [b];
      r := Ok(());
    }

    /** `dequeue`: take the oldest byte, if any. */
    method Dequeue() returns (r: Option<byte>)
      requires Valid()
      modifies this`items
      ensures Valid()
      ensures r.None? <==> old(items) == []
      ensures r.Some? ==> old(items) == [r.value] + items
      ensures r.None? ==> items == []
    {
      if items == [] {
        return None;
      }
      r := Some(items[0]);
      items := items[1..];
    }
  }

  /** The serial output buffer shared between the tasks that print and `process_serial`. */
  class SerialBuffer {
    const queue: Queue

    predicate Valid()
      reads this, queue`items
    {
      queue.Valid()
    }

    /** `SerialBuffer::new`: an empty queue of `QueueCapacity` bytes. */
    constructor ()
      ensures fresh(queue) && queue.items == [] && queue.capacity == QueueCapacity && Valid()
    {
      queue := new Queue(QueueCapacity);
    }

    /**
     * `write_str`: enqueue the bytes of the text in order; at the first byte
     * that does not fit, stop with an error, keeping the bytes already queued.
     */
    method WriteStr(bytes: seq<byte>) returns (r: Result<(), FmtError>)
      requires Valid()
      modifies queue`items
      ensures Valid()
      ensures r.Ok? <==> |old(queue.items)| + |bytes| <= queue.capacity
      ensures queue.items == old(queue.items) + Accepted(old(queue.items), bytes, queue.capacity)
    {
      ghost var before := queue.items;
      for i := 0 to |bytes|
        invariant queue.Valid()
        invariant |before| + i <= queue.capacity
        invariant queue.items == before + bytes[..i]
      {
        var q := queue.Enqueue(bytes[i]);
        if q.Err? {
          assert bytes[..i] == bytes[..queue.capacity - |before|];
          return Err(FmtError);
        }
        assert bytes[..i + 1] == bytes[..i] + [bytes[i]];
      }
      assert bytes[..|bytes|] == bytes;
      r := Ok(());
    }
  }

  /** The UART transmitter: `written` is every byte sent so far, oldest first. */
  class Uart {
    var written: seq<byte>

    constructor ()
      ensures written == []
    {
      written := [];
    }

    /** `serial.write(b)`, blocking until the transmitter takes the byte. */
    method Write(b: byte)
      modifies this`written
      ensures written == old(written) + [b]
    {
      written := written + [b];
    }
  }

  /** The `process_serial` task: send every queued byte, oldest first, until the queue is empty. */
  method ProcessSerial(buffer: SerialBuffer, serial: Uart)
    requires buffer.Valid()
    modifies buffer.queue`items, serial`written
    ensures buffer.Valid()
    ensures buffer.queue.items == []
    ensures serial.written == old(serial.written) + old(buffer.queue.items)
  {
    var b := buffer.queue.Dequeue();
    while b.Some?
      invariant buffer.Valid()
      invariant b.Some? ==> serial.written + [b.value] + buffer.queue.items == old(serial.written) + old(buffer.queue.items)
      invariant b.None? ==> buffer.queue.items == [] && serial.written == old(serial.written) + old(buffer.queue.items)
      decreases |buffer.queue.items|, b.Some?
    {
      serial.Write(b.value);
      b := buffer.queue.Dequeue();
    }
  }
}
