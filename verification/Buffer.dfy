/** The growable byte buffer protocol parsers read from. */
module Buffers {

  /** One contiguous region with a read cursor, a write end and, between
      `Prepare` and `Commit`, a tail lent to a reader of the stream. */
  class Buffer {
    var storage: string
    var readPos: nat
    var pending: nat
    var capacity: nat

    predicate Valid()
      reads this
    {
      readPos + pending <= |storage| <= capacity
    }

    /** The octets the parser sees, in the order they were published. */
    function Contents(): (s: string)
      reads this
      requires Valid()
    {
      storage[readPos..|storage| - pending]
    }

    /** The region lent out by `Prepare`. */
    function Lent(): (s: string)
      reads this
      requires Valid()
    {
      storage[|storage| - pending..]
    }

    constructor (reserved: nat)
      ensures Valid() && Contents() == "" && pending == 0 && capacity == reserved
    {
      storage, readPos, pending, capacity := "", 0, 0, reserved;
    }

    function Size(): (n: nat)
      reads this
      requires Valid()
      ensures pending == 0 ==> n == |Contents()|
    {
      |storage| - readPos
    }

    /** Capacity after the storage must hold `need` octets: unchanged when it
        already does, otherwise whatever the allocator chooses. */
    method Grow(need: nat)
      modifies this`capacity
      ensures capacity >= need && capacity >= old(capacity)
      ensures need <= old(capacity) ==> capacity == old(capacity)
    {
      if need > capacity {
        var more: nat :| more >= need;
        capacity := more;
      }
    }

    /** Move unread octets to the front when that saves a reallocation. */
    method ReclaimIfWorthwhile(incoming: nat)
      requires Valid() && pending == 0
      modifies this`storage, this`readPos
      ensures Valid() && Contents() == old(Contents())
      ensures readPos == 0 || |storage| + incoming <= capacity
    {
      if readPos == 0 || |storage| + incoming <= capacity {
        return;
      }
      storage := storage[readPos..];
      readPos := 0;
    }

    /** Lend `n` writable octets. Nothing readable changes, and the allocation
        grows only when the unread octets and the new ones exceed it. */
    method Prepare(n: nat)
      requires Valid() && pending == 0
      modifies this
      ensures Valid() && Contents() == old(Contents()) && pending == n && |Lent()| == n
      ensures |old(Contents())| + n <= old(capacity) ==> capacity == old(capacity)
    {
      ReclaimIfWorthwhile(n);
      Grow(|storage| + n);
      var blank := seq(n, _ => '\0');
      storage := storage + blank;
      pending := n;
    }

    /** The stream writes into the lent region. */
    method Fill(bytes: string)
      requires Valid() && |bytes| <= pending
      modifies this`storage
      ensures Valid() && Contents() == old(Contents())
      ensures |Lent()| == pending && Lent()[..|bytes|] == bytes
    {
      var at := |storage| - pending;
      storage := storage[..at] + bytes + storage[at + |bytes|..];
    }

    /** Publish the first `n` lent octets and give back the rest. */
    method Commit(n: nat)
      requires Valid()
      modifies this`storage, this`pending
      ensures Valid() && pending == 0
      ensures Contents() == old(Contents() + if n < pending then Lent()[..n] else Lent())
    {
      var unused := if pending > n then pending - n else 0;
      storage := storage[..|storage| - unused];
      pending := 0;
    }

    /** Drop `n` parsed octets, or all of them if there are fewer. */
    method Consume(n: nat)
      requires Valid() && pending == 0
      modifies this`storage, this`readPos
      ensures Valid()
      ensures Contents() == if n < |old(Contents())| then old(Contents())[n..] else ""
    {
      var size := Size();
      readPos := readPos + if n < size then n else size;
      if readPos == |storage| {
        storage := "";
        readPos := 0;
      }
    }

    method Append(bytes: string)
      requires Valid() && pending == 0
      modifies this
      ensures Valid() && pending == 0 && Contents() == old(Contents()) + bytes
    {
      Grow(|storage| + |bytes|);
      storage := storage + bytes;
    }

    method Reserve(n: nat)
      requires Valid()
      modifies this`capacity
      ensures Valid() && Contents() == old(Contents()) && capacity >= n
    {
      Grow(n);
    }
  }
}
