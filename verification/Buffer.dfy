/**
  The connection buffer: one array with a read and a write position.  Whatever room is
  used, by compaction in place or by growing, it behaves as a queue of bytes.
 */
module Buffers {

  const CHEAP_PREPEND := 8
  const INITIAL_SIZE := 1024
  const EXTRA_SIZE := 65536

  /** The size of the array after room was made for `len` more bytes: it grows exactly when
      the room before and after the readable bytes does not do, and then to what is needed. */
  function SizeFor(size: nat, reader: nat, writer: nat, len: nat): nat
    requires reader <= writer <= size
  {
    if size - writer >= len || size - writer + reader >= len + CHEAP_PREPEND then size else writer + len
  }

  /** The array grows exactly when what is to be kept does not fit into it behind the
      reserved front; how the free bytes are split makes no difference. */
  lemma GrowsOnlyWhenFull(size: nat, reader: nat, writer: nat, len: nat)
    requires CHEAP_PREPEND <= reader <= writer <= size
    ensures SizeFor(size, reader, writer, len) != size <==> CHEAP_PREPEND + (writer - reader) + len > size
    ensures SizeFor(size, reader, writer, len) >= CHEAP_PREPEND + (writer - reader) + len
    ensures SizeFor(size, reader, writer, len) != size ==> SizeFor(size, reader, writer, len) - writer == len
  {
  }

  /** How many bytes one scatter read can take in, with `writable` bytes of room. */
  function ReadLimit(writable: nat): nat {
    if writable < EXTRA_SIZE then writable + EXTRA_SIZE else writable
  }

  /** A read can always bring in 64K, and uses the extra space for less than 128K. */
  lemma ReadLimitBounds(writable: nat)
    ensures EXTRA_SIZE <= ReadLimit(writable)
    ensures ReadLimit(writable) > writable ==> ReadLimit(writable) <= 2 * EXTRA_SIZE - 1
    ensures ReadLimit(writable) == writable <==> writable >= EXTRA_SIZE
  {
  }

  class Buffer {
    var buffer: array<char>
    var readerIndex: nat
    var writerIndex: nat

    ghost predicate Valid()
      reads this
    {
      CHEAP_PREPEND <= readerIndex <= writerIndex <= buffer.Length
    }

    /** The bytes written and not yet retrieved. */
    ghost function Contents(): seq<char>
      requires Valid()
      reads this, buffer
    {
      buffer[readerIndex..writerIndex]
    }

    ghost function SizeWith(len: nat): nat
      requires Valid()
      reads this
    {
      SizeFor(buffer.Length, readerIndex, writerIndex, len)
    }

    constructor (initialSize: nat := INITIAL_SIZE)
      ensures Valid() && fresh(buffer) && Contents() == []
      ensures buffer.Length == CHEAP_PREPEND + initialSize
    {
      buffer := new char[CHEAP_PREPEND + initialSize](_ => '\0');
      readerIndex, writerIndex := CHEAP_PREPEND, CHEAP_PREPEND;
    }

    function ReadableBytes(): (n: nat)
      requires Valid()
      reads this, buffer
      ensures n == |Contents()|
    {
      writerIndex - readerIndex
    }

    function WritableBytes(): nat
      requires Valid()
      reads this
    {
      buffer.Length - writerIndex
    }

    /** Drops the first `len` bytes, or all when there are no more; an empty buffer starts over. */
    method Retrieve(len: nat)
      requires Valid()
      modifies this`readerIndex, this`writerIndex
      ensures Valid()
      ensures Contents() == old(Contents())[if len < |old(Contents())| then len else |old(Contents())|..]
      ensures Contents() == [] ==> readerIndex == CHEAP_PREPEND == writerIndex
    {
      if len < ReadableBytes() {
        readerIndex := readerIndex + len;
      } else {
        RetrieveAll();
      }
    }

    method RetrieveAll()
      requires Valid()
      modifies this`readerIndex, this`writerIndex
      ensures Valid() && Contents() == []
      ensures readerIndex == CHEAP_PREPEND == writerIndex
    {
      readerIndex, writerIndex := CHEAP_PREPEND, CHEAP_PREPEND;
    }

    /** Copies `len` bytes out and drops them.  The source reads on past the readable bytes
        when asked for more, so all it needs is that the array does not end. */
    method RetrieveAsString(len: nat) returns (result: string)
      requires Valid() && readerIndex + len <= buffer.Length
      modifies this`readerIndex, this`writerIndex
      ensures Valid() && |result| == len
      ensures len <= |old(Contents())| ==> result + Contents() == old(Contents())
      ensures len > |old(Contents())| ==> old(Contents()) < result && Contents() == []
    {
      ghost var contents := Contents();
      result := buffer[readerIndex..readerIndex + len];
      assert if len <= |contents| then result == contents[..len] else result[..|contents|] == contents;
      Retrieve(len);
    }

    method RetrieveAllAsString() returns (result: string)
      requires Valid()
      modifies this`readerIndex, this`writerIndex
      ensures Valid() && result == old(Contents()) && Contents() == []
    {
      result := RetrieveAsString(ReadableBytes());
    }

    /** Moves the readable bytes to the front of the array, first byte first. */
    method Compact()
      requires Valid()
      modifies this`readerIndex, this`writerIndex, buffer
      ensures Valid() && Contents() == old(Contents()) && readerIndex == CHEAP_PREPEND
    {
      var readable := ReadableBytes();
      ghost var contents := Contents();
      for i := 0 to readable
        modifies buffer
        invariant forall k :: 0 <= k < i ==> buffer[CHEAP_PREPEND + k] == contents[k]
        invariant forall k :: i <= k < readable ==> buffer[readerIndex + k] == contents[k]
      {
        buffer[CHEAP_PREPEND + i] := buffer[readerIndex + i];
      }
      readerIndex := CHEAP_PREPEND;
      writerIndex := readerIndex + readable;
      assert forall k :: 0 <= k < readable ==> Contents()[k] == contents[k];
    }

    /** A larger array with the same bytes at the same places. */
    method Resize(size: nat)
      requires Valid() && buffer.Length <= size
      modifies this`buffer
      ensures Valid() && fresh(buffer) && buffer.Length == size && Contents() == old(Contents())
    {
      var bytes := buffer[..];
      buffer := new char[size](i => if 0 <= i < |bytes| then bytes[i] else '\0');
      assert buffer[..|bytes|] == bytes;
      assert Contents() == bytes[readerIndex..writerIndex];
    }

    method MakeSpace(len: nat)
      requires Valid() && WritableBytes() < len
      modifies this, buffer
      ensures Valid() && Contents() == old(Contents()) && WritableBytes() >= len
      ensures buffer.Length == old(SizeWith(len))
      ensures buffer == old(buffer) || fresh(buffer)
    {
      if WritableBytes() + readerIndex < len + CHEAP_PREPEND {
        Resize(writerIndex + len);
      } else {
        Compact();
      }
    }

    method EnsureWritableBytes(len: nat)
      requires Valid()
      modifies this, buffer
      ensures Valid() && Contents() == old(Contents()) && WritableBytes() >= len
      ensures buffer.Length == old(SizeWith(len))
      ensures buffer == old(buffer) || fresh(buffer)
    {
      if WritableBytes() < len {
        MakeSpace(len);
      }
    }

    /** Puts bytes where there is room for them, and the write position behind them. */
    method Put(data: seq<char>)
      requires Valid() && |data| <= WritableBytes()
      modifies this`writerIndex, buffer
      ensures Valid() && Contents() == old(Contents()) + data
    {
      for i := 0 to |data|
        modifies buffer
        invariant buffer[..writerIndex] == old(buffer[..writerIndex])
        invariant buffer[writerIndex..writerIndex + i] == data[..i]
      {
        buffer[writerIndex + i] := data[i];
      }
      assert buffer[..writerIndex] == old(buffer[..writerIndex]);
      writerIndex := writerIndex + |data|;
    }

    method Append(data: seq<char>)
      requires Valid()
      modifies this, buffer
      ensures Valid() && Contents() == old(Contents()) + data
      ensures buffer.Length == old(SizeWith(|data|))
      ensures buffer == old(buffer) || fresh(buffer)
    {
      EnsureWritableBytes(|data|);
      Put(data);
    }

    /** One scatter read, into the room left and then into an extra space whose bytes are
        appended.  `received` is what the kernel hands over, or nothing on an error. */
    method ReadFd(received: seq<char>, failed: bool) returns (n: int)
      requires Valid() && |received| <= ReadLimit(WritableBytes())
      modifies this, buffer
      ensures Valid() && n == (if failed then -1 else |received|)
      ensures Contents() == if failed then old(Contents()) else old(Contents()) + received
      ensures buffer == old(buffer) || fresh(buffer)
    {
      n := if failed then -1 else |received|;
      var writable := WritableBytes();
      if n < 0 {
      } else if n <= writable {
        Put(received);
      } else {
        Put(received[..writable]);
        var extra := received[writable..];
        Append(extra);
        assert received[..writable] + extra == received;
      }
    }

    /** Offers all readable bytes to the kernel, which accepts a prefix; the buffer stays. */
    method WriteFd(accepted: nat) returns (bytes: seq<char>)
      requires Valid() && accepted <= |Contents()|
      ensures bytes == Contents()[..accepted]
    {
      bytes := buffer[readerIndex..readerIndex + accepted];
    }
  }
}
