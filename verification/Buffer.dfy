/**
  The growable in-place byte buffer under the server's codec
  (p2pServer/muduo/include/muduo/net/Buffer.h).  `Contents()` is the readable range; every
  operation is specified as a sequence operation on it, whether or not the bytes had to be
  moved or the storage replaced.
 */
module Buffers {
  import opened Wire

  const CHEAP_PREPEND: nat := 8
  const INITIAL_SIZE: nat := 1024

  class Buffer {
    var buffer: array<byte>
    var readerIndex: nat
    var writerIndex: nat

    ghost predicate Valid()
      reads this
    {
      readerIndex <= writerIndex <= buffer.Length && CHEAP_PREPEND <= buffer.Length
    }

    ghost function Contents(): Bytes
      reads this, buffer
      requires Valid()
    {
      buffer[readerIndex..writerIndex]
    }

    constructor ()
      ensures Valid() && fresh(buffer)
      ensures Contents() == []
      ensures readerIndex == CHEAP_PREPEND && WritableBytes() == INITIAL_SIZE
    {
      buffer := new byte[CHEAP_PREPEND + INITIAL_SIZE](_ => 0);
      readerIndex := CHEAP_PREPEND;
      writerIndex := CHEAP_PREPEND;
    }

    function ReadableBytes(): (n: nat)
      reads this, buffer
      requires Valid()
      ensures n == |Contents()|
    {
      writerIndex - readerIndex
    }

    function WritableBytes(): nat
      reads this
      requires Valid()
    {
      buffer.Length - writerIndex
    }

    function PrependableBytes(): nat
      reads this
    {
      readerIndex
    }

    /** The four bytes at the read position, as the codec reads them through `peek`. */
    function PeekInt32(): (n: int)
      reads this, buffer
      requires Valid() && ReadableBytes() >= 4
      ensures n == NetworkToHost32(Contents())
    {
      NetworkToHost32(buffer[readerIndex..readerIndex + 4])
    }

    /** The first `len` readable bytes. */
    function PeekBytes(len: nat): (r: Bytes)
      reads this, buffer
      requires Valid() && len <= ReadableBytes()
      ensures r == Contents()[..len]
    {
      buffer[readerIndex..readerIndex + len]
    }

    method RetrieveAll()
      requires Valid()
      modifies this
      ensures Valid() && buffer == old(buffer)
      ensures Contents() == []
      ensures readerIndex == CHEAP_PREPEND
    {
      readerIndex := CHEAP_PREPEND;
      writerIndex := CHEAP_PREPEND;
    }

    method Retrieve(len: nat)
      requires Valid() && len <= ReadableBytes()
      modifies this
      ensures Valid() && buffer == old(buffer)
      ensures Contents() == old(Contents())[len..]
    {
      if len < ReadableBytes() {
        readerIndex := readerIndex + len;
      } else {
        RetrieveAll();
      }
    }

    /** `buffer_.resize(n)`: new storage with the old bytes in front and zeros behind. */
    method Resize(n: nat)
      requires Valid() && buffer.Length <= n
      modifies this`buffer
      ensures Valid() && fresh(buffer) && buffer.Length == n
      ensures readerIndex == old(readerIndex) && writerIndex == old(writerIndex)
      ensures Contents() == old(Contents())
    {
      var was := buffer;
      var bigger := new byte[n](_ => 0);
      for i := 0 to was.Length
        invariant was[..] == old(was[..])
        invariant bigger[..i] == was[..i]
      {
        bigger[i] := was[i];
      }
      assert bigger[..was.Length][readerIndex..writerIndex] == was[..was.Length][readerIndex..writerIndex];
      assert bigger[readerIndex..writerIndex] == bigger[..was.Length][readerIndex..writerIndex];
      buffer := bigger;
    }

    /** The forward copy of the readable bytes onto `CHEAP_PREPEND`: source and target may
        overlap, and the copy is right because the target lies below the source. */
    method MoveToFront()
      requires Valid() && CHEAP_PREPEND < readerIndex
      modifies this, buffer
      ensures Valid() && buffer == old(buffer)
      ensures readerIndex == CHEAP_PREPEND
      ensures Contents() == old(Contents())
    {
      ghost var was := Contents();
      var readable := ReadableBytes();
      for i := 0 to readable
        invariant Valid() && buffer == old(buffer)
        invariant readerIndex == old(readerIndex) && writerIndex == old(writerIndex)
        invariant forall k :: 0 <= k < i ==> buffer[CHEAP_PREPEND + k] == was[k]
        invariant forall k :: i <= k < readable ==> buffer[readerIndex + k] == was[k]
      {
        buffer[CHEAP_PREPEND + i] := buffer[readerIndex + i];
      }
      readerIndex := CHEAP_PREPEND;
      writerIndex := readerIndex + readable;
    }

    method MakeSpace(len: nat)
      requires Valid() && WritableBytes() < len
      modifies this, buffer
      ensures Valid() && (buffer == old(buffer) || fresh(buffer))
      ensures WritableBytes() >= len
      ensures Contents() == old(Contents())
      ensures PrependableBytes() >= CHEAP_PREPEND || readerIndex == old(readerIndex)
    {
      if WritableBytes() + PrependableBytes() < len + CHEAP_PREPEND {
        Resize(writerIndex + len);
      } else {
        assert CHEAP_PREPEND < readerIndex; // the source's own assertion
        MoveToFront();
      }
    }

    method EnsureWritableBytes(len: nat)
      requires Valid()
      modifies this, buffer
      ensures Valid() && (buffer == old(buffer) || fresh(buffer))
      ensures WritableBytes() >= len
      ensures Contents() == old(Contents())
      ensures PrependableBytes() >= CHEAP_PREPEND || readerIndex == old(readerIndex)
    {
      if WritableBytes() < len {
        MakeSpace(len);
      }
    }

    method Append(data: Bytes)
      requires Valid()
      modifies this, buffer
      ensures Valid() && (buffer == old(buffer) || fresh(buffer))
      ensures Contents() == old(Contents()) + data
      ensures PrependableBytes() >= CHEAP_PREPEND || readerIndex == old(readerIndex)
    {
      EnsureWritableBytes(|data|);
      CopyIn(writerIndex, data);
      writerIndex := writerIndex + |data|;
    }

    method Prepend(data: Bytes)
      requires Valid() && |data| <= PrependableBytes()
      modifies this, buffer
      ensures Valid() && buffer == old(buffer)
      ensures Contents() == data + old(Contents())
    {
      readerIndex := readerIndex - |data|;
      CopyIn(readerIndex, data);
      assert buffer[readerIndex..writerIndex] == data + buffer[readerIndex + |data|..writerIndex];
    }

    /** `std::copy` of outside bytes to position `at`. */
    method CopyIn(at: nat, data: Bytes)
      requires at + |data| <= buffer.Length
      modifies buffer
      ensures buffer[at..at + |data|] == data
      ensures buffer[..at] == old(buffer[..at])
      ensures buffer[at + |data|..] == old(buffer[at + |data|..])
    {
      for i := 0 to |data|
        invariant buffer[at..at + i] == data[..i]
        invariant buffer[..at] == old(buffer[..at])
        invariant buffer[at + |data|..] == old(buffer[at + |data|..])
      {
        buffer[at + i] := data[i];
      }
    }
  }
}
