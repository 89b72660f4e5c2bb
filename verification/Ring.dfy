/**
  The C client's receive ring (API/C/netWork.h): a fixed array whose read and write positions
  wrap around.  `Contents()` is the queue it stands for.
 */
module Ring {
  import opened Wire

  const NET_READ_DATA_LENGTH: nat := 8192

  /** A position after the end continues at the start. */
  function Wrap(k: nat, n: nat): (r: nat)
    requires k < n + n
    ensures r < n
  {
    if k < n then k else k - n
  }

  /** The `n` bytes from position `r` on, wrapping around. */
  ghost function View(d: Bytes, r: nat, n: nat): (v: Bytes)
    requires r < |d| && n <= |d|
    ensures |v| == n
    ensures forall i :: 0 <= i < n ==> v[i] == d[Wrap(r + i, |d|)]
  {
    seq(n, i requires 0 <= i < n => d[Wrap(r + i, |d|)])
  }

  lemma ViewPush(d: Bytes, r: nat, n: nat, x: byte)
    requires r < |d| && n < |d|
    ensures View(d[Wrap(r + n, |d|) := x], r, n + 1) == View(d, r, n) + [x]
  {
  }

  lemma ViewPop(d: Bytes, r: nat, n: nat)
    requires r < |d| && 0 < n <= |d|
    ensures View(d, Wrap(r + 1, |d|), n - 1) == View(d, r, n)[1..]
  {
    var v, w := View(d, Wrap(r + 1, |d|), n - 1), View(d, r, n);
    forall i | 0 <= i < n - 1
      ensures v[i] == w[1..][i]
    {
      assert w[1..][i] == w[i + 1];
    }
  }

  class RecvFifo {
    const data: array<byte>
    var rPtr: nat
    var wPtr: nat
    var length: nat

    ghost predicate Valid()
      reads this
    {
      && data.Length == NET_READ_DATA_LENGTH
      && rPtr < data.Length && length <= data.Length
      && wPtr == Wrap(rPtr + length, data.Length)
    }

    ghost function Contents(): (c: Bytes)
      reads this, data
      requires Valid()
      ensures |c| == length
    {
      View(data[..], rPtr, length)
    }

    constructor ()
      ensures Valid() && fresh(data) && Contents() == []
    {
      data := new byte[NET_READ_DATA_LENGTH](_ => 0);
      rPtr, wPtr, length := 0, 0, 0;
    }

    /** Append bytes; the caller has checked that they fit. */
    method Push(bytes: Bytes)
      requires Valid() && length + |bytes| <= NET_READ_DATA_LENGTH
      modifies this, data
      ensures Valid() && Contents() == old(Contents()) + bytes
    {
      ghost var was := Contents();
      for i := 0 to |bytes|
        invariant data.Length == NET_READ_DATA_LENGTH && rPtr == old(rPtr) && length == old(length)
        invariant rPtr < data.Length && wPtr == Wrap(rPtr + length + i, data.Length)
        invariant View(data[..], rPtr, length + i) == was + bytes[..i]
      {
        ViewPush(data[..], rPtr, length + i, bytes[i]);
        ghost var d := data[..];
        data[wPtr] := bytes[i];
        assert data[..] == d[wPtr := bytes[i]];
        if wPtr == NET_READ_DATA_LENGTH - 1 {
          wPtr := 0;
        } else {
          wPtr := wPtr + 1;
        }
        assert bytes[..i + 1] == bytes[..i] + [bytes[i]];
      }
      length := length + |bytes|;
      assert bytes[..|bytes|] == bytes;
    }

    /** Drop bytes from the front. */
    method Pop(n: nat)
      requires Valid() && n <= length
      modifies this
      ensures Valid() && Contents() == old(Contents())[n..]
    {
      ghost var was := Contents();
      for i := 0 to n
        invariant length == old(length) && wPtr == old(wPtr) && rPtr < data.Length
        invariant wPtr == Wrap(rPtr + (length - i), data.Length)
        invariant View(data[..], rPtr, length - i) == was[i..]
      {
        ViewPop(data[..], rPtr, length - i);
        if rPtr == NET_READ_DATA_LENGTH - 1 {
          rPtr := 0;
        } else {
          rPtr := rPtr + 1;
        }
        assert was[i..][1..] == was[i + 1..];
      }
      length := length - n;
    }

    method Top() returns (b: byte)
      requires Valid() && 0 < length
      ensures b == Contents()[0]
    {
      b := data[rPtr];
    }

    /** The four bytes at the front as a big-endian length, wherever the ring wraps.  The
        source sums into an `int32_t`, so the value must fit one. */
    method TopInt() returns (n: int)
      requires Valid() && 4 <= length && Unsigned32(Contents()) < TWO_TO_THE_31
      ensures n == Unsigned32(Contents()) == NetworkToHost32(Contents())
    {
      n := 0;
      var ptr := rPtr;
      ghost var c := Contents();
      var shift := 0x100_0000;
      for i := 0 to 4
        invariant ptr == Wrap(rPtr + i, data.Length)
        invariant shift == [0x100_0000, 0x1_0000, 0x100, 1, 0][i]
        invariant n == (if i > 0 then c[0] as int * 0x100_0000 else 0) + (if i > 1 then c[1] as int * 0x1_0000 else 0)
                     + (if i > 2 then c[2] as int * 0x100 else 0) + (if i > 3 then c[3] as int else 0)
      {
        assert data[ptr] == c[i];
        n := n + data[ptr] as int * shift;
        shift := shift / 0x100;
        if ptr == NET_READ_DATA_LENGTH - 1 {
          ptr := 0;
        } else {
          ptr := ptr + 1;
        }
      }
    }
  }
}
