/**
  Bytes and the four-byte big-endian length that starts every frame
  (p2pServer/muduo/include/muduo/net/Endian.h).
 */
module Wire {

  type byte = x: int | 0 <= x < 256

  type Bytes = seq<byte>

  const TWO_TO_THE_31: int := 0x8000_0000
  const TWO_TO_THE_32: int := 0x1_0000_0000

  /** The memory image of `hostToNetwork32(n)`: most significant byte first. */
  function HostToNetwork32(n: int): (r: Bytes)
    requires 0 <= n < TWO_TO_THE_32
    ensures |r| == 4
  {
    [n / 0x100_0000, n / 0x1_0000 % 0x100, n / 0x100 % 0x100, n % 0x100]
  }

  /** The unsigned value of the first four bytes. */
  function Unsigned32(b: Bytes): (n: int)
    requires |b| >= 4
    ensures 0 <= n < TWO_TO_THE_32
  {
    b[0] as int * 0x100_0000 + b[1] as int * 0x1_0000 + b[2] as int * 0x100 + b[3] as int
  }

  /** `networkToHost32` read back into an `int32_t`: two's complement. */
  function NetworkToHost32(b: Bytes): (n: int)
    requires |b| >= 4
    ensures -TWO_TO_THE_31 <= n < TWO_TO_THE_31
  {
    var u := Unsigned32(b);
    if u < TWO_TO_THE_31 then u else u - TWO_TO_THE_32
  }

  // ----- Digits -----

  lemma LastDigit(high: int, digit: byte)
    ensures (high * 0x100 + digit) / 0x100 == high && (high * 0x100 + digit) % 0x100 == digit
  {
  }

  lemma Shifts(n: int)
    requires 0 <= n
    ensures n / 0x1_0000 == n / 0x100 / 0x100 && n / 0x100_0000 == n / 0x1_0000 / 0x100
  {
  }

  lemma ToBytesAndBack(n: int)
    requires 0 <= n < TWO_TO_THE_32
    ensures Unsigned32(HostToNetwork32(n)) == n
  {
    Shifts(n);
    assert n == n / 0x100 * 0x100 + n % 0x100;
    assert n / 0x100 == n / 0x1_0000 * 0x100 + n / 0x100 % 0x100;
    assert n / 0x1_0000 == n / 0x100_0000 * 0x100 + n / 0x1_0000 % 0x100;
  }

  lemma FromBytesAndBack(b: Bytes)
    requires |b| == 4
    ensures HostToNetwork32(Unsigned32(b)) == b
  {
    var u := Unsigned32(b);
    var two := b[0] as int * 0x100 + b[1] as int;
    var three := two * 0x100 + b[2];
    assert u == three * 0x100 + b[3];
    LastDigit(b[0], b[1]);
    LastDigit(two, b[2]);
    LastDigit(three, b[3]);
    Shifts(u);
    assert u / 0x100 == three && u / 0x1_0000 == two && u / 0x100_0000 == b[0];
    assert HostToNetwork32(u) == [b[0], b[1], b[2], b[3]];
  }

  /** The two conversions are inverse on every non-negative `int32_t`, in both directions. */
  lemma EndianInverse(n: int, b: Bytes)
    requires 0 <= n < TWO_TO_THE_31
    requires |b| == 4
    ensures NetworkToHost32(HostToNetwork32(n)) == n
    ensures HostToNetwork32(Unsigned32(b)) == b
  {
    hide HostToNetwork32, Unsigned32;
    ToBytesAndBack(n);
    FromBytesAndBack(b);
  }

  /** The most significant byte comes first: where two headers first differ decides which length
      is the greater, and the last byte counts ones. */
  lemma BigEndian(a: Bytes, b: Bytes, i: nat)
    requires |a| == |b| == 4 && i < 4 && a[..i] == b[..i] && a[i] < b[i]
    ensures Unsigned32(a) < Unsigned32(b)
    ensures i == 3 ==> Unsigned32(b) - Unsigned32(a) == b[3] as int - a[3] as int
  {
    assert forall j :: 0 <= j < i ==> a[j] == a[..i][j] == b[j];
  }
}
