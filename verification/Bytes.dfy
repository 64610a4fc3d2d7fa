/** Numbers in network byte order, and sequences of bytes aligned to eight. */
module Bytes {
  import opened Options

  const TWO16: int := 0x1_0000
  const TWO32: int := 0x1_0000_0000
  const TWO64: int := 0x1_0000_0000_0000_0000

  type Byte = b: nat | b < 256
  type U16 = n: nat | n < 0x1_0000
  type U32 = n: nat | n < 0x1_0000_0000
  type U64 = n: nat | n < 0x1_0000_0000_0000_0000

  function Put16(n: U16): (bs: seq<Byte>)
    ensures |bs| == 2
  {
    [n / 256, n % 256]
  }

  function Put32(n: U32): (bs: seq<Byte>)
    ensures |bs| == 4
  {
    Put16(n / 0x1_0000) + Put16(n % 0x1_0000)
  }

  function Put64(n: U64): (bs: seq<Byte>)
    ensures |bs| == 8
  {
    Put32(n / 0x1_0000_0000) + Put32(n % 0x1_0000_0000)
  }

  function Get16(bs: seq<Byte>): (n: U16)
    requires |bs| == 2
  {
    var high: nat, low: nat := bs[0], bs[1];
    high * 256 + low
  }

  function Get32(bs: seq<Byte>): (n: U32)
    requires |bs| == 4
  {
    Get16(bs[..2]) * 0x1_0000 + Get16(bs[2..])
  }

  function Get64(bs: seq<Byte>): (n: U64)
    requires |bs| == 8
  {
    Get32(bs[..4]) * 0x1_0000_0000 + Get32(bs[4..])
  }

  lemma RoundTrip16(n: U16)
    ensures Get16(Put16(n)) == n
  {
  }

  lemma RoundTrip32(n: U32)
    ensures Get32(Put32(n)) == n
  {
    var bs := Put32(n);
    assert bs[..2] == Put16(n / 0x1_0000) && bs[2..] == Put16(n % 0x1_0000);
    RoundTrip16(n / 0x1_0000);
    RoundTrip16(n % 0x1_0000);
  }

  lemma RoundTrip64(n: U64)
    ensures Get64(Put64(n)) == n
  {
    var bs := Put64(n);
    assert bs[..4] == Put32(n / 0x1_0000_0000) && bs[4..] == Put32(n % 0x1_0000_0000);
    RoundTrip32(n / 0x1_0000_0000);
    RoundTrip32(n % 0x1_0000_0000);
  }

  /** The next multiple of eight. */
  function Align(n: nat): (r: nat)
    ensures n <= r < n + 8 && r % 8 == 0
  {
    (n + 7) / 8 * 8
  }

  function Zeros(n: nat): (bs: seq<Byte>)
    ensures |bs| == n
  {
    seq(n, _ => 0)
  }

  function Padded(bs: seq<Byte>): (r: seq<Byte>)
    ensures |r| == Align(|bs|)
  {
    bs + Zeros(Align(|bs|) - |bs|)
  }

  /** Bitwise or. */
  function Or(a: nat, b: nat): nat
    decreases a + b
  {
    if a == 0 then b
    else if b == 0 then a
    else 2 * Or(a / 2, b / 2) + if a % 2 == 1 || b % 2 == 1 then 1 else 0
  }

  lemma {:induction false} OrBounds(a: nat, b: nat)
    ensures a <= Or(a, b) <= a + b && b <= Or(a, b)
    decreases a + b
  {
    if a > 0 && b > 0 { OrBounds(a / 2, b / 2); }
  }

  /** The loader takes a sum for wrapped around when it is less than the bitwise or of its operands:
      for sizes of 64 bits, and for the address and the length of a function of 32 bits. This happens
      exactly when the sum wraps around. */
  lemma OrTestIsWrapTest(a: nat, b: nat, modulus: nat)
    requires (modulus == TWO32 || modulus == TWO64) && a < modulus && b < modulus
    ensures Or(a, b) > (a + b) % modulus <==> a + b >= modulus
  {
    OrBounds(a, b);
    hide Or;
    if modulus == TWO32 {
      assert (a + b) % TWO32 == if a + b < TWO32 then a + b else a + b - TWO32;
    } else {
      assert (a + b) % TWO64 == if a + b < TWO64 then a + b else a + b - TWO64;
    }
  }
}
