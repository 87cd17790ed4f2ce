/** Bytes and the fixed-width integer fields of the two binary formats. */
module Bytes {
  type byte = x: int | 0 <= x < 0x100
  type u32 = x: int | 0 <= x < 0x1_0000_0000

  function U16Le(n: nat): (b: seq<byte>)
    requires n < 0x1_0000
    ensures |b| == 2
  {
    [n % 0x100, n / 0x100]
  }

  function U32Le(n: u32): (b: seq<byte>)
    ensures |b| == 4
  {
    [n % 0x100, n / 0x100 % 0x100, n / 0x1_0000 % 0x100, n / 0x100_0000]
  }

  function U32Be(n: u32): (b: seq<byte>)
    ensures |b| == 4
  {
    [n / 0x100_0000, n / 0x1_0000 % 0x100, n / 0x100 % 0x100, n % 0x100]
  }

  function FromU16Le(b: seq<byte>): (n: nat)
    requires |b| == 2
    ensures n < 0x1_0000
  {
    var low: int, high: int := b[0], b[1];
    low + 0x100 * high
  }

  function FromU32Le(b: seq<byte>): u32
    requires |b| == 4
  {
    var b0: int, b1: int, b2: int, b3: int := b[0], b[1], b[2], b[3];
    b0 + 0x100 * b1 + 0x1_0000 * b2 + 0x100_0000 * b3
  }

  function FromU32Be(b: seq<byte>): u32
    requires |b| == 4
  {
    var b0: int, b1: int, b2: int, b3: int := b[0], b[1], b[2], b[3];
    b3 + 0x100 * b2 + 0x1_0000 * b1 + 0x100_0000 * b0
  }

  lemma U16LeInverse(n: nat)
    requires n < 0x1_0000
    ensures FromU16Le(U16Le(n)) == n
  {
  }

  lemma Digits(n: u32)
    ensures n == n % 0x100 + 0x100 * (n / 0x100 % 0x100) + 0x1_0000 * (n / 0x1_0000 % 0x100)
                 + 0x100_0000 * (n / 0x100_0000)
  {
    var q1: int, q2: int, q3: int := n / 0x100, n / 0x1_0000, n / 0x100_0000;
    assert q2 == q1 / 0x100 && q3 == q2 / 0x100;
    assert q1 == 0x100 * q2 + q1 % 0x100;
    assert q2 == 0x100 * q3 + q2 % 0x100;
  }

  /** Least significant byte first. */
  lemma U32LePlaces(n: u32)
    ensures var b := U32Le(n);
            n == b[0] as int + 0x100 * b[1] as int + 0x1_0000 * b[2] as int + 0x100_0000 * b[3] as int
  {
    Digits(n);
  }

  /** Most significant byte first. */
  lemma U32BePlaces(n: u32)
    ensures var b := U32Be(n);
            n == 0x100_0000 * b[0] as int + 0x1_0000 * b[1] as int + 0x100 * b[2] as int + b[3] as int
  {
    Digits(n);
  }

  lemma U16LePlaces(n: nat)
    requires n < 0x1_0000
    ensures n == U16Le(n)[0] as int + 0x100 * U16Le(n)[1] as int
  {
  }

  lemma U32LeInverse(n: u32)
    ensures FromU32Le(U32Le(n)) == n
  {
    Digits(n);
  }

  lemma U32BeInverse(n: u32)
    ensures FromU32Be(U32Be(n)) == n
  {
    Digits(n);
  }

  lemma U32BeReads(b: seq<byte>)
    requires |b| == 4
    ensures U32Be(FromU32Be(b)) == b
  {
    var b0: int, b1: int, b2: int, b3: int := b[0], b[1], b[2], b[3];
    var n: int := FromU32Be(b);
    assert n / 0x100 == b2 + 0x100 * b1 + 0x1_0000 * b0;
    assert n / 0x1_0000 == b1 + 0x100 * b0;
    assert n / 0x100_0000 == b0;
  }
}
