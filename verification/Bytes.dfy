/**
Bytes and the fixed-width integer encodings the wire formats are made of.
*/
module Bytes {

  type byte = x: int | 0 <= x < 256

  datatype Option<+T> = None | Some(value: T)

  datatype Result<+T, +E> = Ok(value: T) | Err(error: E)

  const U16_LIMIT: nat := 0x1_0000

  const U32_LIMIT: nat := 0x1_0000_0000

  function Min(a: int, b: int): int {
    if a <= b then a else b
  }

  function Max(a: int, b: int): int {
    if a >= b then a else b
  }

  /** Rust's `(n as u16).to_le_bytes()`: the cast drops everything above bit 15. */
  function U16ToLe(n: nat): (b: seq<byte>)
    ensures |b| == 2
  {
    [n % 256, n / 256 % 256]
  }

  /** Rust's `(n as u32).to_le_bytes()`. */
  function U32ToLe(n: nat): (b: seq<byte>)
    ensures |b| == 4
  {
    [n % 256, n / 256 % 256, n / 0x1_0000 % 256, n / 0x100_0000 % 256]
  }

  function U16FromLe(b: seq<byte>): (n: nat)
    requires |b| == 2
    ensures n < U16_LIMIT
  {
    b[0] as int + 256 * b[1] as int
  }

  function U32FromLe(b: seq<byte>): (n: nat)
    requires |b| == 4
    ensures n < U32_LIMIT
  {
    b[0] as int + 256 * b[1] as int + 0x1_0000 * b[2] as int + 0x100_0000 * b[3] as int
  }

  /** The two low digits of a number in base 256. */
  lemma TwoDigits(n: nat)
    ensures n % U16_LIMIT == n % 256 + 256 * (n / 256 % 256)
    ensures n / 256 / 256 == n / U16_LIMIT
  {
    var q := n / 256;
    assert n == 256 * q + n % 256;
    assert q == 256 * (q / 256) + q % 256;
  }

  /** Two digits in base 2^16. */
  lemma TwoHalves(n: nat)
    ensures n % U32_LIMIT == n % U16_LIMIT + U16_LIMIT * (n / U16_LIMIT % U16_LIMIT)
  {
    var q := n / U16_LIMIT;
    assert n == U16_LIMIT * q + n % U16_LIMIT;
    assert q == U16_LIMIT * (q / U16_LIMIT) + q % U16_LIMIT;
  }

  /** Reading back a written u16 gives the number modulo 2^16. */
  lemma U16RoundTrip(n: nat)
    ensures U16FromLe(U16ToLe(n)) == n % U16_LIMIT
  {
    TwoDigits(n);
  }

  /** Reading back a written u32 gives the number modulo 2^32. */
  lemma U32RoundTrip(n: nat)
    ensures U32FromLe(U32ToLe(n)) == n % U32_LIMIT
  {
    var high := n / U16_LIMIT;
    TwoHalves(n);
    TwoDigits(n);
    TwoDigits(high);
    assert n / 0x100_0000 == high / 256;
  }

  function Zeros(n: nat): (z: seq<byte>)
    ensures |z| == n
  {
    seq(n, _ => 0)
  }

  /** All pieces laid end to end. */
  function Concat(pieces: seq<seq<byte>>): (buf: seq<byte>)
  {
    if pieces == [] then [] else pieces[0] + Concat(pieces[1..])
  }

  lemma {:induction false} ConcatAppend(pieces: seq<seq<byte>>, last: seq<byte>)
    ensures Concat(pieces + [last]) == Concat(pieces) + last
  {
    if pieces == [] {
      assert pieces + [last] == [last];
      assert Concat([last]) == last + Concat([]);
    } else {
      ConcatAppend(pieces[1..], last);
      assert (pieces + [last])[1..] == pieces[1..] + [last];
    }
  }
}
