/** Raw packet bytes and the big-endian words read out of them. */
module Bytes {

  type byte = b: int | 0 <= b < 256

  type Bytes = seq<byte>

  /** An IPv4 address as a 32-bit word, which is also the key of every per-source map. */
  type Ip = nat

  /** The 16-bit word at offset `i`, most significant byte first. */
  function Be16(b: Bytes, i: nat): (r: nat)
    requires i + 2 <= |b|
    ensures r < 0x1_0000
  {
    b[i] as int * 256 + b[i + 1]
  }

  /** The two bytes that `Be16` reads back as `v`. */
  function Put16(v: nat): (b: Bytes)
    requires v < 0x1_0000
    ensures |b| == 2 && Be16(b, 0) == v
  {
    [v / 256, v % 256]
  }

  /** The 32-bit word at offset `i`. */
  function Be32(b: Bytes, i: nat): (r: nat)
    requires i + 4 <= |b|
    ensures r < 0x1_0000_0000
  {
    Be16(b, i) * 0x1_0000 + Be16(b, i + 2)
  }

  /** The four bytes that `Be32` reads back as `v`. */
  function Put32(v: nat): (b: Bytes)
    requires v < 0x1_0000_0000
    ensures |b| == 4 && Be32(b, 0) == v
  {
    var hi, lo := Put16(v / 0x1_0000), Put16(v % 0x1_0000);
    assert Be16(hi, 0) == Be16(hi + lo, 0) && Be16(lo, 0) == Be16(hi + lo, 2);
    hi + lo
  }

  /** The prefix of `b` that a bounded scan looks at. */
  function Head(b: Bytes, n: nat): (r: Bytes)
    ensures |r| == if |b| < n then |b| else n
  {
    if |b| < n then b else b[..n]
  }

  /** The bytes of a text. */
  function Ascii(text: string): (b: Bytes)
    requires forall i :: 0 <= i < |text| ==> text[i] < 128 as char
    ensures |b| == |text| && forall i :: 0 <= i < |b| ==> b[i] == text[i] as int
  {
    seq(|text|, i requires 0 <= i < |text| => text[i] as int)
  }
}
