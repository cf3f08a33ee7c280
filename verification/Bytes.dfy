// Bytes as node's Buffer holds them, and the big-endian lengths of the TLS presentation language.
module Bytes {
  type byte = x: int | 0 <= x < 256
  type bytes = seq<byte>

  // `Buffer.from([value >> 8, value & 0xff])`: a larger value keeps its low sixteen bits.
  function U16(value: nat): bytes {
    [value / 256 % 256, value % 256]
  }

  // `Buffer.from([value >> 16, (value >> 8) & 0xff, value & 0xff])`.
  function U24(value: nat): bytes {
    [value / 65536 % 256, value / 256 % 256, value % 256]
  }

  function ReadU16(b: bytes): nat
    requires |b| >= 2
  {
    b[0] as nat * 256 + b[1] as nat
  }

  function ReadU24(b: bytes): nat
    requires |b| >= 3
  {
    b[0] as nat * 65536 + b[1] as nat * 256 + b[2] as nat
  }

  function Concat(parts: seq<bytes>): bytes {
    if parts == [] then [] else parts[0] + Concat(parts[1..])
  }

  // What is read back is the value's low bits, so exactly the values that fit survive the two lengths.
  lemma LengthsReadBack(value: nat, rest: bytes)
    ensures ReadU16(U16(value) + rest) == value <==> value < 0x1_0000
    ensures ReadU24(U24(value) + rest) == value <==> value < 0x100_0000
  {
    assert value / 65536 == value / 256 / 256;
  }

  lemma {:induction false} ConcatAppend(a: seq<bytes>, b: seq<bytes>)
    ensures Concat(a + b) == Concat(a) + Concat(b)
  {
    if a == [] {
      assert a + b == b;
    } else {
      assert (a + b)[1..] == a[1..] + b;
      ConcatAppend(a[1..], b);
    }
  }
}
