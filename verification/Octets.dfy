/** Bytes, and the byte strings that a sequence of reads or pushes makes up. */
module Octets {

  type Byte = b: int | 0 <= b < 256

  type Bytes = seq<Byte>

  /** What all chunks together say. */
  function Flat(chunks: seq<Bytes>): Bytes {
    if chunks == [] then [] else chunks[0] + Flat(chunks[1..])
  }

  function Min(a: nat, b: nat): nat {
    if a < b then a else b
  }

  // The bytes of a text of ASCII characters.
  function Ascii(text: string): (s: Bytes)
    requires forall i :: 0 <= i < |text| ==> text[i] < 128 as char
    ensures |s| == |text| && forall i :: 0 <= i < |s| ==> s[i] == text[i] as int
  {
    seq(|text|, i requires 0 <= i < |text| => text[i] as int as Byte)
  }
}
