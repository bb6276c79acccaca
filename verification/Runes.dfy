/** The bytes that count as UTF-8 are the encodings of characters. */
module Runes {

  import opened Octets
  import opened TarBytes

  // A character that can be encoded: no surrogate.
  predicate IsScalar(c: nat) {
    c < 0xD800 || 0xE000 <= c < 0x11_0000
  }

  /** The encoding of a character, by RFC 3629, section 3. */
  function Utf8(c: nat): Bytes
    requires IsScalar(c)
  {
    if c < 0x80 then [c]
    else if c < 0x800 then [0xC0 + c / 64, 0x80 + c % 64]
    else if c < 0x1_0000 then [0xE0 + c / 64 / 64, 0x80 + c / 64 % 64, 0x80 + c % 64]
    else [0xF0 + c / 64 / 64 / 64, 0x80 + c / 64 / 64 % 64, 0x80 + c / 64 % 64, 0x80 + c % 64]
  }

  // The six bits of a byte that continues a character.
  function Bits(b: Byte): (n: nat)
    requires Continuation(b)
    ensures n < 64 && b == 0x80 + n
  {
    b as int - 0x80
  }

  // The character that well-formed bytes encode.
  function CharOf(s: Bytes): nat
    requires RuneLength(s) > 0
  {
    match RuneLength(s)
    case 1 => s[0]
    case 2 => (s[0] as int - 0xC0) * 64 + Bits(s[1])
    case 3 => ((s[0] as int - 0xE0) * 64 + Bits(s[1])) * 64 + Bits(s[2])
    case _ => (((s[0] as int - 0xF0) * 64 + Bits(s[1])) * 64 + Bits(s[2])) * 64 + Bits(s[3])
  }

  lemma RuneOfChar(c: nat, rest: Bytes)
    requires IsScalar(c)
    ensures RuneLength(Utf8(c) + rest) == |Utf8(c)|
  {
    var s := Utf8(c) + rest;
    if c < 0x80 {
      assert s[0] == c;
    } else if c < 0x800 {
      assert s[0] == 0xC0 + c / 64 && s[1] == 0x80 + c % 64;
    } else if c < 0x1_0000 {
      assert s[0] == 0xE0 + c / 64 / 64 && s[1] == 0x80 + c / 64 % 64 && s[2] == 0x80 + c % 64;
    } else {
      assert s[0] == 0xF0 + c / 64 / 64 / 64 && s[1] == 0x80 + c / 64 / 64 % 64;
      assert s[2] == 0x80 + c / 64 % 64 && s[3] == 0x80 + c % 64;
    }
  }

  lemma Digit(high: nat, low: nat)
    requires low < 64
    ensures (high * 64 + low) / 64 == high && (high * 64 + low) % 64 == low
  {
  }

  lemma CharOfRune(s: Bytes)
    requires RuneLength(s) > 0
    ensures IsScalar(CharOf(s)) && s[..RuneLength(s)] == Utf8(CharOf(s))
  {
    var n := RuneLength(s);
    var c := CharOf(s);
    if n == 1 {
      assert s[..1] == [s[0]];
    } else if n == 2 {
      Digit(s[0] as int - 0xC0, Bits(s[1]));
      assert s[..2] == [s[0], s[1]];
    } else if n == 3 {
      var high := (s[0] as int - 0xE0) * 64 + Bits(s[1]);
      Digit(s[0] as int - 0xE0, Bits(s[1]));
      Digit(high, Bits(s[2]));
      assert s[..3] == [s[0], s[1], s[2]];
    } else {
      var high := (s[0] as int - 0xF0) * 64 + Bits(s[1]);
      Digit(s[0] as int - 0xF0, Bits(s[1]));
      Digit(high, Bits(s[2]));
      Digit(high * 64 + Bits(s[2]), Bits(s[3]));
      assert s[..4] == [s[0], s[1], s[2], s[3]];
    }
  }

  /** A rune starts s exactly if the encoding of a character does, and it is as
    * long as that. */
  lemma RuneIs(s: Bytes)
    ensures RuneLength(s) > 0 <==> exists c :: IsScalar(c) && Utf8(c) <= s
    ensures forall c :: IsScalar(c) && Utf8(c) <= s ==> RuneLength(s) == |Utf8(c)|
  {
    hide RuneLength, Utf8;
    if RuneLength(s) > 0 {
      CharOfRune(s);
    }
    forall c | IsScalar(c) && Utf8(c) <= s
      ensures RuneLength(s) == |Utf8(c)| > 0
    {
      RuneOfChar(c, s[|Utf8(c)|..]);
      assert s == Utf8(c) + s[|Utf8(c)|..];
      NotEmpty(c);
    }
  }

  lemma NotEmpty(c: nat)
    requires IsScalar(c)
    ensures Utf8(c) != []
  {
  }

  function Text(chars: seq<nat>): Bytes
    requires forall c :: c in chars ==> IsScalar(c)
  {
    if chars == [] then [] else Utf8(chars[0]) + Text(chars[1..])
  }

  lemma {:induction false} TextIsValid(chars: seq<nat>)
    requires forall c :: c in chars ==> IsScalar(c)
    ensures ValidUtf8(Text(chars))
  {
    hide RuneLength, Utf8;
    if chars != [] {
      var s := Text(chars);
      RuneOfChar(chars[0], Text(chars[1..]));
      NotEmpty(chars[0]);
      assert s[|Utf8(chars[0])|..] == Text(chars[1..]);
      TextIsValid(chars[1..]);
    }
  }

  lemma {:induction false} ValidIsText(s: Bytes) returns (chars: seq<nat>)
    requires ValidUtf8(s)
    ensures (forall c :: c in chars ==> IsScalar(c)) && Text(chars) == s
    decreases |s|
  {
    hide RuneLength, Utf8, CharOf;
    if s == [] {
      chars := [];
    } else {
      var n := RuneLength(s);
      CharOfRune(s);
      var more := ValidIsText(s[n..]);
      chars := [CharOf(s)] + more;
      assert chars[1..] == more && s == s[..n] + s[n..];
    }
  }

  /** Bytes are valid exactly if they are the text of some characters. */
  lemma ValidIs(s: Bytes)
    ensures ValidUtf8(s) <==> exists chars: seq<nat> :: (forall c :: c in chars ==> IsScalar(c)) && Text(chars) == s
  {
    hide ValidUtf8, Text;
    if ValidUtf8(s) {
      var chars := ValidIsText(s);
    }
    forall chars: seq<nat> | (forall c :: c in chars ==> IsScalar(c)) && Text(chars) == s
      ensures ValidUtf8(s)
    {
      TextIsValid(chars);
    }
  }
}
