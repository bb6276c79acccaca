/** The header fields that other tar writers use. */
module TarNumbers {

  import opened Wrappers
  import opened Octets
  import opened TarBytes
  import opened TarHeader

  predicate Blank(s: Bytes) {
    forall i :: 0 <= i < |s| ==> s[i] in {9, 10, 11, 12, 13, 32}
  }

  predicate OctalDigits(s: Bytes) {
    forall i :: 0 <= i < |s| ==> 48 <= s[i] <= 55
  }

  /** A text field: white space, octal digits or nothing, white space, and
    * anything after a NUL. */
  ghost predicate IsOctal(field: Bytes, before: Bytes, digits: Bytes, after: Bytes, tail: Bytes) {
    && field == before + digits + after + tail && Blank(before) && Blank(after)
    && OctalDigits(digits) && (tail != [] ==> tail[0] == 0)
  }

  function Value(digits: Bytes): nat
    requires OctalDigits(digits)
  {
    if digits == [] then 0 else 8 * Value(digits[..|digits| - 1]) + (digits[|digits| - 1] as int - 48)
  }

  lemma {:induction false} ValueIs(digits: Bytes)
    requires OctalDigits(digits)
    ensures Number(digits, 8) == Value(digits)
  {
    if digits != [] {
      var front := digits[..|digits| - 1];
      ValueIs(front);
    }
  }

  lemma {:induction false} TrimCut(before: Bytes, text: Bytes, after: Bytes)
    requires Blank(before) && Blank(after)
    requires text != [] ==> !IsSpace(text[0]) && !IsSpace(text[|text| - 1])
    ensures Trim(before + text + after) == text
    decreases |before| + |after|
  {
    var s := before + text + after;
    if before != [] {
      assert s[0] == before[0];
      assert s[1..] == before[1..] + text + after;
      TrimCut(before[1..], text, after);
    } else if after != [] {
      var last := after[|after| - 1];
      assert s[|s| - 1] == last;
      assert s[..|s| - 1] == before + text + after[..|after| - 1];
      if text == [] {
        assert s == after && s[1..] == [] + [] + after[1..];
        TrimCut([], [], after[1..]);
      } else {
        TrimCut(before, text, after[..|after| - 1]);
      }
    } else {
      assert s == text;
    }
  }

  lemma {:induction false} TrimParts(s: Bytes) returns (before: Bytes, after: Bytes)
    ensures s == before + Trim(s) + after && Blank(before) && Blank(after)
    decreases |s|
  {
    before, after := [], [];
    if s == [] {
    } else if IsSpace(s[0]) {
      before, after := TrimParts(s[1..]);
      before := [s[0]] + before;
    } else if IsSpace(s[|s| - 1]) {
      before, after := TrimParts(s[..|s| - 1]);
      after := after + [s[|s| - 1]];
      assert s == s[..|s| - 1] + [s[|s| - 1]];
    }
  }

  /** Every such field is read as its value, up to 2^53 - 1. */
  lemma OctalIsRead(field: Bytes, before: Bytes, digits: Bytes, after: Bytes, tail: Bytes)
    requires IsOctal(field, before, digits, after, tail) && field != []
    ensures Integer(field) == if Value(digits) <= 0x1F_FFFF_FFFF_FFFF then Some(Value(digits)) else None
  {
    hide Trim, Index, ValidUtf8;
    var text := before + digits + after;
    assert field == text + tail;
    assert forall i :: 0 <= i < |text| ==> field[i] == text[i] && 0 < text[i] < 0x80;
    IndexIs(field, 0, |text|);
    ValidAscii(text);
    assert field[..|text|] == text;
    TrimCut(before, digits, after);
    ValueIs(digits);
  }

  /** And no other field that does not begin with a byte from 128 on. */
  lemma ReadIsOctal(field: Bytes) returns (before: Bytes, digits: Bytes, after: Bytes, tail: Bytes)
    requires field != [] && field[0] < 128 && Integer(field).Some?
    ensures IsOctal(field, before, digits, after, tail)
  {
    hide Trim, Index, ValidUtf8;
    var k := Index(field, 0);
    var text := field[..k];
    before, after := TrimParts(text);
    digits, tail := Trim(text), field[k..];
    assert field == text + tail;
  }

  /** A field that does begin so is a positive base-256 number. */
  lemma WideIsRead(field: Bytes)
    requires field != [] && field[0] >= 128
    ensures Integer(field).Some? ==> field[0] == 128 && Integer(field) == Wide(field[1..])
    ensures field[0] == 128 && Wide(field[1..]).Some? && Wide(field[1..]).value <= 0x1F_FFFF_FFFF_FFFF ==>
              Integer(field) == Wide(field[1..])
  {
  }
  /** Only ustar blocks of a known type are read: white space aside, their magic is
    * "ustar". */
  lemma ReadIsUstar(block: Bytes, path: Option<Bytes>) returns (before: Bytes, after: Bytes, tail: Bytes)
    requires |block| == 512 && Decode(block, path).Some?
    ensures block[257..263] == before + Ascii("ustar") + after + tail && Blank(before) && Blank(after)
    ensures tail != [] ==> tail[0] == 0
    ensures block[156] in {0, 48, 49, 50, 51, 52, 53, 54, 55, 103, 120}
  {
    hide Trim, Index, ValidUtf8, Integer, DecodeName;
    var field := block[257..263];
    var k := Index(field, 0);
    before, after := TrimParts(field[..k]);
    tail := field[k..];
    assert Ascii("ustar") == USTAR;
    assert field == field[..k] + tail;
  }
}
