/** rawHeader and integer as the code runs them: a block filled in place, and a
  * loop over base-256 digits. */
module TarHeaderCode {

  import opened Wrappers
  import opened Octets
  import opened TarBytes
  import opened TarHeader

  /** The base-256 loop of integer. */
  method DecodeWide(s: Bytes) returns (value: Option<nat>)
    ensures value == Wide(s)
  {
    var v := 0;
    for i := 0 to |s|
      invariant Wide(s[..i]) == Some(v)
    {
      assert s[..i + 1][..i] == s[..i];
      if v > MAX_INTEGER / 256 {
        WideStaysNone(s, i + 1);
        return None;
      }
      v := v * 256 + s[i];
    }
    assert s[..|s|] == s;
    value := Some(v);
  }

  lemma {:induction false} WideStaysNone(s: Bytes, i: nat)
    requires i <= |s| && Wide(s[..i]).None?
    ensures Wide(s).None?
    decreases |s| - i
  {
    if i < |s| {
      assert s[..i + 1][..i] == s[..i];
      WideStaysNone(s, i + 1);
    } else {
      assert s[..i] == s;
    }
  }

  // A block whose first part is written and whose rest is still zero.
  ghost predicate Filled(block: array<Byte>, done: Bytes)
    reads block
  {
    block.Length == BLOCK && |done| <= BLOCK && block[..] == done + Zeros(BLOCK - |done|)
  }

  method Copy(block: array<Byte>, offset: nat, value: Bytes, ghost done: Bytes)
    requires Filled(block, done) && offset == |done| && offset + |value| <= BLOCK
    modifies block
    ensures Filled(block, done + value)
  {
    for i := 0 to |value|
      invariant block[..] == done + value[..i] + Zeros(BLOCK - |done| - i)
    {
      block[offset + i] := value[i];
      assert block[..] == done + value[..i + 1] + Zeros(BLOCK - |done| - (i + 1));
    }
  }

  // text: the bytes, leaving the rest of the field zero.
  method Text(block: array<Byte>, offset: nat, value: Bytes, width: nat, ghost done: Bytes) returns (ok: bool)
    requires Filled(block, done) && offset == |done| && offset + width <= BLOCK
    modifies block
    ensures ok <==> Storable(value, width)
    ensures ok ==> Filled(block, done + Padded(value, width))
  {
    if |value| > width || 0 in value {
      return false;
    }
    Copy(block, offset, value, done);
    assert done + value + Zeros(BLOCK - |done + value|) == done + Padded(value, width) + Zeros(BLOCK - |done| - width);
    ok := true;
  }

  // number: octal if it fits with a final NUL, else base 256.
  method Numeral(block: array<Byte>, offset: nat, value: int, width: nat, ghost done: Bytes) returns (ok: bool)
    requires Filled(block, done) && offset == |done| && 8 <= width && offset + width <= BLOCK
    modifies block
    ensures ok <==> InRange(value)
    ensures ok ==> Filled(block, done + NumberField(value, width))
  {
    if !InRange(value) {
      return false;
    }
    var octal := Digits(value, 8);
    if |octal| < width {
      var text := seq(width - 1 - |octal|, i => 48) + octal;
      ok := Text(block, offset, text, width, done);
      assert Padded(text, width) == NumberField(value, width);
    } else {
      ok := WideNumeral(block, offset, value, width, done);
    }
  }

  // Base 256, written from the last byte back.
  method WideNumeral(block: array<Byte>, offset: nat, value: nat, width: nat, ghost done: Bytes) returns (ok: bool)
    requires Filled(block, done) && offset == |done| && 8 <= width && offset + width <= BLOCK && InRange(value)
    modifies block
    ensures ok && Filled(block, done + ([128] + BigEndian(value, width - 1)))
  {
    hide InRange, BigEndian, Pow;
    var wide: nat := value;
    var index := width - 1;
    assert value < Pow(256, width - 1) by { FitsWide(value, width); }
    ghost var after := Zeros(BLOCK - |done| - width);
    ghost var tail: Bytes := [];
    assert block[..] == done + Zeros(index + 1) + tail + after;
    while index > 0
      invariant index < width && wide < Pow(256, index) && |tail| == width - 1 - index
      invariant block[..] == done + Zeros(index + 1) + tail + after
      invariant BigEndian(value, width - 1) == BigEndian(wide, index) + tail
    {
      LastByte(wide, index, tail);
      block[offset + index] := wide % 256;
      StoreLast(done, index, wide % 256, tail, after);
      tail := [wide % 256] + tail;
      wide := wide / 256;
      index := index - 1;
    }
    NoBytes(wide, tail);
    if wide != 0 {
      return false;
    }
    block[offset] := 128;
    assert block[..] == done + ([128] + tail) + after;
    ok := true;
  }

  lemma LastByte(wide: nat, index: nat, tail: Bytes)
    requires index > 0 && wide < Pow(256, index)
    ensures wide / 256 < Pow(256, index - 1)
    ensures BigEndian(wide, index) + tail == BigEndian(wide / 256, index - 1) + ([wide % 256] + tail)
  {
  }

  lemma NoBytes(wide: nat, tail: Bytes)
    requires wide < Pow(256, 0)
    ensures wide == 0 && BigEndian(wide, 0) + tail == tail
  {
  }

  // A byte stored at the end of the zeros.
  lemma StoreLast(done: Bytes, index: nat, b: Byte, tail: Bytes, after: Bytes)
    ensures (done + Zeros(index + 1) + tail + after)[|done| + index := b] == done + Zeros(index) + ([b] + tail) + after
  {
  }

  lemma FitsWide(value: int, width: nat)
    requires InRange(value) && width >= 8
    ensures value < Pow(256, width - 1)
  {
    PowerOf256(width - 1);
  }

  /** rawHeader. */
  method RawHeader(h: Header, flag: Byte) returns (ok: bool, block: array<Byte>)
    ensures fresh(block)
    ensures ok <==> Encodable(h)
    ensures ok ==> block[..] == Block(h, flag)
  {
    block := new Byte[BLOCK](i => 0);
    assert block[..] == [] + Zeros(BLOCK);
    ok := FillFront(block, h);
    if !ok {
      return;
    }
    ok := FillBack(block, h, flag, Front(h));
    if !ok {
      return;
    }
    StoreChecksum(block, h, flag);
  }

  /** Sum the block with spaces for its checksum, then store the sum there. */
  method StoreChecksum(block: array<Byte>, h: Header, flag: Byte)
    requires Encodable(h) && block.Length == BLOCK && block[..] == Front(h) + seq(8, i => 32) + Back(h, flag, [])
    modifies block
    ensures block[..] == Block(h, flag)
  {
    ghost var spaces: Bytes := seq(8, i => 32);
    ghost var front, back := Front(h), Back(h, flag, []);
    var sum: nat := 0;
    for i := 0 to BLOCK
      invariant sum == Sum(block[..i])
    {
      assert block[..i + 1][..i] == block[..i];
      sum := sum + block[i] as int;
    }
    assert block[..BLOCK] == front + spaces + back;
    SumConcat(front + spaces, back);
    SumConcat(front, spaces);
    SumSpaces(8);
    ChecksumFits(h, flag, []);
    PutChecksum(block, Octal(sum, 6), front, spaces, back);
  }

  method PutChecksum(block: array<Byte>, digits: Bytes, ghost front: Bytes, ghost spaces: Bytes, ghost back: Bytes)
    requires |front| == 148 && |digits| == 6 && spaces == seq(8, i => 32) && |back| == 356
    requires block.Length == BLOCK && block[..] == front + spaces + back
    modifies block
    ensures block[..] == front + (digits + [0, 32]) + back
  {
    for i := 0 to 6
      invariant block[..] == front + digits[..i] + spaces[i..] + back
    {
      block[148 + i] := digits[i];
      assert block[..] == front + digits[..i + 1] + spaces[i + 1..] + back;
    }
    block[154] := 0;
    assert block[..] == front + (digits + [0, 32]) + back;
  }

  lemma {:induction false} SumSpaces(k: nat)
    ensures Sum(seq(k, i => 32)) == k * 32
  {
    if k > 0 {
      assert seq(k, i => 32)[..k - 1] == seq(k - 1, i => 32);
      SumSpaces(k - 1);
    }
  }

  method FillFront(block: array<Byte>, h: Header) returns (ok: bool)
    requires Filled(block, [])
    modifies block
    ensures ok <==> FrontFits(h)
    ensures ok ==> Filled(block, Front(h))
  {
    ok := Text(block, 0, h.name, 100, []);
    if !ok {
      return;
    }
    ghost var done := Padded(h.name, 100);
    assert [] + done == done;
    ok := FillOwner(block, h, done);
    if !ok {
      return;
    }
    done := done + NumberField(h.mode, 8) + NumberField(h.uid, 8) + NumberField(h.gid, 8);
    ok := Numeral(block, 124, h.size, 12, done);
    if !ok {
      return;
    }
    ok := h.mtime <= MAX_INTEGER;
    if !ok {
      return;
    }
    ok := Numeral(block, 136, StoredMtime(h.mtime), 12, done + NumberField(h.size, 12));
  }

  method FillOwner(block: array<Byte>, h: Header, ghost done: Bytes) returns (ok: bool)
    requires Filled(block, done) && |done| == 100
    modifies block
    ensures ok <==> InRange(h.mode) && InRange(h.uid) && InRange(h.gid)
    ensures ok ==> Filled(block, done + NumberField(h.mode, 8) + NumberField(h.uid, 8) + NumberField(h.gid, 8))
  {
    ok := Numeral(block, 100, h.mode, 8, done);
    if !ok {
      return;
    }
    ok := Numeral(block, 108, h.uid, 8, done + NumberField(h.mode, 8));
    if !ok {
      return;
    }
    ok := Numeral(block, 116, h.gid, 8, done + NumberField(h.mode, 8) + NumberField(h.uid, 8));
  }

  method FillBack(block: array<Byte>, h: Header, flag: Byte, ghost front: Bytes) returns (ok: bool)
    requires Filled(block, front) && |front| == 148
    modifies block
    ensures ok <==> Storable(h.linkname, 100)
    ensures ok ==> block.Length == BLOCK && block[..] == front + seq(8, i => 32) + Back(h, flag, [])
  {
    var spaces: Bytes := seq(8, i => 32);
    Copy(block, 148, spaces, front);
    ghost var done := front + spaces;
    Copy(block, 156, [flag], done);
    done := done + [flag];
    ok := Text(block, 157, h.linkname, 100, done);
    if !ok {
      return;
    }
    done := done + Padded(h.linkname, 100);
    Copy(block, 257, USTAR + [0], done);
    done := done + (USTAR + [0]);
    Copy(block, 263, [48, 48], done);
    assert block[..] == front + spaces + Back(h, flag, []);
  }

  /** The value of octal digits. */
  method ParseOctal(digits: Bytes) returns (value: nat)
    requires IsDigits(digits, 8)
    ensures value == Number(digits, 8)
  {
    value := 0;
    for i := 0 to |digits|
      invariant value == Number(digits[..i], 8)
    {
      assert digits[..i + 1][..i] == digits[..i];
      value := value * 8 + (digits[i] - 48);
    }
    assert digits[..|digits|] == digits;
  }

  /** integer. */
  method DecodeInteger(field: Bytes) returns (value: Option<nat>)
    requires field != []
    ensures value == Integer(field)
  {
    var v: nat := 0;
    if field[0] >= 128 {
      if field[0] != 128 {
        return None;
      }
      var wide := DecodeWide(field[1..]);
      if wide.None? {
        return None;
      }
      v := wide.value;
    } else {
      var text := TextField(field);
      if text.None? {
        return None;
      }
      var encoded := Trim(text.value);
      if encoded != [] {
        if !IsDigits(encoded, 8) {
          return None;
        }
        v := ParseOctal(encoded);
      }
    }
    if v > MAX_INTEGER {
      return None;
    }
    value := Some(v);
  }

  /** The checksum field and the magic. */
  method CheckBlock(block: Bytes) returns (ok: bool)
    requires |block| == BLOCK
    ensures ok <==> Intact(block)
  {
    hide Integer, TextField, Trim;
    var checksum := DecodeInteger(block[148..156]);
    if checksum.None? {
      return false;
    }
    var actual: nat := 8 * 32;
    for index := 0 to BLOCK
      invariant actual == 8 * 32 + Sum(block[..if index < 148 then index else 148]) +
                          Sum(block[156..if index < 156 then 156 else index])
    {
      if index < 148 {
        assert block[..index + 1][..index] == block[..index];
      }
      if index >= 156 {
        assert block[156..index + 1][..index - 156] == block[156..index];
      }
      if index < 148 || index >= 156 {
        actual := actual + block[index] as int;
      }
    }
    assert block[156..BLOCK] == block[156..];
    var magic := TextField(block[257..263]);
    ok := magic.Some? && checksum.value == actual && Trim(magic.value) == USTAR;
  }

  method ReadName(block: Bytes, path: Option<Bytes>) returns (name: Option<Bytes>)
    requires |block| == BLOCK
    ensures name == DecodeName(block, path)
  {
    if path.Some? {
      return path;
    }
    if block[156] == PAX_FLAG || block[156] == GLOBAL_FLAG {
      return Some(PAX_NAME);
    }
    var prefix := TextField(block[345..500]);
    if prefix.None? {
      return None;
    }
    name := TextField(block[0..100]);
    if name.Some? && prefix.value != [] {
      name := Some(prefix.value + [47] + name.value);
    }
  }

  // The fields the source reads in a loop.
  method ReadNumbers(block: Bytes) returns (numbers: Option<seq<nat>>)
    requires |block| == BLOCK
    ensures numbers.None? <==> exists k :: 0 <= k < 5 && Integer(NumberBytes(block, k)).None?
    ensures numbers.Some? ==> |numbers.value| == 5
    ensures numbers.Some? ==> forall k :: 0 <= k < 5 ==> Integer(NumberBytes(block, k)) == Some(numbers.value[k])
  {
    hide Integer;
    var read: seq<nat> := [];
    for k := 0 to 5
      invariant |read| == k && forall j :: 0 <= j < k ==> Integer(NumberBytes(block, j)) == Some(read[j])
    {
      var value := DecodeInteger(NumberBytes(block, k));
      if value.None? {
        return None;
      }
      read := read + [value.value];
    }
    numbers := Some(read);
  }

  const BOUNDS := [100, 108, 116, 124, 136, 148]

  // Mode, owner, group, size and time.
  function NumberBytes(block: Bytes, k: nat): (field: Bytes)
    requires |block| == BLOCK && k < 5
    ensures field != []
  {
    block[BOUNDS[k]..BOUNDS[k + 1]]
  }

  /** DecodeHeader: the checksum loop, then the fields. */
  method DecodeHeader(block: Bytes, path: Option<Bytes>) returns (header: Option<Header>)
    ensures header == if |block| == BLOCK then Decode(block, path) else None
  {
    hide Integer, Intact, DecodeName, TextField;
    if |block| != BLOCK {
      return None;
    }
    var ok := CheckBlock(block);
    var kind := KindOf(block[156]);
    if !ok || kind.None? {
      return None;
    }
    var name := ReadName(block, path);
    if name.None? {
      return None;
    }
    var numbers := ReadNumbers(block);
    assert NumberBytes(block, 0) == block[100..108] && NumberBytes(block, 1) == block[108..116];
    assert NumberBytes(block, 2) == block[116..124] && NumberBytes(block, 3) == block[124..136];
    assert NumberBytes(block, 4) == block[136..148];
    if numbers.None? {
      return None;
    }
    var n := numbers.value;
    var linkname := TextField(block[157..257]);
    if linkname.None? {
      return None;
    }
    header := Some(Header(name.value, kind.value, n[3], n[0], n[1], n[2], n[4], linkname.value, map[]));
  }
}
