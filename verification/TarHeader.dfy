/** One 512-byte ustar header block: rawHeader and DecodeHeader. */
module TarHeader {

  import opened Wrappers
  import opened Octets
  import opened TarBytes

  const BLOCK: nat := 512

  const USTAR: Bytes := [117, 115, 116, 97, 114]
  const PAX_NAME: Bytes := [80, 97, 120, 72, 101, 97, 100, 101, 114]
  const PAX_FLAG: Byte := 120
  const GLOBAL_FLAG: Byte := 103

  datatype Kind =
    | Unset
    | File
    | Link
    | Symlink
    | CharacterDevice
    | BlockDevice
    | Directory
    | Fifo
    | ContiguousFile
    | PaxHeader
    | PaxGlobalHeader

  type Pax = map<Bytes, Bytes>

  datatype Header = Header(name: Bytes, kind: Kind, size: int, mode: int, uid: int, gid: int, mtime: int,
                           linkname: Bytes, pax: Pax)

  function FlagOf(kind: Kind): Byte {
    match kind
    case Unset => 48
    case File => 48
    case Link => 49
    case Symlink => 50
    case CharacterDevice => 51
    case BlockDevice => 52
    case Directory => 53
    case Fifo => 54
    case ContiguousFile => 55
    case PaxHeader => PAX_FLAG
    case PaxGlobalHeader => GLOBAL_FLAG
  }

  function KindOf(flag: Byte): Option<Kind> {
    if flag == 0 || flag == 48 then Some(File)
    else if flag == 49 then Some(Link)
    else if flag == 50 then Some(Symlink)
    else if flag == 51 then Some(CharacterDevice)
    else if flag == 52 then Some(BlockDevice)
    else if flag == 53 then Some(Directory)
    else if flag == 54 then Some(Fifo)
    else if flag == 55 then Some(ContiguousFile)
    else if flag == PAX_FLAG then Some(PaxHeader)
    else if flag == GLOBAL_FLAG then Some(PaxGlobalHeader)
    else None
  }

  // Fields

  function TextField(field: Bytes): Option<Bytes> {
    var text := field[..Index(field, 0)];
    if ValidUtf8(text) then Some(text) else None
  }

  predicate IsSpace(b: Byte) {
    9 <= b <= 13 || b == 32
  }

  function Trim(s: Bytes): Bytes {
    if s == [] then []
    else if IsSpace(s[0]) then Trim(s[1..])
    else if IsSpace(s[|s| - 1]) then Trim(s[..|s| - 1])
    else s
  }

  /** integer: an octal text field or a positive base-256 field, at most 2^53 - 1. */
  function Integer(field: Bytes): Option<nat>
    requires field != []
  {
    if field[0] >= 128 then
      if field[0] != 128 then None
      else
        match Wide(field[1..])
        case Some(v) => if v <= MAX_INTEGER then Some(v) else None
        case None => None
    else
      match TextField(field)
      case None => None
      case Some(text) =>
        var encoded := Trim(text);
        if encoded == [] then Some(0)
        else if !IsDigits(encoded, 8) then None
        else if Number(encoded, 8) <= MAX_INTEGER then Some(Number(encoded, 8))
        else None
  }

  // What rawHeader stores: text padded with NULs, numbers in octal if they fit
  // with a final NUL, else in base 256.

  predicate Storable(text: Bytes, width: nat) {
    |text| <= width && 0 !in text
  }

  function Padded(text: Bytes, width: nat): (f: Bytes)
    requires |text| <= width
    ensures |f| == width
  {
    text + Zeros(width - |text|)
  }

  function Octal(value: nat, width: nat): (f: Bytes)
    requires |Digits(value, 8)| <= width
    ensures |f| == width && IsDigits(f, 8)
  {
    seq(width - |Digits(value, 8)|, i => 48) + Digits(value, 8)
  }

  predicate InRange(value: int) {
    0 <= value <= MAX_INTEGER
  }

  function NumberField(value: nat, width: nat): (f: Bytes)
    requires width >= 2
    ensures |f| == width
  {
    if |Digits(value, 8)| < width then Octal(value, width - 1) + [0]
    else [128] + BigEndian(value, width - 1)
  }

  function StoredMtime(mtime: int): nat {
    if mtime < 0 then 0 else mtime
  }

  predicate FrontFits(h: Header) {
    && Storable(h.name, 100) && InRange(h.mode) && InRange(h.uid) && InRange(h.gid)
    && InRange(h.size) && h.mtime <= MAX_INTEGER
  }

  predicate Encodable(h: Header) {
    FrontFits(h) && Storable(h.linkname, 100)
  }

  // The block before, and after, its checksum field.
  function Front(h: Header): (f: Bytes)
    requires FrontFits(h)
    ensures |f| == 148
  {
    Padded(h.name, 100) + NumberField(h.mode, 8) + NumberField(h.uid, 8) + NumberField(h.gid, 8) +
    NumberField(h.size, 12) + NumberField(StoredMtime(h.mtime), 12)
  }

  // The writer leaves the prefix of the name empty; other writers put the front
  // of a long path there.
  function Back(h: Header, flag: Byte, prefix: Bytes): (f: Bytes)
    requires Storable(h.linkname, 100) && Storable(prefix, 155)
    ensures |f| == 356
  {
    [flag] + Padded(h.linkname, 100) + USTAR + [0] + [48, 48] + Zeros(80) + Padded(prefix, 155) + Zeros(12)
  }

  function Checksum(h: Header, flag: Byte, prefix: Bytes): nat
    requires Encodable(h) && Storable(prefix, 155)
  {
    Sum(Front(h)) + 8 * 32 + Sum(Back(h, flag, prefix))
  }

  /** The checksum always fits its six octal digits. */
  lemma ChecksumFits(h: Header, flag: Byte, prefix: Bytes)
    requires Encodable(h) && Storable(prefix, 155)
    ensures |Digits(Checksum(h, flag, prefix), 8)| <= 6 && Checksum(h, flag, prefix) <= MAX_INTEGER
  {
    SumBound(Front(h));
    SumBound(Back(h, flag, prefix));
    assert Pow(8, 6) == 262144 by {
      assert Pow(8, 3) == 512;
      assert Pow(8, 6) == 8 * (8 * (8 * Pow(8, 3)));
    }
    DigitsLength(Checksum(h, flag, prefix), 8, 6);
  }

  /** A block whose name may be split into a prefix and the rest. */
  function Ustar(h: Header, flag: Byte, prefix: Bytes): (b: Bytes)
    requires Encodable(h) && Storable(prefix, 155)
    ensures |b| == BLOCK
  {
    ChecksumFits(h, flag, prefix);
    Front(h) + (Octal(Checksum(h, flag, prefix), 6) + [0, 32]) + Back(h, flag, prefix)
  }

  // What rawHeader writes.
  function Block(h: Header, flag: Byte): (b: Bytes)
    requires Encodable(h)
    ensures |b| == BLOCK
  {
    Ustar(h, flag, [])
  }

  // Decoding

  /** The checksum, which counts its own field as spaces, and the magic. */
  predicate Intact(block: Bytes)
    requires |block| == BLOCK
  {
    && Integer(block[148..156]) == Some(Sum(block[..148]) + 8 * 32 + Sum(block[156..]))
    && var magic := TextField(block[257..263]);
       magic.Some? && Trim(magic.value) == USTAR
  }

  /** DecodeHeader, for a 512-byte block. */
  function Decode(block: Bytes, path: Option<Bytes>): (d: Option<Header>)
    requires |block| == BLOCK
    ensures d.Some? ==> d.value.size >= 0
  {
    if !Intact(block) then None
    else
      var kind := KindOf(block[156]);
      var name := DecodeName(block, path);
      var mode, uid, gid := Integer(block[100..108]), Integer(block[108..116]), Integer(block[116..124]);
      var size, mtime := Integer(block[124..136]), Integer(block[136..148]);
      var linkname := TextField(block[157..257]);
      if kind.None? || name.None? || mode.None? || uid.None? || gid.None? || size.None? || mtime.None? ||
        linkname.None? then None
      else
        Some(Header(name.value, kind.value, size.value, mode.value, uid.value, gid.value, mtime.value, linkname.value,
                    map[]))
  }

  /** The path from PAX wins over the ustar name, which may be cut inside a
    * UTF-8 sequence. */
  function DecodeName(block: Bytes, path: Option<Bytes>): Option<Bytes>
    requires |block| == BLOCK
  {
    if path.Some? then path
    else if block[156] == PAX_FLAG || block[156] == GLOBAL_FLAG then Some(PAX_NAME)
    else UstarName(TextField(block[345..500]), TextField(block[0..100]))
  }

  function UstarName(prefix: Option<Bytes>, name: Option<Bytes>): Option<Bytes> {
    if prefix.None? || name.None? then None
    else if prefix.value != [] then Some(prefix.value + [47] + name.value)
    else name
  }

  // Round trips of the fields

  lemma TextRoundTrip(text: Bytes, width: nat)
    requires Storable(text, width)
    ensures TextField(Padded(text, width)) == if ValidUtf8(text) then Some(text) else None
  {
    IndexIs(Padded(text, width), 0, |text|);
    assert Padded(text, width)[..|text|] == text;
  }

  lemma OctalRoundTrip(value: nat, width: nat, tail: Bytes)
    requires |Digits(value, 8)| <= width && value <= MAX_INTEGER
    ensures Integer(Octal(value, width) + [0] + tail) == Some(value)
  {
    var text := Octal(value, width);
    var field := text + [0] + tail;
    IndexIs(field, 0, |text|);
    assert field[..|text|] == text;
    ValidAscii(text);
    assert Trim(text) == text;
    NumberPadded(width - |Digits(value, 8)|, Digits(value, 8), 8);
    NumberOfDigits(value, 8);
  }

  lemma NumberRoundTrip(value: nat, width: nat)
    requires width >= 8 && value <= MAX_INTEGER
    ensures Integer(NumberField(value, width)) == Some(value)
  {
    if |Digits(value, 8)| < width {
      assert NumberField(value, width) == Octal(value, width - 1) + [0] + [];
      OctalRoundTrip(value, width - 1, []);
    } else {
      PowerOf256(width - 1);
      WideOfBigEndian(value, width - 1);
      assert NumberField(value, width)[1..] == BigEndian(value, width - 1);
    }
  }

  lemma {:induction false} PowerOf256(k: nat)
    requires k >= 7
    ensures Pow(256, k) > MAX_INTEGER
  {
    if k > 7 {
      PowerOf256(k - 1);
    } else {
      assert Pow(256, 1) == 256;
      assert Pow(256, 2) == 256 * Pow(256, 1) == 0x1_0000;
      assert Pow(256, 3) == 256 * Pow(256, 2) == 0x100_0000;
      assert Pow(256, 4) == 256 * Pow(256, 3) == 0x1_0000_0000;
      assert Pow(256, 5) == 256 * Pow(256, 4);
      assert Pow(256, 6) == 256 * Pow(256, 5);
      assert Pow(256, 7) == 256 * Pow(256, 6);
    }
  }

  // The whole block

  lemma FrontFields(h: Header)
    requires Encodable(h)
    ensures Front(h)[0..100] == Padded(h.name, 100)
    ensures Front(h)[100..108] == NumberField(h.mode, 8)
    ensures Front(h)[108..116] == NumberField(h.uid, 8)
    ensures Front(h)[116..124] == NumberField(h.gid, 8)
    ensures Front(h)[124..136] == NumberField(h.size, 12)
    ensures Front(h)[136..148] == NumberField(StoredMtime(h.mtime), 12)
  {
  }

  lemma BackFields(h: Header, flag: Byte, prefix: Bytes)
    requires Encodable(h) && Storable(prefix, 155)
    ensures Back(h, flag, prefix)[0] == flag
    ensures Back(h, flag, prefix)[1..101] == Padded(h.linkname, 100)
    ensures Back(h, flag, prefix)[101..107] == USTAR + [0]
    ensures Back(h, flag, prefix)[189..344] == Padded(prefix, 155)
  {
  }

  lemma BlockFields(h: Header, flag: Byte, prefix: Bytes)
    requires Encodable(h) && Storable(prefix, 155)
    ensures |Digits(Checksum(h, flag, prefix), 8)| <= 6
    ensures var b := Ustar(h, flag, prefix);
            && b[..148] == Front(h)
            && b[148..156] == Octal(Checksum(h, flag, prefix), 6) + [0] + [32]
            && b[156..] == Back(h, flag, prefix)
  {
    ChecksumFits(h, flag, prefix);
    assert Octal(Checksum(h, flag, prefix), 6) + [0, 32] == Octal(Checksum(h, flag, prefix), 6) + [0] + [32];
  }

  /** The path a block stands for, if its name is readable: one from PAX, or the
    * prefix and the name with a slash between them. */
  function DecodedPath(h: Header, flag: Byte, prefix: Bytes, path: Option<Bytes>): Option<Bytes> {
    if path.Some? then path
    else if flag == PAX_FLAG || flag == GLOBAL_FLAG then Some(PAX_NAME)
    else if !ValidUtf8(prefix) || !ValidUtf8(h.name) then None
    else Some((if prefix == [] then [] else prefix + [47]) + h.name)
  }

  /** DecodeHeader inverts every ustar header: the checksum is accepted and every
    * field comes back, with negative times stored as 0. A block may hold any bytes
    * but NUL, so it is readable exactly when its texts are UTF-8. */
  lemma UstarRoundTrip(h: Header, flag: Byte, prefix: Bytes, path: Option<Bytes>)
    requires Encodable(h) && Storable(prefix, 155) && KindOf(flag).Some?
    ensures Decode(Ustar(h, flag, prefix), path) ==
            if ValidUtf8(h.linkname) && DecodedPath(h, flag, prefix, path).Some? then
              Some(Header(DecodedPath(h, flag, prefix, path).value, KindOf(flag).value, h.size, h.mode, h.uid, h.gid,
                          StoredMtime(h.mtime), h.linkname, map[]))
            else None
  {
    BlockFields(h, flag, prefix);
    IntactParts(h, flag, prefix, Ustar(h, flag, prefix));
    DecodeIntact(h, flag, prefix, path, Ustar(h, flag, prefix));
  }

  /** So DecodeHeader inverts rawHeader. */
  lemma BlockRoundTrip(h: Header, flag: Byte, path: Option<Bytes>)
    requires Encodable(h) && KindOf(flag).Some?
    ensures var name := if path.Some? then path
                        else if flag == PAX_FLAG || flag == GLOBAL_FLAG then Some(PAX_NAME)
                        else if ValidUtf8(h.name) then Some(h.name)
                        else None;
      Decode(Block(h, flag), path) ==
      if ValidUtf8(h.linkname) && name.Some? then
        Some(Header(name.value, KindOf(flag).value, h.size, h.mode, h.uid, h.gid, StoredMtime(h.mtime), h.linkname,
                    map[]))
      else None
  {
    hide Decode, Ustar;
    UstarRoundTrip(h, flag, [], path);
    assert [] + h.name == h.name;
  }

  /** A name that is written and not read: one byte that is no UTF-8. */
  lemma NameNotRead()
    ensures var h := Header([255], File, 0, 420, 0, 0, 0, [], map[]);
            Encodable(h) && Decode(Block(h, FlagOf(File)), None) == None
  {
    var name: Bytes := [255];
    assert |name| == 1 && name[0] == 255 && RuneLength(name) == 0;
    hide Decode, Block;
    BlockRoundTrip(Header(name, File, 0, 420, 0, 0, 0, [], map[]), FlagOf(File), None);
  }

  lemma DecodeIntact(h: Header, flag: Byte, prefix: Bytes, path: Option<Bytes>, b: Bytes)
    requires Encodable(h) && Storable(prefix, 155) && KindOf(flag).Some?
    requires |b| == BLOCK && Intact(b) && b[..148] == Front(h) && b[156..] == Back(h, flag, prefix)
    ensures Decode(b, path) ==
            if ValidUtf8(h.linkname) && DecodedPath(h, flag, prefix, path).Some? then
              Some(Header(DecodedPath(h, flag, prefix, path).value, KindOf(flag).value, h.size, h.mode, h.uid, h.gid,
                          StoredMtime(h.mtime), h.linkname, map[]))
            else None
  {
    TextsRoundTrip(h, flag, prefix, b);
    NumbersRoundTrip(h, b);
    TextRoundTrip(h.name, 100);
    DecodeFields(b, prefix, path, h);
  }

  // Decode from its fields.
  lemma DecodeFields(b: Bytes, prefix: Bytes, path: Option<Bytes>, h: Header)
    requires |b| == BLOCK && Intact(b) && KindOf(b[156]).Some?
    requires TextField(b[345..500]) == if ValidUtf8(prefix) then Some(prefix) else None
    requires TextField(b[0..100]) == if ValidUtf8(h.name) then Some(h.name) else None
    requires TextField(b[157..257]) == if ValidUtf8(h.linkname) then Some(h.linkname) else None
    requires Integer(b[100..108]) == Some(h.mode) && Integer(b[108..116]) == Some(h.uid)
    requires Integer(b[116..124]) == Some(h.gid)
    requires Integer(b[124..136]) == Some(h.size) && Integer(b[136..148]) == Some(StoredMtime(h.mtime))
    ensures Decode(b, path) ==
            if ValidUtf8(h.linkname) && DecodedPath(h, b[156], prefix, path).Some? then
              Some(Header(DecodedPath(h, b[156], prefix, path).value, KindOf(b[156]).value, h.size, h.mode, h.uid,
                          h.gid, StoredMtime(h.mtime), h.linkname, map[]))
            else None
  {
    hide Intact, Integer, TextField, ValidUtf8;
    assert [] + h.name == h.name;
  }

  lemma IntactParts(h: Header, flag: Byte, prefix: Bytes, b: Bytes)
    requires Encodable(h) && Storable(prefix, 155) && |b| == BLOCK && |Digits(Checksum(h, flag, prefix), 8)| <= 6
    requires b[..148] == Front(h) && b[148..156] == Octal(Checksum(h, flag, prefix), 6) + [0] + [32]
    requires b[156..] == Back(h, flag, prefix)
    ensures Intact(b)
  {
    hide Integer, TextField, Trim, Front, Back, Octal, Digits, ValidUtf8;
    TextsRoundTrip(h, flag, prefix, b);
    ChecksumFits(h, flag, prefix);
    OctalRoundTrip(Checksum(h, flag, prefix), 6, [32]);
  }

  lemma TextsRoundTrip(h: Header, flag: Byte, prefix: Bytes, b: Bytes)
    requires Encodable(h) && Storable(prefix, 155) && |b| == BLOCK && b[156..] == Back(h, flag, prefix)
    ensures b[156] == flag
    ensures TextField(b[257..263]) == Some(USTAR) && Trim(USTAR) == USTAR
    ensures TextField(b[157..257]) == if ValidUtf8(h.linkname) then Some(h.linkname) else None
    ensures TextField(b[345..500]) == if ValidUtf8(prefix) then Some(prefix) else None
  {
    hide Back, ValidUtf8, TextField, Trim, Padded, USTAR;
    BackFields(h, flag, prefix);
    SliceOfRest(b, 156, 101, 107);
    SliceOfRest(b, 156, 1, 101);
    SliceOfRest(b, 156, 189, 344);
    assert b[156] == b[156..][0];
    Magic();
    TextRoundTrip(h.linkname, 100);
    TextRoundTrip(prefix, 155);
  }

  lemma Magic()
    ensures TextField(USTAR + [0]) == Some(USTAR) && Trim(USTAR) == USTAR
  {
    ValidAscii(USTAR);
    assert USTAR + [0] == Padded(USTAR, 6);
    TextRoundTrip(USTAR, 6);
  }

  lemma NumbersRoundTrip(h: Header, b: Bytes)
    requires Encodable(h) && |b| == BLOCK && b[..148] == Front(h)
    ensures b[0..100] == Padded(h.name, 100)
    ensures Integer(b[100..108]) == Some(h.mode) && Integer(b[108..116]) == Some(h.uid)
    ensures Integer(b[116..124]) == Some(h.gid)
    ensures Integer(b[124..136]) == Some(h.size) && Integer(b[136..148]) == Some(StoredMtime(h.mtime))
  {
    FrontFields(h);
    assert b[0..100] == b[..148][0..100];
    assert b[100..108] == b[..148][100..108];
    assert b[108..116] == b[..148][108..116];
    assert b[116..124] == b[..148][116..124];
    assert b[124..136] == b[..148][124..136];
    assert b[136..148] == b[..148][136..148];
    NumberRoundTrip(h.mode, 8);
    NumberRoundTrip(h.uid, 8);
    NumberRoundTrip(h.gid, 8);
    NumberRoundTrip(h.size, 12);
    NumberRoundTrip(StoredMtime(h.mtime), 12);
  }
}
