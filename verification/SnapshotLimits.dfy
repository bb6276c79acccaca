/** An archive of one large root that the writer publishes and the reader
  * refuses. */
module SnapshotLimits {

  import opened Wrappers
  import opened Octets
  import opened TarBytes
  import opened TarHeader
  import opened TarPax
  import opened TarWalk
  import opened TarEncode
  import opened ArchiveRules
  import opened ArchiveSafety
  import opened Snapshot

  // "root-0", and the directory d with the files d/1, d/2 and so on.
  const ROOT: Bytes := [114, 111, 111, 116, 45, 48]
  const TOP: Bytes := [100]
  const MANY: nat := 1_000_000

  function NameAt(k: nat): Bytes {
    if k == 0 then TOP else TOP + [SLASH] + Digits(k, 10)
  }

  function EntryAt(k: nat): Entry {
    Entry(Header(if k == 0 then TOP + [SLASH] else NameAt(k), if k == 0 then Directory else File, 0, 420, 0, 0, 0, [],
                 map[]), [])
  }

  // The name and the header the writer gives it.
  function NewName(k: nat): Bytes {
    if k == 0 then SNAPSHOT + [SLASH] + ROOT + [SLASH] else SNAPSHOT + [SLASH] + ROOT + [SLASH] + Digits(k, 10)
  }

  function Mapped(k: nat): Header {
    var e := EntryAt(k).header;
    Header(NewName(k), e.kind, 0, 420, 0, 0, 0, [], map[UID := [48], GID := [48], MTIME := [48]])
  }

  lemma DigitsFew(k: nat)
    requires k < MANY
    ensures |Digits(k, 10)| <= 6 && forall i :: 0 <= i < |Digits(k, 10)| ==> 48 <= Digits(k, 10)[i] <= 57
  {
    assert Pow(10, 6) == MANY by {
      assert Pow(10, 1) == 10;
      assert Pow(10, 2) == 10 * Pow(10, 1) == 100;
      assert Pow(10, 3) == 10 * Pow(10, 2) == 1000;
      assert Pow(10, 4) == 10 * Pow(10, 3) == 10000;
      assert Pow(10, 5) == 10 * Pow(10, 4) == 100000;
      assert Pow(10, 6) == 10 * Pow(10, 5);
    }
    DigitsLength(k, 10, 6);
  }

  lemma NamesDiffer(j: nat, k: nat)
    requires j != k
    ensures NameAt(j) != NameAt(k)
  {
    NumberOfDigits(j, 10);
    NumberOfDigits(k, 10);
    assert j > 0 ==> NameAt(j)[2..] == Digits(j, 10);
    assert k > 0 ==> NameAt(k)[2..] == Digits(k, 10);
  }

  lemma NameIs(k: nat)
    requires k < MANY
    ensures TrimSlash(EntryAt(k).header.name) == NameAt(k) && Inside(NameAt(k), TOP) && TOP <= NameAt(k)
    ensures MappedName(ROOT, NameAt(k), TOP, EntryAt(k).header.kind) == NewName(k)
    ensures Delivered(EntryAt(k)) && MappedHeader(EntryAt(k).header, NewName(k)) == Some(Mapped(k))
  {
    hide Digits, ValidUtf8, MappedHeader, NewName;
    NewNameIs(k);
    ZeroMapped(k);
    DigitsFew(k);
    ValidAscii(EntryAt(k).header.name);
    assert TOP[|TOP|..] == [];
    if k > 0 {
      assert NameAt(k)[|TOP|..] == [SLASH] + Digits(k, 10);
      assert TOP + [SLASH] <= NameAt(k);
    }
  }

  lemma NewNameIs(k: nat)
    ensures NewName(k) == SNAPSHOT + [SLASH] + ROOT + if k == 0 then [SLASH] else [SLASH] + Digits(k, 10)
  {
  }

  lemma ZeroMapped(k: nat)
    ensures MappedHeader(EntryAt(k).header, NewName(k)) == Some(Mapped(k))
  {
    hide NewName, NameAt;
    assert FormatTime(0) == [48];
  }

  lemma NameParts(k: nat)
    requires k < MANY
    ensures Split(NameAt(k)) == if k == 0 then [TOP] else [TOP, Digits(k, 10)]
    ensures k > 0 ==> NameAt(k)[|TOP| + 1..] == Digits(k, 10) && Split(Digits(k, 10)) == [Digits(k, 10)]
  {
    DigitsFew(k);
    var d := Digits(k, 10);
    hide Split, Digits;
    SplitFirst(d, []);
    SplitFirst(TOP, d);
  }

  lemma PartsAre(k: nat)
    requires k < MANY
    ensures PlainId(ROOT) && [] !in Split(NameAt(k)) && TrimSlash(NewName(k)) == RootBase(ROOT, NameAt(k), TOP)
    ensures Split(TrimSlash(NewName(k))) == [SNAPSHOT, ROOT] + if k == 0 then [] else [Digits(k, 10)]
  {
    NameIs(k);
    NameParts(k);
    hide Split, Digits, TrimSlash, Inside, NewName, MappedName, RootBase;
    MappedBase(ROOT, NameAt(k), TOP, EntryAt(k).header.kind);
  }

  lemma NameAscii(k: nat)
    requires k < MANY
    ensures |NewName(k)| <= 100 && SNAPSHOT + [SLASH] <= TrimSlash(NewName(k)) && NewName(k)[0] == SNAPSHOT[0]
    ensures forall b :: b in NewName(k) ==> 0 < b < 0x80 && b != BACKSLASH
  {
    DigitsFew(k);
    var d, lead := Digits(k, 10), SNAPSHOT + [SLASH] + ROOT + [SLASH];
    hide Digits;
    assert |lead| == 16 && forall b :: b in lead ==> 0 < b < 0x80 && b != BACKSLASH;
    assert NewName(k) == if k == 0 then lead else lead + d;
    assert forall b :: b in d ==> 48 <= b <= 57;
    assert SNAPSHOT + [SLASH] == lead[..9];
  }

  lemma NamePlain(k: nat)
    requires k < MANY
    ensures var name, short := NewName(k), TrimSlash(NewName(k));
      && 0 !in name && BACKSLASH !in name && !([SLASH] <= name) && SNAPSHOT + [SLASH] <= short && Length16(short) <= 100
      && |name| <= 100 && ValidUtf8(name)
  {
    NameAscii(k);
    var name, short := NewName(k), TrimSlash(NewName(k));
    hide NewName, Length16, ValidUtf8;
    assert SNAPSHOT[0] != SLASH;
    assert forall i :: 0 <= i < |name| ==> name[i] in name;
    AsciiLength(short);
    ValidAscii(name);
  }

  lemma PartsSafe(k: nat)
    requires k < MANY
    ensures forall p :: p in Split(TrimSlash(NewName(k))) ==> SafePart(p)
  {
    PartsAre(k);
    SnapshotPlain();
    SafeNames(k);
    hide Split, Digits, TrimSlash, RootBase, SafePart, NewName;
    SafeAll(Split(TrimSlash(NewName(k))), SNAPSHOT, ROOT, if k == 0 then [] else [Digits(k, 10)]);
  }

  lemma SafeAll(parts: seq<Bytes>, a: Bytes, b: Bytes, rest: seq<Bytes>)
    requires parts == [a, b] + rest && |rest| <= 1
    requires SafePart(a) && SafePart(b) && (rest != [] ==> SafePart(rest[0]))
    ensures forall p :: p in parts ==> SafePart(p)
  {
    hide SafePart;
  }

  lemma SafeNames(k: nat)
    requires k < MANY
    ensures SafePart(ROOT) && SafePart(Digits(k, 10))
  {
    DigitsFew(k);
    hide Digits;
    assert RESTORE_PREFIX[0] == DOT[0] == DOTS[0] == 46;
  }

  lemma EntryIsValid(k: nat)
    requires k < MANY
    ensures ValidEntry(Mapped(k), [ROOT])
  {
    PartsAre(k);
    NumbersAreZero(k);
    NamePlain(k);
    PartsSafe(k);
    hide Split, TrimSlash, NewName, Length16, SafePart, ValidEntry, EntryMetadata, Digits, RootBase;
    FileIsValid(Mapped(k), [ROOT], ROOT, if k == 0 then [] else [Digits(k, 10)]);
  }

  lemma FileIsValid(h: Header, ids: seq<Bytes>, id: Bytes, rest: seq<Bytes>)
    requires EntryMetadata(h).Some? && id in ids && |rest| <= 1
    requires 0 !in h.name && BACKSLASH !in h.name && !([SLASH] <= h.name)
    requires Split(TrimSlash(h.name)) == [SNAPSHOT, id] + rest
    requires forall p :: p in Split(TrimSlash(h.name)) ==> SafePart(p)
    requires Length16(TrimSlash(h.name)) <= 100 && SNAPSHOT + [SLASH] <= TrimSlash(h.name)
    requires h.kind == (if rest == [] then Directory else File) && h.size == 0
    ensures ValidEntry(h, ids)
  {
    hide Split, TrimSlash, Length16, SafePart, EntryMetadata;
  }

  lemma NumbersAreZero(k: nat)
    ensures EntryMetadata(Mapped(k)) == Some(Metadata(0, 0, 0))
  {
    JsonRoundTrip(0);
    assert FormatTime(0) == [48];
  }

  const KEYS := [UID, GID, MTIME]

  lemma PaxIs(k: nat)
    requires k < MANY
    ensures FullPax(Mapped(k)) == Mapped(k).pax && Lists(KEYS, FullPax(Mapped(k)))
    ensures |Records(KEYS, FullPax(Mapped(k)))| <= 100 && OwnBlock(Mapped(k)) == Mapped(k)
  {
    NamePlain(k);
    DistinctKeys();
    hide NewName, ValidUtf8;
    RecordsShort(FullPax(Mapped(k)));
  }

  lemma RecordsShort(pax: Pax)
    requires pax == map[UID := [48], GID := [48], MTIME := [48]]
    ensures |Records(KEYS, pax)| <= 100
  {
    hide RecordOf;
    DistinctKeys();
    RecordShort(UID);
    RecordShort(GID);
    RecordShort(MTIME);
    assert KEYS[1..] == [GID, MTIME] && [GID, MTIME][1..] == [MTIME];
    assert Records([MTIME], pax) == RecordOf(MTIME, [48]) + Records([], pax);
    assert Records([GID, MTIME], pax) == RecordOf(GID, [48]) + Records([MTIME], pax);
  }

  lemma RecordShort(key: Bytes)
    requires |key| <= 5
    ensures |RecordOf(key, [48])| <= 22
  {
    hide Digits, Settle;
  }

  function ItemAt(k: nat): Item {
    Item(Mapped(k), KEYS, [])
  }

  lemma MappedIsKept(k: nat)
    requires k < MANY
    ensures Kept(Mapped(k), [ROOT]) && Clean(Mapped(k)) && Restored(Mapped(k)).value.size == 0
    ensures TrimSlash(Mapped(k).name) == RootBase(ROOT, NameAt(k), TOP)
  {
    NameIs(k);
    PartsAre(k);
    EntryIsValid(k);
    hide Split, RootBase, TrimSlash, NewName, ValidEntry, Restored, Clean, MappedName, Inside, Kept, MappedHeader,
      NameAt;
    assert Delivered(EntryAt(k));
    hide Delivered;
    MappedReadable(EntryAt(k), ROOT, [ROOT], TOP);
  }

  lemma EmptyItem(h: Header, keys: seq<Bytes>)
    requires Lists(keys, FullPax(h)) && |Records(keys, FullPax(h))| <= 100 && OwnBlock(h) == h
    requires Encodable(h) && !IsPax(h.kind) && Clean(h) && Restored(h).value.size == 0
    ensures Writable(Item(h, keys, []))
  {
    hide Clean, Restored, FullPax, Records;
  }

  lemma HeaderFits(k: nat)
    requires k < MANY
    ensures Encodable(Mapped(k)) && !IsPax(Mapped(k).kind) && Mapped(k).pax != map[]
  {
    NamePlain(k);
    hide NewName, Length16, TrimSlash, ValidUtf8, Encodable;
    assert UID in Mapped(k).pax;
    ZeroFits(Mapped(k));
  }

  lemma ZeroFits(h: Header)
    requires |h.name| <= 100 && 0 !in h.name && h.linkname == [] && InRange(h.mode)
    requires h.uid == h.gid == h.size == h.mtime == 0
    ensures Encodable(h)
  {
  }

  // One entry of the root as the writer stores it.
  lemma ItemIsKept(k: nat)
    requires k < MANY
    ensures Writable(ItemAt(k)) && Kept(ItemAt(k).header, [ROOT]) && FullPax(ItemAt(k).header) != map[]
    ensures Base(ItemAt(k)) == RootBase(ROOT, NameAt(k), TOP)
  {
    hide Writable, RootBase, TrimSlash, FullPax, Restored, Clean, Kept, NameAt, Mapped, Records, OwnBlock, Encodable,
      Lists;
    PaxIs(k);
    HeaderFits(k);
    MappedIsKept(k);
    EmptyItem(Mapped(k), KEYS);
  }

  lemma NameFits(k: nat)
    requires k < MANY
    ensures [] !in Split(NameAt(k)) && TOP <= NameAt(k) && Inside(NameAt(k), TOP) && TOP != []
  {
    NameIs(k);
    PartsAre(k);
    hide Split, NameAt, Inside;
  }

  ghost predicate AllPax(items: seq<Item>) {
    forall i :: i in items ==> FullPax(i.header) != map[]
  }

  lemma {:induction false} Many(n: nat) returns (items: seq<Item>, names: seq<Bytes>)
    requires n <= MANY
    ensures |items| == |names| == n && UnderRoot(items, ROOT, [ROOT], TOP, names) && AllPax(items)
    ensures forall k :: 0 <= k < n ==> names[k] == NameAt(k) && items[k] == ItemAt(k)
  {
    hide Writable, Kept, FullPax, Base, NameAt, ItemAt, UnderRoot;
    if n == 0 {
      items, names := [], [];
      EmptyRoot(ROOT, [ROOT]);
      Adopt(items, ROOT, [ROOT], [], TOP, names);
    } else {
      items, names := Many(n - 1);
      OneMore(items, names, n - 1);
      items, names := items + [ItemAt(n - 1)], names + [NameAt(n - 1)];
    }
  }

  lemma OneMore(items: seq<Item>, names: seq<Bytes>, n: nat)
    requires n < MANY && |names| == n && UnderRoot(items, ROOT, [ROOT], TOP, names) && AllPax(items)
    requires forall k :: 0 <= k < n ==> names[k] == NameAt(k)
    ensures UnderRoot(items + [ItemAt(n)], ROOT, [ROOT], TOP, names + [NameAt(n)]) && AllPax(items + [ItemAt(n)])
  {
    hide Writable, Kept, FullPax, Base, NameAt, ItemAt, UnderRoot, Split, Inside, RootBase;
    ItemIsKept(n);
    NameFits(n);
    forall k | 0 <= k < n
      ensures names[k] != NameAt(n)
    {
      NamesDiffer(k, n);
    }
    UnderRootMore(items, ROOT, [ROOT], TOP, names, ItemAt(n), NameAt(n));
  }

  lemma {:induction false} CountAll(items: seq<Item>)
    requires AllPax(items)
    ensures PaxCount(items) == |items|
  {
    hide FullPax;
    if items != [] {
      CountAll(items[1..]);
    }
  }

  /** For any size there is a published archive of one root with that many
    * entries, all of which need a PAX header. */
  lemma ManyPublished(n: nat) returns (items: seq<Item>)
    requires 1 <= n <= MANY
    ensures Published(items, [ROOT]) && PlainIds([ROOT]) && |items| == n + 1 && PaxCount(items) == n
    ensures forall k :: 0 <= k < n ==> items[k + 1] == ItemAt(k)
  {
    hide Writable, Kept, FullPax, Base, NameAt, Partial, UnderRoot, Published, RootWritten, ItemAt;
    var more, names := Many(n);
    FirstName();
    RootIsWritten(more, ROOT, [ROOT], TOP, names);
    var first := SnapshotFirst();
    assert AllWritable(more) by { WrittenWritable(more); }
    AddRoot([first], [ROOT], 0, more);
    items := [first] + more;
    AllRootsWritten(items, [ROOT]);
    CountAll(more);
    assert items[1..] == more;
  }

  lemma FirstName()
    ensures NameAt(0) == TOP && PlainId(ROOT)
  {
    PartsAre(0);
  }

  lemma WrittenWritable(items: seq<Item>)
    requires RootWritten(items, ROOT, [ROOT])
    ensures AllWritable(items)
  {
  }

  lemma SnapshotFirst() returns (first: Item)
    ensures Partial([first], [ROOT], 0) && FullPax(first.header) == map[]
  {
    SnapshotDirectory([ROOT]);
    first := Item(SNAPSHOT_HEADER, [], []);
    assert InRange(SNAPSHOT_HEADER.mode) && 0 !in SNAPSHOT_HEADER.name;
    ZeroFits(SNAPSHOT_HEADER);
    hide Clean, Restored, FullPax, Kept, Encodable, Partial, Writable;
    assert Records([], map[]) == [];
    EmptyItem(SNAPSHOT_HEADER, []);
    FirstItem(first, [ROOT]);
  }

  // The writer stores the entry under its new name.
  ghost predicate StoredAs(e: Entry, name: Bytes, i: Item) {
    && Delivered(e) && TrimSlash(e.header.name) == name && TOP <= name && i.body == e.body
    && MappedHeader(e.header, MappedName(ROOT, name, TOP, e.header.kind)) == Some(i.header)
  }

  lemma EntryIsStored(k: nat)
    requires k < MANY
    ensures StoredAs(EntryAt(k), NameAt(k), ItemAt(k))
  {
    NameIs(k);
    hide Delivered, TrimSlash, NameAt, MappedHeader, MappedName, NewName;
  }

  /** An archive of one root with 100000 entries, as many as the writer allows a
    * root, is published; with its own directory it has one more than the reader
    * allows, and is refused whatever the byte limit. */
  lemma PublishedIsRefused(tooLarge: GlobalLimit) returns (items: seq<Item>)
    ensures Published(items, [ROOT]) && PlainIds([ROOT]) && |items| == 1 + MAX_ENTRIES
    ensures forall k :: 0 <= k < MAX_ENTRIES ==> StoredAs(EntryAt(k), NameAt(k), items[k + 1])
    ensures forall maxBytes ::
      !Accepted(Walk(Archive(items), START, tooLarge), |Archive(items)|, [ROOT], maxBytes)
  {
    hide Published, Walk, Archive, StoredAs, ItemAt, NameAt, EntryAt;
    items := ManyPublished(MAX_ENTRIES);
    forall k | 0 <= k < MAX_ENTRIES
      ensures StoredAs(EntryAt(k), NameAt(k), items[k + 1])
    {
      EntryIsStored(k);
    }
    assert forall i :: i in items ==> Writable(i) by { PublishedWritable(items); }
    forall maxBytes: int
      ensures !Accepted(Walk(Archive(items), START, tooLarge), |Archive(items)|, [ROOT], maxBytes)
    {
      if |Archive(items)| <= maxBytes {
        PublishedIsAccepted(items, [ROOT], maxBytes, tooLarge);
      }
    }
  }

  lemma PublishedWritable(items: seq<Item>)
    requires Published(items, [ROOT])
    ensures forall i :: i in items ==> Writable(i)
  {
  }

  /** An archive of entries the writer accepts that cannot be read to its end: it
    * has one PAX header more than the reader allows. */
  lemma WrittenIsUnreadable(tooLarge: GlobalLimit) returns (items: seq<Item>)
    ensures (forall i :: i in items ==> Writable(i)) && PaxCount(items) == MAX_METADATA + 1
    ensures !Walk(Archive(items), START, tooLarge).ok
  {
    hide Published, Walk, Archive;
    items := ManyPublished(MAX_METADATA + 1);
    PublishedWritable(items);
    ArchiveWalk(items, 0, tooLarge);
  }
  // n times the letter e with an acute accent, which has two bytes.
  function Accents(n: nat): Bytes {
    if n == 0 then [] else [0xC3, 0xA9] + Accents(n - 1)
  }

  lemma {:induction false} AccentsAre(n: nat)
    ensures |Accents(n)| == 2 * n && ValidUtf8(Accents(n)) && Length16(Accents(n)) == n
    ensures forall b :: b in Accents(n) ==> b >= 0xA9
  {
    if n > 0 {
      AccentsAre(n - 1);
      var s := Accents(n);
      assert RuneLength(s) == 2 && s[2..] == Accents(n - 1);
    }
  }

  // A file of that name in the root.
  function LongNamed(n: nat): Header {
    Header(SNAPSHOT + [SLASH] + ROOT + [SLASH] + Accents(n), File, 0, 420, 0, 0, 0, [], map[])
  }

  lemma LongParts(n: nat)
    requires n > 0
    ensures var name := LongNamed(n).name;
      && TrimSlash(name) == name && |name| == 16 + 2 * n
      && Split(name) == [SNAPSHOT, ROOT, Accents(n)]
      && Length16(name) == 16 + n
  {
    hide Split, Accents, Length16, ValidUtf8;
    AccentsAre(n);
    var lead, last := SNAPSHOT + [SLASH] + ROOT + [SLASH], Accents(n);
    LeadIs();
    SplitFirst(SNAPSHOT, ROOT + [SLASH] + last);
    SplitFirst(ROOT, last);
    SplitFirst(last, []);
    assert LongNamed(n).name == SNAPSHOT + [SLASH] + (ROOT + [SLASH] + last) == lead + last;
    assert last[|last| - 1] in last;
    assert LongNamed(n).name[|lead + last| - 1] == last[|last| - 1];
    LengthAdds(lead, last);
  }

  lemma LeadIs()
    ensures var lead := SNAPSHOT + [SLASH] + ROOT + [SLASH];
            |lead| == 16 && ValidUtf8(lead) && Length16(lead) == 16
    ensures SLASH !in SNAPSHOT && SLASH !in ROOT
  {
    var lead := SNAPSHOT + [SLASH] + ROOT + [SLASH];
    ValidAscii(lead);
    AsciiLength(lead);
    hide ValidUtf8, Length16;
  }

  lemma ZeroMetadata(n: nat)
    ensures EntryMetadata(LongNamed(n)).Some?
  {
    hide Accents;
  }

  /** A name that the checks allow, of 2066 units, and that no header can hold: it
    * has 4116 bytes. */
  lemma LongNameIsNotWritten()
    ensures ValidEntry(LongNamed(2050), [ROOT])
    ensures forall records: Bytes :: !CanEncode(LongNamed(2050), records)
  {
    hide Split, Accents, Length16, ValidUtf8, TrimSlash, EntryMetadata, SafePart, Encodable, OwnBlock;
    AccentsAre(2050);
    LongParts(2050);
    ZeroMetadata(2050);
    LongIsSafe(LongNamed(2050), Accents(2050));
  }

  lemma LongIsSafe(h: Header, last: Bytes)
    requires last != [] && (forall b :: b in last ==> b >= 0xA9)
    requires h.name == SNAPSHOT + [SLASH] + ROOT + [SLASH] + last
    ensures 0 !in h.name && BACKSLASH !in h.name && !([SLASH] <= h.name) && SNAPSHOT + [SLASH] <= h.name
    ensures SafePart(SNAPSHOT) && SafePart(ROOT) && SafePart(last)
  {
    assert last[0] in last;
    assert h.name[0] == 115;
  }
}
