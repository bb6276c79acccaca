/** WriteSnapshot: repack every root under its ID, and why ValidateStream then
  * accepts the archive. */
module Snapshot {

  import opened Wrappers
  import opened Octets
  import opened TarBytes
  import opened TarHeader
  import opened TarPax
  import opened TarWalk
  import opened TarEncode
  import opened ArchiveRules

  /** What a walk delivers always looks like this. */
  ghost predicate Delivered(e: Entry) {
    && !IsPax(e.header.kind) && !e.header.kind.Unset? && ValidUtf8(e.header.name)
    && e.header.size == |e.body| && (e.header.kind.File? || e.header.size == 0) && InRange(e.header.mode)
  }

  // Root IDs are plain ASCII without a slash, such as root-0.
  predicate PlainId(id: Bytes) {
    id != [] && SLASH !in id && 0 !in id && forall i :: 0 <= i < |id| ==> id[i] < 0x80
  }

  ghost predicate PlainIds(ids: seq<Bytes>) {
    && (forall id :: id in ids ==> PlainId(id))
    && (forall i, j :: 0 <= i < j < |ids| ==> ids[i] != ids[j])
  }

  const SNAPSHOT_HEADER := Header(SNAPSHOT + [SLASH], Directory, 0, 493, 0, 0, 0, [], map[])

  predicate Unsafe(part: Bytes) {
    part == [] || part == DOTS || part == DOT
  }

  predicate Inside(name: Bytes, prefix: Bytes) {
    name == prefix || prefix + [SLASH] <= name
  }

  function MappedName(id: Bytes, name: Bytes, prefix: Bytes, kind: Kind): Bytes
    requires prefix <= name
  {
    SNAPSHOT + [SLASH] + id + name[|prefix|..] + (if kind.Directory? then [SLASH] else [])
  }

  /** The file and its write buffer. */
  class Output {
    var file: Bytes
    var buffer: Bytes
    var size: nat
    // How often access, the server's state or the disk refused to go on.
    ghost var refusals: nat

    constructor ()
      ensures Written() == [] && size == 0 && refusals == 0
    {
      file, buffer, size, refusals := [], [], 0, 0;
    }

    // Any check besides the byte limit.
    method Ask() returns (ok: bool)
      modifies `refusals
      ensures refusals == old(refusals) + if ok then 0 else 1
    {
      ok := *;
      refusals := refusals + if ok then 0 else 1;
    }

    ghost function Written(): Bytes
      reads this
    {
      file + buffer
    }

    method Flush()
      modifies `file, `buffer
      ensures Written() == old(Written()) && buffer == []
    {
      file := file + buffer;
      buffer := [];
    }

    /** write: within the byte limit; other limits and checks may also refuse. */
    method Write(chunk: Bytes, available: nat) returns (ok: bool)
      modifies this
      ensures ok ==> Written() == old(Written()) + chunk && size == old(size) + |chunk| <= available
      ensures ok <==> refusals == old(refusals) && old(size) + |chunk| <= available
      ensures refusals >= old(refusals) && size == old(size) + |chunk|
    {
      var allowed := Ask();
      size := size + |chunk|;
      if !allowed || size > available {
        return false;
      }
      if buffer == [] && |chunk| >= 65536 {
        file := file + chunk;
        assert buffer == [];
      } else {
        assert file + (buffer + chunk) == file + buffer + chunk;
        buffer := buffer + chunk;
        if |buffer| >= 65536 {
          Flush();
        }
      }
      ok := true;
    }

    /** Copy a body in pieces of any size. */
    method WriteBody(body: Bytes, available: nat) returns (ok: bool)
      modifies this
      ensures ok ==> Written() == old(Written()) + body && size == old(size) + |body|
      ensures ok && old(size) <= available ==> size <= available
      ensures old(size) <= size <= old(size) + |body| && refusals >= old(refusals)
      ensures if ok then refusals == old(refusals) else refusals > old(refusals) || size > available
    {
      var done := 0;
      while done < |body|
        invariant done <= |body| && Written() == old(Written()) + body[..done] && size == old(size) + done
        invariant (old(size) <= available ==> size <= available) && refusals == old(refusals)
      {
        var n: int := *;
        var count := if 0 < n <= |body| - done then n else |body| - done;
        assert body[..done + count] == body[..done] + body[done..done + count];
        ok := Write(body[done..done + count], available);
        if !ok {
          return;
        }
        done := done + count;
      }
      assert body[..|body|] == body;
      ok := true;
    }
  }

  // Archives built from the front.

  ghost function Stacked(items: seq<Item>): Bytes
    requires forall i :: i in items ==> Writable(i)
  {
    if items == [] then [] else Stacked(items[..|items| - 1]) + Stored(items[|items| - 1])
  }

  lemma {:induction false} StackedFront(items: seq<Item>)
    requires items != [] && forall i :: i in items ==> Writable(i)
    ensures Stacked(items) == Stored(items[0]) + Stacked(items[1..])
  {
    hide Writable, Stored;
    var init, last := items[..|items| - 1], items[|items| - 1];
    if |items| == 1 {
      assert items[1..] == [] && init == [];
      assert Stacked(items) == [] + Stored(last);
    } else {
      StackedFront(init);
      assert init[1..] == items[1..][..|items| - 2];
      assert Stored(items[0]) + Stacked(init[1..]) + Stored(last) ==
        Stored(items[0]) + (Stacked(init[1..]) + Stored(last));
    }
  }

  lemma {:induction false} StackedIsArchive(items: seq<Item>)
    requires forall i :: i in items ==> Writable(i)
    ensures Stacked(items) + Zeros(2 * BLOCK) == Archive(items)
  {
    hide Writable, Stored;
    if items != [] {
      StackedFront(items);
      StackedIsArchive(items[1..]);
      assert Stored(items[0]) + Stacked(items[1..]) + Zeros(2 * BLOCK) ==
        Stored(items[0]) + (Stacked(items[1..]) + Zeros(2 * BLOCK));
    }
  }

  // Mapped headers

  lemma MappedPax(h: Header, name: Bytes)
    requires MappedHeader(h, name).Some?
    ensures var m, mapped := EntryMetadata(h).value, MappedHeader(h, name).value;
            && UID in mapped.pax && mapped.pax[UID] == FormatTime(m.uid)
            && GID in mapped.pax && mapped.pax[GID] == FormatTime(m.gid)
            && MTIME in mapped.pax && mapped.pax[MTIME] == FormatTime(m.mtime)
            && PATH !in mapped.pax && SIZE !in mapped.pax && LINKPATH !in mapped.pax
            && mapped.pax.Keys == {UID, GID, MTIME}
            && FullPax(mapped) == if |name| > 100 then mapped.pax[PATH := name] else mapped.pax
  {
  }

  /** A mapped header's own records spell its fields. */
  lemma MappedConsistent(h: Header, name: Bytes)
    requires MappedHeader(h, name).Some? && !h.kind.Unset?
    ensures Consistent(MappedHeader(h, name).value)
    ensures Restored(MappedHeader(h, name).value) ==
            Some(MappedHeader(h, name).value.(pax := FullPax(MappedHeader(h, name).value)))
  {
    MappedPax(h, name);
    var m := EntryMetadata(h).value;
    TimeRoundTrip(m.uid);
    TimeRoundTrip(m.gid);
    TimeRoundTrip(m.mtime);
    hide FormatTime, Unsigned, Time, Restored, FullPax;
    ConsistentIsRestored(MappedHeader(h, name).value);
  }

  lemma CleanDigits(key: Bytes, t: int)
    requires key == UID || key == GID || key == MTIME
    ensures CleanPair(key, FormatTime(t))
  {
    ValidAscii(key);
    ValidAscii(FormatTime(t));
  }

  lemma CleanPath(path: Bytes)
    requires ValidUtf8(path) && 0 !in path
    ensures CleanPair(PATH, path)
  {
  }

  /** A mapped header with a readable name can be written and read back. */
  lemma MappedClean(h: Header, name: Bytes)
    requires MappedHeader(h, name).Some? && !h.kind.Unset? && h.size >= 0 && (h.kind.File? || h.size == 0)
    requires ValidUtf8(name) && 0 !in name
    ensures Clean(MappedHeader(h, name).value)
  {
    MappedConsistent(h, name);
    MappedPaxClean(h, name);
    MappedPax(h, name);
    ValidAscii([]);
    hide CleanPax, EntryMetadata, Restored, FormatTime, FullPax, Consistent;
  }

  // A record is at most a little more than twice as long as what it says.
  lemma RecordBound(key: Bytes, value: Bytes)
    ensures |RecordOf(key, value)| <= 2 * (|key| + |value|) + 8
  {
  }

  lemma {:induction false} RecordsBound(keys: seq<Bytes>, pax: Pax)
    requires forall k :: k in keys ==> k in pax && |RecordOf(k, pax[k])| <= if k == PATH then 8300 else 100
    requires forall i, j :: 0 <= i < j < |keys| ==> keys[i] != keys[j]
    ensures |Records(keys, pax)| <= 100 * |keys| + if PATH in keys then 8300 else 0
  {
    hide RecordOf;
    if keys != [] {
      RecordsBound(keys[1..], pax);
      assert keys[0] !in keys[1..];
      assert PATH in keys <==> keys[0] == PATH || PATH in keys[1..];
    }
  }

  lemma {:induction false} DistinctSize(keys: seq<Bytes>)
    requires forall i, j :: 0 <= i < j < |keys| ==> keys[i] != keys[j]
    ensures |set k | k in keys| == |keys|
  {
    if keys != [] {
      DistinctSize(keys[1..]);
      assert keys[0] !in keys[1..];
      assert (set k | k in keys) == (set k | k in keys[1..]) + {keys[0]};
    }
  }

  lemma ShortNumber(t: int)
    requires 0 - MAX_TIME as int <= t <= MAX_TIME
    ensures |FormatTime(t)| <= 14
  {
    assert Pow(10, 13) == 10_000_000_000_000 by {
      assert Pow(10, 4) == 10000;
      assert Pow(10, 8) == 10 * (10 * (10 * (10 * Pow(10, 4))));
      assert Pow(10, 12) == 10 * (10 * (10 * (10 * Pow(10, 8))));
    }
    DigitsLength(if t < 0 then -t else t, 10, 13);
  }

  /** A mapped header can be written exactly if its name has at most 4096 bytes:
    * its records and fields always fit. */
  lemma MappedFits(h: Header, name: Bytes, keys: seq<Bytes>)
    requires MappedHeader(h, name).Some? && InRange(h.mode) && InRange(h.size) && 0 !in name
    requires Lists(keys, FullPax(MappedHeader(h, name).value))
    ensures var mapped := MappedHeader(h, name).value;
            CanEncode(mapped, Records(keys, FullPax(mapped))) <==> |name| <= 4096
  {
    var mapped := MappedHeader(h, name).value;
    if |name| <= 4096 {
      MappedRecordsFit(h, name, keys);
      MappedPax(h, name);
      EntryFits(mapped);
    }
  }

  lemma EntryFits(mapped: Header)
    requires FrontFits(mapped.(name := [])) && mapped.linkname == [] && 0 !in mapped.name
    requires |mapped.name| > 100 ==> PATH in FullPax(mapped)
    ensures Encodable(OwnBlock(mapped))
  {
    hide FullPax;
    assert Storable(ENTRY_NAME, 100);
  }

  lemma MappedRecordsFit(h: Header, name: Bytes, keys: seq<Bytes>)
    requires MappedHeader(h, name).Some? && |name| <= 4096
    requires Lists(keys, FullPax(MappedHeader(h, name).value))
    ensures |Records(keys, FullPax(MappedHeader(h, name).value))| <= MAX_METADATA_BYTES
  {
    hide FormatTime, RecordOf, Records, FullPax;
    var m := EntryMetadata(h).value;
    MappedPax(h, name);
    var pax := FullPax(MappedHeader(h, name).value);
    ShortNumber(m.uid);
    ShortNumber(m.gid);
    ShortNumber(m.mtime);
    forall k | k in keys
      ensures |RecordOf(k, pax[k])| <= if k == PATH then 8300 else 100
    {
      RecordBound(k, pax[k]);
      assert k in {UID, GID, MTIME, PATH};
      DistinctKeys();
    }
    RecordsBound(keys, pax);
    DistinctSize(keys);
    assert (set k | k in keys) <= {UID, GID, MTIME, PATH};
    SmallerSet(set k | k in keys, {UID, GID, MTIME, PATH});
  }

  lemma SmallerSet(a: set<Bytes>, b: set<Bytes>)
    requires a <= b
    ensures |a| <= |b|
  {
    assert |b - a| + |a| == |b| by { assert b == (b - a) + a; }
  }

  lemma MappedPaxClean(h: Header, name: Bytes)
    requires MappedHeader(h, name).Some? && ValidUtf8(name) && 0 !in name
    ensures CleanPax(FullPax(MappedHeader(h, name).value))
  {
    var m := EntryMetadata(h).value;
    MappedPax(h, name);
    CleanDigits(UID, m.uid);
    CleanDigits(GID, m.gid);
    CleanDigits(MTIME, m.mtime);
    CleanPath(name);
    CleanMembers(MappedHeader(h, name).value.pax, name);
  }

  lemma CleanMembers(pax: Pax, name: Bytes)
    requires pax.Keys == {UID, GID, MTIME} && CleanPair(PATH, name)
    requires CleanPair(UID, pax[UID]) && CleanPair(GID, pax[GID]) && CleanPair(MTIME, pax[MTIME])
    ensures CleanPax(pax) && CleanPax(pax[PATH := name])
  {
    hide CleanPair;
    forall k | k in pax[PATH := name]
      ensures k in pax ==> CleanPair(k, pax[k])
      ensures CleanPair(k, pax[PATH := name][k])
    {
      DistinctKeys();
      if k != PATH {
        assert k in pax.Keys;
        assert k == UID || k == GID || k == MTIME;
      }
    }
  }

  /** Reading a mapped header back changes nothing that ValidateEntry looks at. */
  lemma MappedValidity(h: Header, name: Bytes, ids: seq<Bytes>)
    requires MappedHeader(h, name).Some? && !h.kind.Unset?
    ensures Restored(MappedHeader(h, name).value).Some?
    ensures ValidEntry(Restored(MappedHeader(h, name).value).value, ids) <==>
            ValidEntry(MappedHeader(h, name).value, ids)
  {
    MappedPax(h, name);
    MappedConsistent(h, name);
    var mapped := MappedHeader(h, name).value;
    SameMetadata(mapped, mapped.(pax := FullPax(mapped)));
    hide EntryMetadata, FullPax, MappedHeader, Restored, Consistent;
  }

  lemma SameMetadata(a: Header, b: Header)
    requires b == a.(pax := FullPax(a)) && MTIME in a.pax && UID in a.pax && GID in a.pax
    ensures EntryMetadata(a) == EntryMetadata(b)
  {
  }

  // Names

  // The archive path of a root's entry, without a directory's final slash.
  function RootBase(id: Bytes, name: Bytes, prefix: Bytes): Bytes
    requires prefix <= name
  {
    SNAPSHOT + [SLASH] + id + name[|prefix|..]
  }

  lemma MappedBase(id: Bytes, name: Bytes, prefix: Bytes, kind: Kind)
    requires PlainId(id) && [] !in Split(name) && prefix <= name && Inside(name, prefix) && prefix != []
    ensures TrimSlash(MappedName(id, name, prefix, kind)) == RootBase(id, name, prefix)
    ensures Split(RootBase(id, name, prefix)) ==
            [SNAPSHOT, id] + if name == prefix then [] else Split(name[|prefix| + 1..])
  {
    LastNotSlash(name);
    hide Split;
    MappedTrim(id, name, prefix, kind);
    MappedSplit(id, name, prefix);
  }

  lemma MappedTrim(id: Bytes, name: Bytes, prefix: Bytes, kind: Kind)
    requires PlainId(id) && name != [] && name[|name| - 1] != SLASH && prefix <= name
    ensures TrimSlash(MappedName(id, name, prefix, kind)) == RootBase(id, name, prefix)
  {
  }

  lemma MappedSplit(id: Bytes, name: Bytes, prefix: Bytes)
    requires PlainId(id) && prefix <= name && Inside(name, prefix)
    ensures Split(RootBase(id, name, prefix)) ==
            [SNAPSHOT, id] + if name == prefix then [] else Split(name[|prefix| + 1..])
  {
    hide Split;
    var base, tail := RootBase(id, name, prefix), name[|prefix|..];
    if name == prefix {
      assert tail == [];
      assert base == SNAPSHOT + [SLASH] + id;
      SplitFirst(SNAPSHOT, id);
      SplitFirst(id, []);
    } else {
      assert name[|prefix|] == (prefix + [SLASH])[|prefix|] == SLASH;
      var rest := name[|prefix| + 1..];
      assert tail == [SLASH] + rest;
      assert base == SNAPSHOT + [SLASH] + (id + [SLASH] + rest);
      SplitFirst(SNAPSHOT, id + [SLASH] + rest);
      SplitFirst(id, rest);
    }
  }

  lemma RootBaseInjective(id: Bytes, a: Bytes, b: Bytes, prefix: Bytes)
    requires prefix <= a && prefix <= b && RootBase(id, a, prefix) == RootBase(id, b, prefix)
    ensures a == b
  {
    var lead := SNAPSHOT + [SLASH] + id;
    assert a == prefix + RootBase(id, a, prefix)[|lead|..];
    assert b == prefix + RootBase(id, b, prefix)[|lead|..];
  }

  lemma MappedNameValid(id: Bytes, full: Bytes, prefix: Bytes, kind: Kind)
    requires PlainId(id) && ValidUtf8(full)
    requires prefix <= TrimSlash(full) && Inside(TrimSlash(full), prefix)
    ensures ValidUtf8(MappedName(id, TrimSlash(full), prefix, kind))
  {
    var name := TrimSlash(full);
    ValidCut(full, |name|);
    assert full[..|name|] == name;
    assert name != prefix ==> name[|prefix|] == (prefix + [SLASH])[|prefix|];
    ValidCut(name, |prefix|);
    var lead, end: Bytes := SNAPSHOT + [SLASH] + id, if kind.Directory? then [SLASH] else [];
    ValidAscii(lead);
    ValidAscii(end);
    ValidConcat(lead, name[|prefix|..]);
    ValidConcat(lead + name[|prefix|..], end);
  }

  /** A header that is read back as it was written, its records aside, and that
    * stays valid. */
  ghost predicate Kept(h: Header, ids: seq<Bytes>) {
    && ValidEntry(h, ids) && Restored(h) == Some(h.(pax := FullPax(h)))
    && ValidEntry(h.(pax := FullPax(h)), ids)
  }

  function Base(i: Item): Bytes {
    TrimSlash(i.header.name)
  }

  // Names of the entries seen so far under one root, in order.
  ghost predicate UnderRoot(items: seq<Item>, id: Bytes, ids: seq<Bytes>, prefix: Bytes, names: seq<Bytes>) {
    && |items| == |names|
    && (forall i, j :: 0 <= i < j < |names| ==> names[i] != names[j])
    && (names != [] ==> prefix != [])
    && forall k :: 0 <= k < |items| ==>
         && Writable(items[k]) && Kept(items[k].header, ids)
         && [] !in Split(names[k]) && prefix <= names[k] && Inside(names[k], prefix)
         && Base(items[k]) == RootBase(id, names[k], prefix)
  }

  // What the caller of a root needs to know of its entries.
  ghost predicate RootWritten(items: seq<Item>, id: Bytes, ids: seq<Bytes>) {
    && (forall i :: i in items ==> Writable(i) && Kept(i.header, ids))
    && (forall i, j :: 0 <= i < j < |items| ==> Base(items[i]) != Base(items[j]))
    && (forall i :: i in items ==> |Split(Base(i))| >= 2 && Split(Base(i))[1] == id)
    && (exists i :: i in items && |Split(Base(i))| == 2)
  }

  lemma RootIsWritten(items: seq<Item>, id: Bytes, ids: seq<Bytes>, prefix: Bytes, names: seq<Bytes>)
    requires UnderRoot(items, id, ids, prefix, names) && PlainId(id) && prefix in names
    ensures RootWritten(items, id, ids)
  {
    hide Writable, Kept, Split, Inside, RootBase;
    forall i, j | 0 <= i < j < |items|
      ensures Base(items[i]) != Base(items[j])
    {
      if Base(items[i]) == Base(items[j]) {
        RootBaseInjective(id, names[i], names[j], prefix);
      }
    }
    forall k | 0 <= k < |items|
      ensures |Split(Base(items[k]))| >= 2 && Split(Base(items[k]))[1] == id
      ensures names[k] == prefix ==> |Split(Base(items[k]))| == 2
    {
      MappedBase(id, names[k], prefix, File);
    }
    var k :| 0 <= k < |names| && names[k] == prefix;
    assert items[k] in items;
  }

  // Writing

  ghost predicate AllWritable(items: seq<Item>) {
    forall i :: i in items ==> Writable(i)
  }

  lemma StackedMore(items: seq<Item>, i: Item)
    requires AllWritable(items) && Writable(i)
    ensures AllWritable(items + [i]) && Stacked(items + [i]) == Stacked(items) + Stored(i)
  {
    hide Writable, Stored;
    assert (items + [i])[..|items|] == items;
  }

  /** Header, body and padding of one entry. */
  method WriteItem(output: Output, header: Header, body: Bytes, available: nat) returns (ok: bool, ghost item: Item)
    requires !IsPax(header.kind) && Clean(header) && |body| == Restored(header).value.size == header.size
    modifies output
    ensures ok ==> Writable(item) && item.header == header && item.body == body
    ensures ok ==> output.Written() == old(output.Written()) + Stored(item)
    ensures ok ==> output.size == old(output.size) + |Stored(item)|
    ensures ok && old(output.size) <= available ==> output.size <= available
    ensures Lists(item.keys, FullPax(header)) && output.refusals >= old(output.refusals)
    ensures ok ==> output.refusals == old(output.refusals)
    ensures !ok ==>
              output.refusals > old(output.refusals) || output.size > available ||
              !CanEncode(header, Records(item.keys, FullPax(header)))
  {
    hide Clean, Encoded, FullPax, CanEncode, Restored;
    var fits, encoded;
    ghost var keys;
    fits, encoded, keys := EncodeHeader(header);
    item := Item(header, keys, body);
    if !fits {
      return false, item;
    }
    ok := output.Write(encoded, available);
    if !ok {
      return;
    }
    ok := output.WriteBody(body, available);
    if !ok {
      return;
    }
    var padding := Zeros(PaddingSize(header.size));
    if |padding| > 0 {
      ok := output.Write(padding, available);
    }
    assert old(output.Written()) + encoded + body + padding == old(output.Written()) + (encoded + body + padding);
  }

  // The directory that the entries of a root lie in, as the first one has it.
  function Top(name: Bytes): Bytes {
    Split(name)[0]
  }

  /** An entry that a backup can take: its path is plain and inside its root, and
    * the entry it is mapped to is valid. */
  predicate Acceptable(e: Entry, id: Bytes, ids: seq<Bytes>, top: Bytes) {
    var name := TrimSlash(e.header.name);
    && (name != [] ==> name[0] != 47) && (forall p :: p in Split(name) ==> p != [] && p != [46] && p != [46, 46])
    && (name == top || top + [47] <= name)
    && var mapped := MappedHeader(e.header, MappedName(id, name, top, e.header.kind));
       mapped.Some? && ValidEntry(mapped.value, ids)
  }

  /** And whose path is short enough to be written: a header holds 4096 bytes,
    * although the checks allow 4096 UTF-16 units. */
  predicate Takes(e: Entry, id: Bytes, ids: seq<Bytes>, top: Bytes) {
    Acceptable(e, id, ids, top) && |MappedName(id, TrimSlash(e.header.name), top, e.header.kind)| <= 4096
  }

  /** A root that a backup can take: read to its end, its own directory among its
    * entries, which are at most 100000, distinct and acceptable. */
  ghost predicate Copyable(input: Walked, id: Bytes, ids: seq<Bytes>) {
    && input.ok && 1 <= |input.entries| <= 100_000
    && var top := Top(TrimSlash(input.entries[0].header.name));
    && (forall e :: e in input.entries ==> Takes(e, id, ids, top))
    && DistinctNames(input.entries)
    && (exists e :: e in input.entries && BaseName(e) == top)
  }

  /** The checks on one entry of a root, and its mapped header. */
  method MapEntry(e: Entry, id: Bytes, ids: seq<Bytes>, prefix: Bytes) returns (mapped: Option<Header>,
                  name: Bytes, top: Bytes)
    requires Delivered(e) && PlainId(id)
    ensures name == TrimSlash(e.header.name) && (prefix != [] ==> top == prefix)
    ensures mapped.Some? <==> Acceptable(e, id, ids, if prefix == [] then Top(name) else prefix)
    ensures mapped.Some? && prefix == [] ==> top == Top(name)
    ensures mapped.Some? ==> mapped == MappedHeader(e.header, MappedName(id, name, top, e.header.kind))
    ensures mapped.Some? ==>
      && [] !in Split(name) && top != [] && top <= name && Inside(name, top)
      && Kept(mapped.value, ids) && TrimSlash(mapped.value.name) == RootBase(id, name, top)
      && !IsPax(mapped.value.kind) && Clean(mapped.value)
      && |e.body| == Restored(mapped.value).value.size == mapped.value.size
  {
    hide MappedHeader, ValidEntry, Clean, Restored, MappedName, RootBase, Delivered, TrimSlash, PlainId;
    name, top := TrimSlash(e.header.name), prefix;
    if [SLASH] <= name || exists p :: p in Split(name) && Unsafe(p) {
      return None, name, top;
    }
    if top == [] {
      top := Split(name)[0];
      assert top in Split(name) && !Unsafe(top);
    }
    if !Inside(name, top) {
      return None, name, top;
    }
    var newName := MappedName(id, name, top, e.header.kind);
    mapped := MappedHeader(e.header, newName);
    if mapped.None? || !ValidEntry(mapped.value, ids) {
      return None, name, top;
    }
    MappedReadable(e, id, ids, top);
  }

  lemma MappedReadable(e: Entry, id: Bytes, ids: seq<Bytes>, top: Bytes)
    requires Delivered(e) && PlainId(id) && top != []
    requires var name := TrimSlash(e.header.name); [] !in Split(name) && top <= name && Inside(name, top)
    requires var m := MappedHeader(e.header, MappedName(id, TrimSlash(e.header.name), top, e.header.kind));
             m.Some? && ValidEntry(m.value, ids)
    ensures var name := TrimSlash(e.header.name);
            var mapped := MappedHeader(e.header, MappedName(id, name, top, e.header.kind)).value;
            && TrimSlash(mapped.name) == RootBase(id, name, top) && Clean(mapped) && !IsPax(mapped.kind) &&
              Kept(mapped, ids)
            && |e.body| == Restored(mapped).value.size == mapped.size
  {
    var name := TrimSlash(e.header.name);
    var newName := MappedName(id, name, top, e.header.kind);
    MappedBase(id, name, top, e.header.kind);
    MappedNameValid(id, e.header.name, top, e.header.kind);
    assert 0 !in newName;
    hide ValidEntry, MappedName, RootBase, Split, TrimSlash;
    MappedClean(e.header, newName);
    MappedConsistent(e.header, newName);
    MappedValidity(e.header, newName, ids);
    hide Clean, Restored, Consistent;
  }

  lemma EmptyRoot(id: Bytes, ids: seq<Bytes>)
    ensures UnderRoot([], id, ids, [], [])
  {
  }

  // The first entry sets the prefix; nothing was seen before it.
  lemma Adopt(items: seq<Item>, id: Bytes, ids: seq<Bytes>, prefix: Bytes, top: Bytes, names: seq<Bytes>)
    requires UnderRoot(items, id, ids, prefix, names) && (prefix != [] ==> top == prefix)
    ensures UnderRoot(items, id, ids, top, names)
  {
  }

  lemma UnderRootMore(items: seq<Item>, id: Bytes, ids: seq<Bytes>, prefix: Bytes, names: seq<Bytes>,
                      item: Item, name: Bytes)
    requires UnderRoot(items, id, ids, prefix, names) && name !in names && prefix != []
    requires Writable(item) && Kept(item.header, ids)
    requires [] !in Split(name) && prefix <= name && Inside(name, prefix) && Base(item) == RootBase(id, name, prefix)
    ensures UnderRoot(items + [item], id, ids, prefix, names + [name])
  {
    hide Writable, Kept, Split, RootBase, Base, Inside;
  }

  // The mapped entry fits into a header exactly if its name is short enough.
  lemma EntryWritten(e: Entry, id: Bytes, ids: seq<Bytes>, top: Bytes, mapped: Header, item: Item)
    requires Delivered(e) && Acceptable(e, id, ids, top) && top <= TrimSlash(e.header.name)
    requires Some(mapped) == MappedHeader(e.header, MappedName(id, TrimSlash(e.header.name), top, e.header.kind))
    requires Lists(item.keys, FullPax(mapped))
    ensures CanEncode(mapped, Records(item.keys, FullPax(mapped))) <==> Takes(e, id, ids, top)
  {
    MappedFits(e.header, MappedName(id, TrimSlash(e.header.name), top, e.header.kind), item.keys);
    hide CanEncode, FullPax, MappedHeader, MappedName, Split, Length16, EntryMetadata;
  }

  /** An entry that passed the checks: it is written unless its path is too long. */
  method WriteEntry(output: Output, e: Entry, id: Bytes, ids: seq<Bytes>, top: Bytes, mapped: Header,
                    available: nat) returns (ok: bool, ghost item: Item)
    requires Delivered(e) && Acceptable(e, id, ids, top) && top <= TrimSlash(e.header.name)
    requires Some(mapped) == MappedHeader(e.header, MappedName(id, TrimSlash(e.header.name), top, e.header.kind))
    requires !IsPax(mapped.kind) && Clean(mapped) && |e.body| == Restored(mapped).value.size == mapped.size
    modifies output
    ensures ok ==> Writable(item) && item.header == mapped && item.body == e.body
    ensures ok ==> output.Written() == old(output.Written()) + Stored(item)
    ensures ok ==> output.size == old(output.size) + |Stored(item)|
    ensures ok && old(output.size) <= available ==> output.size <= available
    ensures output.refusals >= old(output.refusals)
    ensures ok ==> output.refusals == old(output.refusals) && Takes(e, id, ids, top)
    ensures !ok ==> output.refusals > old(output.refusals) || output.size > available || !Takes(e, id, ids, top)
  {
    hide Delivered, Writable, Acceptable, Takes, MappedHeader, MappedName, Clean, Restored, Stored, TrimSlash, Lists,
      CanEncode, FullPax;
    ok, item := WriteItem(output, mapped, e.body, available);
    EntryWritten(e, id, ids, top, mapped, item);
    if ok {
      WritableFits(item);
    }
  }

  lemma WritableFits(item: Item)
    requires Writable(item)
    ensures Lists(item.keys, FullPax(item.header)) && CanEncode(item.header, Records(item.keys, FullPax(item.header)))
  {
  }

  // What the loop of a root knows of the entries it has written.
  ghost predicate Taken(input: Walked, id: Bytes, ids: seq<Bytes>, prefix: Bytes, listed: seq<Bytes>) {
    && |listed| <= |input.entries| && (listed == [] <==> prefix == [])
    && (listed != [] ==> prefix == Top(BaseName(input.entries[0])))
    && (forall j :: 0 <= j < |listed| ==> listed[j] == BaseName(input.entries[j]))
    && (forall j :: 0 <= j < |listed| ==> Takes(input.entries[j], id, ids, prefix))
  }

  // A root with an entry that is not taken, or that was there before, or with too
  // many, cannot be copied.
  lemma Refuses(input: Walked, id: Bytes, ids: seq<Bytes>, prefix: Bytes, listed: seq<Bytes>, top: Bytes)
    requires Taken(input, id, ids, prefix, listed) && |listed| < |input.entries|
    requires top == if prefix == [] then Top(BaseName(input.entries[|listed|])) else prefix
    ensures !Takes(input.entries[|listed|], id, ids, top) ==> !Copyable(input, id, ids)
    ensures BaseName(input.entries[|listed|]) in listed ==> !Copyable(input, id, ids)
    ensures |listed| >= MAX_ENTRIES ==> !Copyable(input, id, ids)
  {
    hide Takes, Top, TrimSlash;
    assert input.entries[|listed|] in input.entries;
  }

  lemma TakenMore(input: Walked, id: Bytes, ids: seq<Bytes>, prefix: Bytes, listed: seq<Bytes>, top: Bytes)
    requires Taken(input, id, ids, prefix, listed) && |listed| < |input.entries| && top != []
    requires top == if prefix == [] then Top(BaseName(input.entries[|listed|])) else prefix
    requires Takes(input.entries[|listed|], id, ids, top)
    ensures Taken(input, id, ids, top, listed + [BaseName(input.entries[|listed|])])
  {
    hide Takes, Top, TrimSlash;
  }

  // After its last entry.
  lemma TakenAll(input: Walked, id: Bytes, ids: seq<Bytes>, prefix: Bytes, listed: seq<Bytes>)
    requires Taken(input, id, ids, prefix, listed) && |listed| == |input.entries| <= MAX_ENTRIES
    requires forall i, j :: 0 <= i < j < |listed| ==> listed[i] != listed[j]
    ensures Copyable(input, id, ids) <==> input.ok && prefix != [] && prefix in listed
  {
    hide Takes, Top, TrimSlash;
    if input.entries != [] {
      if prefix in listed {
        var k :| 0 <= k < |listed| && listed[k] == prefix;
        assert input.entries[k] in input.entries;
      }
      forall e | e in input.entries
        ensures Takes(e, id, ids, prefix) && BaseName(e) in listed
      {
        var k :| 0 <= k < |input.entries| && input.entries[k] == e;
        assert listed[k] == BaseName(e);
      }
    }
  }

  lemma ListedDistinct(items: seq<Item>, id: Bytes, ids: seq<Bytes>, prefix: Bytes, names: seq<Bytes>)
    requires UnderRoot(items, id, ids, prefix, names)
    ensures forall i, j :: 0 <= i < j < |names| ==> names[i] != names[j]
  {
  }

  /** One root of the snapshot. */
  method WriteRoot(output: Output, id: Bytes, ids: seq<Bytes>, input: Walked,
                   available: nat) returns (ok: bool, ghost items: seq<Item>)
    requires PlainId(id) && forall e :: e in input.entries ==> Delivered(e)
    modifies output
    ensures ok ==> RootWritten(items, id, ids) && AllWritable(items) && |items| == |input.entries| <= MAX_ENTRIES
    ensures ok ==> output.Written() == old(output.Written()) + Stacked(items)
    ensures ok ==> output.size == old(output.size) + |Stacked(items)|
    ensures ok && old(output.size) <= available ==> output.size <= available
    ensures output.refusals >= old(output.refusals)
    ensures ok ==> output.refusals == old(output.refusals) && Copyable(input, id, ids)
    ensures !ok ==>
              output.refusals > old(output.refusals) || output.size > available || !Copyable(input, id, ids)
  {
    hide Delivered, Writable, Kept, Clean, Restored, Stored, Inside, Split, RootBase, UnderRoot, Taken, Copyable;
    hide Acceptable, Takes, MappedHeader, MappedName, TrimSlash, Top, RootWritten, Stacked;
    items := [];
    EmptyRoot(id, ids);
    var prefix: Bytes, names: set<Bytes> := [], {};
    ghost var listed: seq<Bytes> := [];
    NothingTaken(input, id, ids);
    assert output.Written() + [] == output.Written();
    for k := 0 to |input.entries|
      invariant UnderRoot(items, id, ids, prefix, listed) && AllWritable(items)
      invariant |names| == |items| == |listed| == k <= MAX_ENTRIES && forall n :: n in names <==> n in listed
      invariant output.Written() == old(output.Written()) + Stacked(items)
      invariant output.size == old(output.size) + |Stacked(items)|
      invariant old(output.size) <= available ==> output.size <= available
      invariant output.refusals == old(output.refusals) && Taken(input, id, ids, prefix, listed)
    {
      var mapped, name, top := MapEntry(input.entries[k], id, ids, prefix);
      Refuses(input, id, ids, prefix, listed, if prefix == [] then Top(name) else prefix);
      if mapped.None? {
        NotTaken(input.entries[k], id, ids, if prefix == [] then Top(name) else prefix);
        return false, items;
      }
      Adopt(items, id, ids, prefix, top, listed);
      if name in names || |names| >= MAX_ENTRIES {
        return false, items;
      }
      ghost var item;
      ok, item := WriteEntry(output, input.entries[k], id, ids, top, mapped.value, available);
      if !ok {
        return;
      }
      TakenMore(input, id, ids, prefix, listed, top);
      prefix := top;
      names := names + {name};
      StackedMore(items, item);
      UnderRootMore(items, id, ids, prefix, listed, item, name);
      assert old(output.Written()) + Stacked(items) + Stored(item) ==
        old(output.Written()) + (Stacked(items) + Stored(item));
      items, listed := items + [item], listed + [name];
    }
    ListedDistinct(items, id, ids, prefix, listed);
    TakenAll(input, id, ids, prefix, listed);
    if !input.ok || prefix == [] || prefix !in names {
      return false, items;
    }
    RootIsWritten(items, id, ids, prefix, listed);
    ok := true;
  }

  lemma NothingTaken(input: Walked, id: Bytes, ids: seq<Bytes>)
    ensures Taken(input, id, ids, [], []) && AllWritable([]) && Stacked([]) == []
  {
  }

  lemma NotTaken(e: Entry, id: Bytes, ids: seq<Bytes>, top: Bytes)
    requires !Acceptable(e, id, ids, top)
    ensures !Takes(e, id, ids, top)
  {
  }

  datatype RootInput = RootInput(id: Bytes, archive: Walked)

  function Ids(roots: seq<RootInput>): (ids: seq<Bytes>)
    ensures |ids| == |roots| && forall k :: 0 <= k < |roots| ==> ids[k] == roots[k].id
  {
    seq(|roots|, k requires 0 <= k < |roots| => roots[k].id)
  }

  function Entries(roots: seq<RootInput>): nat {
    if roots == [] then 0 else Entries(roots[..|roots| - 1]) + |roots[|roots| - 1].archive.entries|
  }

  /** What every published archive holds: the snapshot directory, then entries
    * that are valid and distinct, with every root's own directory. */
  ghost predicate Published(items: seq<Item>, ids: seq<Bytes>) {
    && AllWritable(items) && items != [] && items[0].header == SNAPSHOT_HEADER
    && (forall i :: i in items ==> Kept(i.header, ids))
    && (forall i, j :: 0 <= i < j < |items| ==> Base(items[i]) != Base(items[j]))
    && (forall id :: id in ids ==> exists i :: i in items && RootDirectory(i, id))
  }

  ghost predicate RootDirectory(i: Item, id: Bytes) {
    var parts := Split(Base(i));
    |parts| == 2 && parts[1] == id
  }

  // The archive while some of its roots are written.
  ghost predicate Partial(items: seq<Item>, ids: seq<Bytes>, done: nat) {
    && done <= |ids| && AllWritable(items) && items != [] && items[0].header == SNAPSHOT_HEADER
    && (forall i :: i in items ==> Kept(i.header, ids))
    && (forall i, j :: 0 <= i < j < |items| ==> Base(items[i]) != Base(items[j]))
    && (forall k :: 0 < k < |items| ==> |Split(Base(items[k]))| >= 2 && Split(Base(items[k]))[1] in ids[..done])
    && (forall id :: id in ids[..done] ==> exists i :: i in items && RootDirectory(i, id))
  }

  lemma SnapshotDirectory(ids: seq<Bytes>)
    ensures Clean(SNAPSHOT_HEADER) && Restored(SNAPSHOT_HEADER).value.size == 0
    ensures Kept(SNAPSHOT_HEADER, ids)
    ensures TrimSlash(SNAPSHOT_HEADER.name) == SNAPSHOT && Split(SNAPSHOT) == [SNAPSHOT]
    ensures FullPax(SNAPSHOT_HEADER) == map[] && Restored(SNAPSHOT_HEADER) == Some(SNAPSHOT_HEADER)
  {
    SnapshotReadable();
    SnapshotName();
    hide Restored, FullPax, ValidUtf8, Length16, Split, TrimSlash;
  }

  lemma SnapshotReadable()
    ensures FullPax(SNAPSHOT_HEADER) == map[] && Restored(SNAPSHOT_HEADER) == Some(SNAPSHOT_HEADER)
    ensures ValidUtf8(SNAPSHOT_HEADER.name) && ValidUtf8(SNAPSHOT_HEADER.linkname)
  {
    ValidAscii(SNAPSHOT_HEADER.name);
    ValidAscii([]);
    assert |SNAPSHOT_HEADER.name| == 9;
  }

  lemma SnapshotName()
    ensures TrimSlash(SNAPSHOT_HEADER.name) == SNAPSHOT && Split(SNAPSHOT) == [SNAPSHOT]
    ensures SafePart(SNAPSHOT) && Length16(SNAPSHOT) == 8
    ensures 0 !in SNAPSHOT_HEADER.name && BACKSLASH !in SNAPSHOT_HEADER.name && !([SLASH] <= SNAPSHOT_HEADER.name)
  {
    SnapshotPlain();
    SplitFirst(SNAPSHOT, []);
    AsciiLength(SNAPSHOT);
    assert (SNAPSHOT + [SLASH])[..8] == SNAPSHOT;
    hide Split, Length16;
  }

  lemma SnapshotPlain()
    ensures SLASH !in SNAPSHOT && 0 !in SNAPSHOT && BACKSLASH !in SNAPSHOT && SafePart(SNAPSHOT)
    ensures forall i :: 0 <= i < 8 ==> SNAPSHOT[i] < 0x80
  {
  }

  lemma {:induction false} AsciiLength(s: Bytes)
    requires forall i :: 0 <= i < |s| ==> s[i] < 0x80
    ensures Length16(s) == |s|
  {
    if s != [] {
      AsciiLength(s[1..]);
    }
  }

  lemma AddRoot(items: seq<Item>, ids: seq<Bytes>, done: nat, more: seq<Item>)
    requires Partial(items, ids, done) && PlainIds(ids) && done < |ids| && RootWritten(more, ids[done], ids)
    requires AllWritable(more)
    ensures Partial(items + more, ids, done + 1)
  {
    hide ValidEntry, Writable, Split, Base, PlainId;
    var all, id := items + more, ids[done];
    assert ids[..done + 1] == ids[..done] + [id];
    assert Base(items[0]) == SNAPSHOT && Split(SNAPSHOT) == [SNAPSHOT] by {
      SnapshotDirectory(ids);
      SnapshotBase(items[0]);
    }
    forall i, j | 0 <= i < |items| <= j < |all|
      ensures Base(all[i]) != Base(all[j])
    {
      assert all[j] == more[j - |items|] && all[j] in more;
      if 0 < i {
        assert Split(Base(items[i]))[1] in ids[..done];
      }
    }
    var root: Item :| root in more && |Split(Base(root))| == 2;
    assert RootDirectory(root, id) && root in all;
    forall k | 0 < k < |all|
      ensures |Split(Base(all[k]))| >= 2 && Split(Base(all[k]))[1] in ids[..done + 1]
    {
      if k >= |items| {
        assert all[k] in more;
      }
    }
  }

  lemma SnapshotBase(i: Item)
    requires i.header == SNAPSHOT_HEADER
    ensures Base(i) == TrimSlash(SNAPSHOT_HEADER.name)
  {
  }

  lemma StackedConcat(items: seq<Item>, more: seq<Item>)
    requires AllWritable(items) && AllWritable(more)
    ensures AllWritable(items + more) && Stacked(items + more) == Stacked(items) + Stacked(more)
    decreases |more|
  {
    hide Writable, Stored;
    if more == [] {
      assert items + more == items;
    } else {
      var init, last := more[..|more| - 1], more[|more| - 1];
      StackedConcat(items, init);
      assert (items + more)[..|items + more| - 1] == items + init;
      assert Stacked(items) + Stacked(init) + Stored(last) == Stacked(items) + (Stacked(init) + Stored(last));
    }
  }

  /** WriteSnapshot: what is published is an archive of valid, distinct entries,
    * one per entry read and one for the snapshot directory, within the limit. */
  method WriteSnapshot(roots: seq<RootInput>, available: nat) returns (ok: bool, file: Bytes, size: nat,
                       ghost items: seq<Item>, ghost output: Output)
    requires PlainIds(Ids(roots))
    requires forall r :: r in roots ==> forall e :: e in r.archive.entries ==> Delivered(e)
    ensures ok ==> Published(items, Ids(roots)) && file == Archive(items) && size == |file| <= available
    ensures ok ==> |items| == 1 + Entries(roots)
    ensures fresh(output) && (ok ==> output.refusals == 0 && AllCopyable(roots))
    ensures !ok ==> output.refusals > 0 || output.size > available || !AllCopyable(roots)
  {
    hide Delivered, Writable, Kept, Clean, Restored, Stored, Partial, Copyable, CanEncode;
    var ids := Ids(roots);
    var out := new Output();
    output := out;
    file, size, items := [], 0, [];
    SnapshotDirectory(ids);
    ghost var item;
    SnapshotFits();
    ok, item := WriteItem(out, SNAPSHOT_HEADER, [], available);
    if !ok {
      return;
    }
    FirstItem(item, ids);
    ok, items := WriteRoots(out, roots, available, item);
    if !ok {
      return;
    }
    ok := out.Write(Zeros(2 * BLOCK), available);
    if !ok {
      return;
    }
    out.Flush();
    AllRootsWritten(items, ids);
    StackedIsArchive(items);
    file, size := out.file, out.size;
  }

  ghost predicate AllCopyable(roots: seq<RootInput>) {
    forall k :: 0 <= k < |roots| ==> Copyable(roots[k].archive, roots[k].id, Ids(roots))
  }

  lemma SnapshotFits()
    ensures CanEncode(SNAPSHOT_HEADER, []) && Records([], map[]) == []
    ensures forall keys: seq<Bytes> :: Lists(keys, map[]) ==> keys == []
  {
    SnapshotReadable();
    assert 0 !in SNAPSHOT_HEADER.name && |SNAPSHOT_HEADER.name| == 9;
    forall keys: seq<Bytes> | Lists(keys, map[])
      ensures keys == []
    {
      DistinctSize(keys);
      assert (set k | k in keys) == {};
    }
  }

  lemma AllRootsWritten(items: seq<Item>, ids: seq<Bytes>)
    requires Partial(items, ids, |ids|)
    ensures Published(items, ids)
  {
    hide Writable, Kept;
    assert ids[..|ids|] == ids;
  }

  method WriteRoots(output: Output, roots: seq<RootInput>, available: nat,
                    ghost first: Item) returns (ok: bool, ghost items: seq<Item>)
    requires PlainIds(Ids(roots)) && Partial([first], Ids(roots), 0)
    requires forall r :: r in roots ==> forall e :: e in r.archive.entries ==> Delivered(e)
    requires output.Written() == Stacked([first]) && output.size == |output.Written()| <= available
    modifies output
    ensures ok ==> Partial(items, Ids(roots), |roots|) && |items| == 1 + Entries(roots)
    ensures ok ==> output.Written() == Stacked(items) && output.size == |output.Written()| <= available
    ensures output.refusals >= old(output.refusals)
    ensures ok ==> output.refusals == old(output.refusals) && AllCopyable(roots)
    ensures !ok ==> output.refusals > old(output.refusals) || output.size > available || !AllCopyable(roots)
  {
    hide Copyable;
    hide Delivered, Writable, Kept, Stored, Split, RootWritten, PlainId, Stacked, RootDirectory;
    var ids := Ids(roots);
    items := [first];
    for k := 0 to |roots|
      invariant Partial(items, ids, k) && |items| == 1 + Entries(roots[..k])
      invariant output.Written() == Stacked(items) && output.size == |output.Written()| <= available
      invariant output.refusals == old(output.refusals)
      invariant forall j :: 0 <= j < k ==> Copyable(roots[j].archive, roots[j].id, ids)
    {
      var stopped := output.Ask();
      if !stopped {
        return false, items;
      }
      assert roots[k] in roots && ids[k] == roots[k].id;
      assert PlainId(ids[k]);
      ghost var more;
      ok, more := WriteRoot(output, roots[k].id, ids, roots[k].archive, available);
      if !ok {
        return;
      }
      AddRoot(items, ids, k, more);
      StackedConcat(items, more);
      assert roots[..k + 1][..k] == roots[..k];
      items := items + more;
    }
    assert roots[..|roots|] == roots;
    ok := true;
  }

  lemma FirstItem(item: Item, ids: seq<Bytes>)
    requires Writable(item) && item.header == SNAPSHOT_HEADER && Kept(SNAPSHOT_HEADER, ids)
    ensures Partial([item], ids, 0) && Stacked([item]) == Stored(item)
  {
    hide Writable, Kept, Stored;
    assert [item][..0] == [];
    assert Stacked([]) + Stored(item) == Stored(item);
  }

  // Acceptance

  lemma {:induction false} VisitsAt(items: seq<Item>, k: nat)
    requires AllWritable(items) && k < |items|
    ensures |Visits(items)| == |items| && Visits(items)[k] == Visit(items[k])
  {
    hide Writable, Visit;
    if k > 0 {
      VisitsAt(items[1..], k - 1);
    } else if |items| > 1 {
      VisitsAt(items[1..], 0);
    }
  }

  lemma VisitKept(i: Item, ids: seq<Bytes>)
    requires Writable(i) && Kept(i.header, ids)
    ensures ValidEntry(Visit(i).header, ids) && Visit(i).header.size == |i.body| <= |Stored(i)|
    ensures BaseName(Visit(i)) == Base(i)
  {
    hide ValidEntry, FullPax, Encoded, CanEncode, TrimSlash, Restored;
  }

  lemma {:induction false} SizesFit(items: seq<Item>, ids: seq<Bytes>)
    requires AllWritable(items) && forall i :: i in items ==> Kept(i.header, ids)
    ensures 0 <= Total(Visits(items)) <= |Archive(items)|
  {
    hide Writable, Kept, Visit, Stored;
    if items != [] {
      SizesFit(items[1..], ids);
      VisitKept(items[0], ids);
      TotalFront(Visit(items[0]), Visits(items[1..]));
    }
  }

  lemma {:induction false} TotalFront(first: Entry, rest: seq<Entry>)
    ensures Total([first] + rest) == first.header.size + Total(rest)
  {
    if rest == [] {
      assert [first] + rest == [first];
      assert Total([first][..0]) == 0;
    } else {
      var all := [first] + rest;
      assert all[..|all| - 1] == [first] + rest[..|rest| - 1];
      TotalFront(first, rest[..|rest| - 1]);
    }
  }

  /** ValidateStream accepts a published archive, for the same roots and a limit
    * it fits, exactly when it has at most 100000 entries in total. (The writer
    * limits each root by itself.) */
  lemma PublishedIsAccepted(items: seq<Item>, ids: seq<Bytes>, maxBytes: int, tooLarge: GlobalLimit)
    requires Published(items, ids) && |Archive(items)| <= maxBytes
    ensures Accepted(Walk(Archive(items), START, tooLarge), |Archive(items)|, ids, maxBytes) <==> |items| <= MAX_ENTRIES
  {
    hide Writable, Kept, Walk, Archive, RootDirectory, ValidEntry;
    ArchiveWalk(items, 0, tooLarge);
    if PaxCount(items) <= MAX_METADATA {
      VisitsAt(items, 0);
      if |items| <= MAX_ENTRIES {
        VisitsAccepted(items, ids, maxBytes);
      }
    }
  }

  lemma VisitsAccepted(items: seq<Item>, ids: seq<Bytes>, maxBytes: int)
    requires Published(items, ids) && |Archive(items)| <= maxBytes && |items| <= MAX_ENTRIES
    ensures Accepted(Walked(Visits(items), true), |Archive(items)|, ids, maxBytes)
  {
    hide Writable, Kept, Archive, ValidEntry, Visit, Base, BaseName, Visits, Split;
    var entries := Visits(items);
    forall k | 0 <= k < |items|
      ensures |entries| == |items| && ValidEntry(entries[k].header, ids) && BaseName(entries[k]) == Base(items[k])
      ensures entries[k] in entries
    {
      VisitsAt(items, k);
      VisitKept(items[k], ids);
    }
    VisitsAt(items, 0);
    SizesFit(items, ids);
    forall id | id in ids
      ensures exists e :: e in entries && IsRoot(e, id)
    {
      var i: Item :| i in items && RootDirectory(i, id);
      var k :| 0 <= k < |items| && items[k] == i;
      assert IsRoot(entries[k], id);
    }
  }

  /** From bytes to verdict: reading a published archive in any pieces. */
  method ValidatePublished(source: Source, ids: seq<Bytes>, maxBytes: int, size: nat, tooLarge: GlobalLimit,
                           ghost items: seq<Item>) returns (staged: Option<map<Bytes, nat>>)
    requires Published(items, ids) && source.Valid() && source.Rest() == Archive(items)
    requires size == |Archive(items)| <= maxBytes
    modifies source
    ensures staged.Some? <==> |items| <= MAX_ENTRIES
  {
    hide Walk, Archive, Published;
    ghost var data := source.Rest();
    var walked := WalkStream(source, tooLarge);
    WalkDelivers(data, START, tooLarge);
    PublishedIsAccepted(items, ids, maxBytes, tooLarge);
    staged := ValidateStream(walked, size, ids, maxBytes);
  }

  // Every entry a walk delivers is readable.

  ghost predicate ReadablePax(pax: Pax) {
    forall k :: k in pax ==> ValidUtf8(pax[k])
  }

  lemma PairValueReadable(record: Bytes)
    requires ParsePair(record).Some?
    ensures ValidUtf8(ParsePair(record).value.1)
  {
    var equals := Index(record, EQUALS);
    ValidCut(record, equals);
    assert RuneLength(record[equals..]) == 1;
    assert record[equals..][1..] == record[equals + 1..];
  }

  lemma RecordValueReadable(data: Bytes)
    requires ParseRecord(data).Some?
    ensures ValidUtf8(ParseRecord(data).value.value)
  {
    hide ParsePair, ValidUtf8;
    var space := Index(data, SPACE);
    var end := ParseLength(data[..space]).value;
    PairValueReadable(data[space + 1..end - 1]);
  }

  lemma {:induction false} ParseReadable(data: Bytes, seen: Pax)
    requires ReadablePax(seen) && Parse(data, seen).Some?
    ensures ReadablePax(Parse(data, seen).value)
    decreases |data|
  {
    hide ParseRecord, ValidUtf8;
    if data != [] {
      RecordValueReadable(data);
      var r := ParseRecord(data).value;
      ParseReadable(data[r.end..], seen[r.key := r.value]);
    }
  }

  lemma DecodeReadable(block: Bytes, path: Option<Bytes>)
    requires |block| == BLOCK && Decode(block, path).Some? && (path.Some? ==> ValidUtf8(path.value))
    ensures ValidUtf8(Decode(block, path).value.name) && !Decode(block, path).value.kind.Unset?
  {
    hide Intact, Integer, ValidUtf8, TextField, DecodeName;
    DecodedNameReadable(block, path);
  }

  lemma DecodeMode(block: Bytes, path: Option<Bytes>)
    requires |block| == BLOCK && Decode(block, path).Some?
    ensures InRange(Decode(block, path).value.mode)
  {
    hide Intact, Integer, TextField, DecodeName, InRange, KindOf;
    NumberInRange(block[100..108]);
  }

  lemma NumberInRange(field: Bytes)
    requires field != [] && Integer(field).Some?
    ensures InRange(Integer(field).value)
  {
    hide Trim, TextField, Wide;
  }

  lemma DecodedNameReadable(block: Bytes, path: Option<Bytes>)
    requires |block| == BLOCK && (path.Some? ==> ValidUtf8(path.value)) && DecodeName(block, path).Some?
    ensures ValidUtf8(DecodeName(block, path).value)
  {
    NameReadable(block[345..500], block[0..100]);
    ValidAscii(PAX_NAME);
    hide ValidUtf8, TextField, UstarName;
  }

  lemma NameReadable(prefix: Bytes, name: Bytes)
    ensures var full := UstarName(TextField(prefix), TextField(name)); full.Some? ==> ValidUtf8(full.value)
  {
    var p, n := TextField(prefix), TextField(name);
    if p.Some? && n.Some? {
      ValidAscii([SLASH]);
      ValidConcat(p.value, [SLASH]);
      ValidConcat(p.value + [SLASH], n.value);
    }
  }

  ghost predicate ReadableState(st: State) {
    ReadablePax(st.global) && (st.local.Some? ==> ReadablePax(st.local.value))
  }

  lemma TurnDelivers(data: Bytes, st: State, tooLarge: GlobalLimit)
    requires ReadableState(st)
    ensures var turn := TakeTurn(data, st, tooLarge);
            && (forall e :: e in (if turn.Stop? then turn.result.entries else turn.entries) ==> Delivered(e))
            && (turn.More? ==> ReadableState(turn.next))
  {
    if |data| >= BLOCK && !AllZero(data[..BLOCK]) && Decode(data[..BLOCK], PathOf(st)).Some? {
      DecodeReadable(data[..BLOCK], PathOf(st));
      DecodeMode(data[..BLOCK], PathOf(st));
      var h, rest := Decode(data[..BLOCK], PathOf(st)).value, data[BLOCK..];
      if IsPax(h.kind) && h.size <= |rest| && Parse(rest[..h.size], map[]).Some? {
        ParseReadable(rest[..h.size], map[]);
      }
    }
    hide Decode, Parse, ValidUtf8, Override, Time;
  }

  lemma {:induction false} WalkDelivers(data: Bytes, st: State, tooLarge: GlobalLimit)
    requires ReadableState(st)
    ensures forall e :: e in Walk(data, st, tooLarge).entries ==> Delivered(e)
    decreases |data|
  {
    hide Delivered, ReadableState;
    TurnDelivers(data, st, tooLarge);
    var turn := TakeTurn(data, st, tooLarge);
    if turn.More? {
      WalkDelivers(data[turn.used..], turn.next, tooLarge);
    }
    hide TakeTurn;
  }
}
