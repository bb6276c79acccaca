/** Writing an archive, and reading it back. */
module TarEncode {

  import opened Wrappers
  import opened Octets
  import opened TarBytes
  import opened TarHeader
  import opened TarHeaderCode
  import opened TarPax
  import opened TarWalk

  const MAX_NAME: nat := 4096
  const ENTRY_NAME: Bytes := [101, 110, 116, 114, 121]

  /** The PAX records of an entry: its own, and its path or time where the ustar
    * header cannot hold them. */
  function FullPax(h: Header): Pax {
    var withPath := if PATH !in h.pax && |h.name| > 100 then h.pax[PATH := h.name] else h.pax;
    if MTIME !in withPath && h.mtime < 0 then withPath[MTIME := FormatTime(h.mtime)] else withPath
  }

  function PaxBlock(size: nat): (h: Header)
    requires size <= MAX_METADATA_BYTES
    ensures Encodable(h) && ValidUtf8(h.linkname)
  {
    Header(PAX_NAME, Unset, size, 420, 0, 0, 0, [], map[])
  }

  // The header the entry's own block is written from.
  function OwnBlock(h: Header): Header {
    if PATH in FullPax(h) then h.(name := ENTRY_NAME) else h
  }

  predicate CanEncode(h: Header, records: Bytes) {
    |h.name| <= MAX_NAME && |records| <= MAX_METADATA_BYTES && Encodable(OwnBlock(h))
  }

  function PaxPart(records: Bytes): Bytes
    requires |records| <= MAX_METADATA_BYTES
  {
    if records == [] then []
    else Block(PaxBlock(|records|), PAX_FLAG) + records + Zeros(PaddingSize(|records|))
  }

  /** EncodeHeader, with the PAX records written in the order of keys. */
  function Encoded(h: Header, keys: seq<Bytes>): Bytes
    requires (forall k :: k in keys ==> k in FullPax(h)) && CanEncode(h, Records(keys, FullPax(h)))
  {
    PaxPart(Records(keys, FullPax(h))) + Block(OwnBlock(h), FlagOf(h.kind))
  }

  /** EncodeHeader. It fails exactly when the name, the records or a field do not
    * fit; the order of the records is any order of the keys. */
  method EncodeHeader(h: Header) returns (ok: bool, result: Bytes, ghost keys: seq<Bytes>)
    ensures Lists(keys, FullPax(h))
    ensures ok <==> CanEncode(h, Records(keys, FullPax(h)))
    ensures ok ==> result == Encoded(h, keys)
  {
    var pax := FullPax(h);
    var names := pax.Keys;
    var records: Bytes := [];
    keys := [];
    result := [];
    while names != {}
      invariant names <= pax.Keys
      invariant forall k :: k in keys <==> k in pax && k !in names
      invariant forall i, j :: 0 <= i < j < |keys| ==> keys[i] != keys[j]
      invariant records == Records(keys, pax)
      decreases names
    {
      var key :| key in names;
      var record := PaxRecord(key, pax[key]);
      RecordsAppend(keys, key, pax);
      records := records + record;
      keys := keys + [key];
      names := names - {key};
    }
    if |h.name| > MAX_NAME || |records| > MAX_METADATA_BYTES {
      return false, [], keys;
    }
    if records != [] {
      var fine, header := RawHeader(PaxBlock(|records|), PAX_FLAG);
      result := header[..] + records + Zeros(PaddingSize(|records|));
    }
    var own, block := RawHeader(OwnBlock(h), FlagOf(h.kind));
    if !own {
      return false, [], keys;
    }
    result := result + block[..];
    ok := true;
  }

  lemma {:induction false} RecordsAppend(keys: seq<Bytes>, key: Bytes, pax: Pax)
    requires key in pax && forall k :: k in keys ==> k in pax
    ensures Records(keys + [key], pax) == Records(keys, pax) + RecordOf(key, pax[key])
  {
    hide RecordOf;
    if keys == [] {
      assert keys + [key] == [key];
      assert Records([key], pax) == RecordOf(key, pax[key]) + Records([], pax);
    } else {
      assert (keys + [key])[1..] == keys[1..] + [key];
      RecordsAppend(keys[1..], key, pax);
      assert RecordOf(keys[0], pax[keys[0]]) + (Records(keys[1..], pax) + RecordOf(key, pax[key])) ==
             RecordOf(keys[0], pax[keys[0]]) + Records(keys[1..], pax) + RecordOf(key, pax[key]);
    }
  }

  // What the reader makes of a written header.

  function ReadKind(kind: Kind): Kind {
    if kind.Unset? then File else kind
  }

  function AsDecoded(h: Header): Header {
    Header(if PATH in FullPax(h) then FullPax(h)[PATH] else h.name, ReadKind(h.kind), h.size, h.mode, h.uid, h.gid,
           StoredMtime(h.mtime), h.linkname, map[])
  }

  function Restored(h: Header): Option<Header> {
    Apply(AsDecoded(h), FullPax(h))
  }

  /** Headers that can be read back: valid UTF-8, clean records, and overrides
    * that are numbers. */
  ghost predicate Clean(h: Header) {
    && CleanPax(FullPax(h)) && ValidUtf8(h.linkname) && (PATH !in FullPax(h) ==> ValidUtf8(h.name))
    && h.size >= 0 && Restored(h).Some? && (ReadKind(h.kind).File? || Restored(h).value.size == 0)
  }

  /** Headers whose own overrides agree with their fields. */
  ghost predicate Consistent(h: Header) {
    && !h.kind.Unset? && (h.mtime < 0 && MTIME !in h.pax ==> h.mtime >= 0 - MAX_TIME as int)
    && (SIZE in h.pax ==> Unsigned(h.pax[SIZE]) == Some(h.size))
    && (UID in h.pax ==> Unsigned(h.pax[UID]) == Some(h.uid))
    && (GID in h.pax ==> Unsigned(h.pax[GID]) == Some(h.gid))
    && (MTIME in h.pax ==> Time(h.pax[MTIME]) == Some(h.mtime))
    && (PATH in h.pax ==> h.pax[PATH] == h.name) && (LINKPATH in h.pax ==> h.pax[LINKPATH] == h.linkname)
  }

  /** Such a header is read back unchanged, with the records it was written with. */
  lemma ConsistentIsRestored(h: Header)
    requires Consistent(h)
    ensures Restored(h) == Some(h.(pax := FullPax(h)))
  {
    if h.mtime < 0 && MTIME !in h.pax {
      TimeRoundTrip(h.mtime);
    }
  }

  datatype Item = Item(header: Header, keys: seq<Bytes>, body: Bytes)

  ghost predicate Writable(i: Item) {
    && Lists(i.keys, FullPax(i.header)) && CanEncode(i.header, Records(i.keys, FullPax(i.header)))
    && !IsPax(i.header.kind) && Clean(i.header) && |i.body| == Restored(i.header).value.size
  }

  // An entry as the archive holds it: header, body, padding.
  ghost function Stored(i: Item): Bytes
    requires Writable(i)
  {
    Encoded(i.header, i.keys) + i.body + Zeros(PaddingSize(|i.body|))
  }

  ghost function Archive(items: seq<Item>): Bytes
    requires forall i :: i in items ==> Writable(i)
  {
    if items == [] then Zeros(2 * BLOCK) else Stored(items[0]) + Archive(items[1..])
  }

  ghost function Visit(i: Item): Entry
    requires Writable(i)
  {
    Entry(Restored(i.header).value, i.body)
  }

  ghost function Visits(items: seq<Item>): seq<Entry>
    requires forall i :: i in items ==> Writable(i)
  {
    if items == [] then [] else [Visit(items[0])] + Visits(items[1..])
  }

  lemma NotZero(h: Header, flag: Byte)
    requires Encodable(h) && flag != 0
    ensures !AllZero(Block(h, flag))
  {
    BlockFields(h, flag, []);
    BackFields(h, flag, []);
    assert Block(h, flag)[156] == Block(h, flag)[156..][0];
  }

  lemma PaxTurnOn(header: Bytes, h: Header, records: Bytes, pax: Pax, more: Bytes, metadata: nat, tooLarge: GlobalLimit)
    requires |header| == BLOCK && !AllZero(header) && Decode(header, None) == Some(h)
    requires h.kind.PaxHeader? && h.size == |records| <= MAX_METADATA_BYTES && metadata < MAX_METADATA
    requires Parse(records, map[]) == Some(pax)
    ensures var part := header + records + Zeros(PaddingSize(|records|));
            TakeTurn(part + more, State(map[], None, metadata), tooLarge) ==
            More([], |part|, State(map[], Some(pax), metadata + 1))
  {
    hide Parse, Decode;
    var padding := Zeros(PaddingSize(|records|));
    var data := header + records + padding + more;
    assert data[..BLOCK] == header;
    var rest := data[BLOCK..];
    assert rest == records + padding + more;
    assert rest[..|records|] == records;
    assert rest[|records|..|records| + |padding|] == padding;
  }

  /** The PAX part of an entry is one turn that leaves its records for the next. */
  lemma PaxPartTurn(records: Bytes, pax: Pax, more: Bytes, metadata: nat, tooLarge: GlobalLimit)
    requires records != [] && |records| <= MAX_METADATA_BYTES && metadata < MAX_METADATA
    requires Parse(records, map[]) == Some(pax)
    ensures TakeTurn(PaxPart(records) + more, State(map[], None, metadata), tooLarge) ==
            More([], |PaxPart(records)|, State(map[], Some(pax), metadata + 1))
  {
    hide Parse, Decode, TakeTurn;
    NotZero(PaxBlock(|records|), PAX_FLAG);
    BlockRoundTrip(PaxBlock(|records|), PAX_FLAG, None);
    hide Block;
    PaxTurnOn(Block(PaxBlock(|records|), PAX_FLAG), Decode(Block(PaxBlock(|records|), PAX_FLAG), None).value,
              records, pax, more, metadata, tooLarge);
  }

  lemma EntryTurnOn(header: Bytes, h: Header, full: Header, body: Bytes, more: Bytes, st: State, tooLarge: GlobalLimit)
    requires |header| == BLOCK && !AllZero(header) && Decode(header, PathOf(st)) == Some(h) && !IsPax(h.kind)
    requires Apply(h, Merged(st)) == Some(full) && full.size == |body| && (full.kind.File? || full.size == 0)
    ensures var own := header + body + Zeros(PaddingSize(|body|));
            TakeTurn(own + more, st, tooLarge) == More([Entry(full, body)], |own|, st.(local := None))
  {
    hide Decode, Apply, PathOf, Merged;
    var padding := Zeros(PaddingSize(|body|));
    var data := header + body + padding + more;
    assert data[..BLOCK] == header;
    var rest := data[BLOCK..];
    assert rest == body + padding + more;
    assert rest[..|body|] == body;
    assert rest[|body|..|body| + |padding|] == padding;
  }

  // The state in which an entry's own block is read.
  function Before(h: Header, metadata: nat): State {
    State(map[], if FullPax(h) == map[] then None else Some(FullPax(h)), metadata)
  }

  lemma BeforeState(h: Header, metadata: nat)
    ensures PathOf(Before(h, metadata)) == if PATH in FullPax(h) then Some(FullPax(h)[PATH]) else None
    ensures Merged(Before(h, metadata)) == FullPax(h)
  {
  }

  lemma DecodeOwnBlock(h: Header, metadata: nat)
    requires Clean(h) && Encodable(OwnBlock(h)) && !IsPax(h.kind)
    ensures var header := Block(OwnBlock(h), FlagOf(h.kind));
            !AllZero(header) && Decode(header, PathOf(Before(h, metadata))) == Some(AsDecoded(h))
  {
    hide Decode, Block, FullPax, Encodable, CleanPax, Restored;
    BeforeState(h, metadata);
    hide Before;
    NotZero(OwnBlock(h), FlagOf(h.kind));
    BlockRoundTrip(OwnBlock(h), FlagOf(h.kind), PathOf(Before(h, metadata)));
  }

  lemma VisitApplied(i: Item)
    requires Writable(i)
    ensures var h := AsDecoded(i.header);
            && Apply(h, FullPax(i.header)) == Some(Visit(i).header) && !IsPax(h.kind)
            && Visit(i).header.size == |i.body| && (Visit(i).header.kind.File? || Visit(i).header.size == 0)
  {
    hide FullPax;
  }

  /** An entry's own block is one turn that visits it with its body. */
  lemma OwnBlockTurn(i: Item, more: Bytes, metadata: nat, tooLarge: GlobalLimit)
    requires Writable(i)
    ensures var own := Block(OwnBlock(i.header), FlagOf(i.header.kind)) + i.body + Zeros(PaddingSize(|i.body|));
            TakeTurn(own + more, Before(i.header, metadata), tooLarge) ==
              More([Visit(i)], |own|, State(map[], None, metadata))
  {
    hide TakeTurn, Decode, Block, Apply;
    VisitApplied(i);
    DecodeOwnBlock(i.header, metadata);
    BeforeState(i.header, metadata);
    EntryTurnOn(Block(OwnBlock(i.header), FlagOf(i.header.kind)), AsDecoded(i.header), Visit(i).header, i.body, more,
                Before(i.header, metadata), tooLarge);
  }

  // An entry after its PAX part.
  ghost function Own(i: Item): Bytes
    requires Encodable(OwnBlock(i.header))
  {
    Block(OwnBlock(i.header), FlagOf(i.header.kind)) + i.body + Zeros(PaddingSize(|i.body|))
  }

  lemma OwnWalk(i: Item, more: Bytes, metadata: nat, tooLarge: GlobalLimit)
    requires Writable(i)
    ensures Walk(Own(i) + more, Before(i.header, metadata), tooLarge) ==
            var rest := Walk(more, State(map[], None, metadata), tooLarge); Walked([Visit(i)] + rest.entries, rest.ok)
  {
    hide TakeTurn, Block;
    OwnBlockTurn(i, more, metadata, tooLarge);
    hide Writable;
    assert (Own(i) + more)[|Own(i)|..] == more;
    WalkTurn(Own(i) + more, Before(i.header, metadata), tooLarge);
  }

  lemma PaxPartWalk(records: Bytes, pax: Pax, more: Bytes, metadata: nat, tooLarge: GlobalLimit)
    requires records != [] && |records| <= MAX_METADATA_BYTES && metadata < MAX_METADATA
    requires Parse(records, map[]) == Some(pax)
    ensures Walk(PaxPart(records) + more, State(map[], None, metadata), tooLarge) ==
            Walk(more, State(map[], Some(pax), metadata + 1), tooLarge)
  {
    hide TakeTurn, Parse;
    PaxPartTurn(records, pax, more, metadata, tooLarge);
    hide PaxPart;
    assert (PaxPart(records) + more)[|PaxPart(records)|..] == more;
    WalkTurn(PaxPart(records) + more, State(map[], None, metadata), tooLarge);
    assert [] + Walk(more, State(map[], Some(pax), metadata + 1), tooLarge).entries ==
           Walk(more, State(map[], Some(pax), metadata + 1), tooLarge).entries;
  }

  /** Reading one stored entry. */
  lemma StoredEntryWalk(i: Item, more: Bytes, metadata: nat, tooLarge: GlobalLimit)
    requires Writable(i) && metadata < MAX_METADATA
    ensures var m := if FullPax(i.header) == map[] then metadata else metadata + 1;
            Walk(Stored(i) + more, State(map[], None, metadata), tooLarge) ==
            var rest := Walk(more, State(map[], None, m), tooLarge); Walked([Visit(i)] + rest.entries, rest.ok)
  {
    var pax := FullPax(i.header);
    var records := Records(i.keys, pax);
    StoredParts(i, more);
    hide Stored, Own, Walk, Visit;
    if pax == map[] {
      OwnWalk(i, more, metadata, tooLarge);
    } else {
      RecordsRoundTrip(i.keys, pax);
      OwnWalk(i, more, metadata + 1, tooLarge);
      hide Parse, Records, PaxPart;
      PaxPartWalk(records, pax, Own(i) + more, metadata, tooLarge);
    }
  }

  lemma Regroup(a: Bytes, b: Bytes, c: Bytes, d: Bytes, e: Bytes)
    ensures a + b + c + d + e == a + (b + c + d + e)
    ensures [] + b + c + d + e == b + c + d + e
  {
  }

  lemma NoRecords(keys: seq<Bytes>, pax: Pax)
    requires Lists(keys, pax)
    ensures Records(keys, pax) == [] <==> pax == map[]
  {
  }

  lemma StoredParts(i: Item, more: Bytes)
    requires Writable(i)
    ensures var records := Records(i.keys, FullPax(i.header));
            && (records == [] <==> FullPax(i.header) == map[])
            && Stored(i) + more == (if records == [] then Own(i) + more else PaxPart(records) + (Own(i) + more))
  {
    NoRecords(i.keys, FullPax(i.header));
    Regroup(PaxPart(Records(i.keys, FullPax(i.header))), Block(OwnBlock(i.header), FlagOf(i.header.kind)),
            i.body, Zeros(PaddingSize(|i.body|)), more);
    hide Block, FullPax, Records, Clean, Encodable;
  }

  lemma WalkTurn(data: Bytes, st: State, tooLarge: GlobalLimit)
    ensures var turn := TakeTurn(data, st, tooLarge);
            turn.More? ==>
              var more := Walk(data[turn.used..], turn.next, tooLarge);
              Walk(data, st, tooLarge) == Walked(turn.entries + more.entries, more.ok)
  {
  }

  lemma EndWalk(metadata: nat, tooLarge: GlobalLimit)
    ensures Walk(Zeros(2 * BLOCK), State(map[], None, metadata), tooLarge) == Walked([], true)
  {
  }

  // How many entries have a PAX header of their own.
  function PaxCount(items: seq<Item>): (n: nat)
    ensures n <= |items|
  {
    if items == [] then 0 else (if FullPax(items[0].header) == map[] then 0 else 1) + PaxCount(items[1..])
  }

  lemma PaxTurnStops(header: Bytes, h: Header, rest: Bytes, tooLarge: GlobalLimit)
    requires |header| == BLOCK && !AllZero(header) && Decode(header, None) == Some(h) && h.kind.PaxHeader?
    ensures Walk(header + rest, State(map[], None, MAX_METADATA), tooLarge) == Walked([], false)
  {
  }

  // A reader that has seen its last allowed PAX header stops at the next one.
  lemma TooManyHeaders(i: Item, more: Bytes, tooLarge: GlobalLimit)
    requires Writable(i) && FullPax(i.header) != map[]
    ensures !Walk(Stored(i) + more, State(map[], None, MAX_METADATA), tooLarge).ok
  {
    var records := Records(i.keys, FullPax(i.header));
    StoredParts(i, more);
    PaxHeaderStops(records, Own(i) + more, tooLarge);
    hide Stored, Own, FullPax, Records, PaxPart, Walk;
  }

  lemma PaxHeaderStops(records: Bytes, more: Bytes, tooLarge: GlobalLimit)
    requires records != [] && |records| <= MAX_METADATA_BYTES
    ensures !Walk(PaxPart(records) + more, State(map[], None, MAX_METADATA), tooLarge).ok
  {
    hide Decode, Walk, Block;
    NotZero(PaxBlock(|records|), PAX_FLAG);
    BlockRoundTrip(PaxBlock(|records|), PAX_FLAG, None);
    var header := Block(PaxBlock(|records|), PAX_FLAG);
    var rest := records + Zeros(PaddingSize(|records|)) + more;
    assert PaxPart(records) + more == header + rest;
    PaxTurnStops(header, Decode(header, None).value, rest, tooLarge);
  }

  /** Reading an archive: all of it, unless it has too many PAX headers. */
  lemma {:induction false} ArchiveWalk(items: seq<Item>, metadata: nat, tooLarge: GlobalLimit)
    requires forall i :: i in items ==> Writable(i)
    requires metadata <= MAX_METADATA
    ensures var w := Walk(Archive(items), State(map[], None, metadata), tooLarge);
            if PaxCount(items) + metadata <= MAX_METADATA then w == Walked(Visits(items), true) else !w.ok
  {
    hide Writable;
    if items == [] {
      EndWalk(metadata, tooLarge);
    } else {
      hide Walk, Stored, FullPax;
      if FullPax(items[0].header) != map[] && metadata == MAX_METADATA {
        TooManyHeaders(items[0], Archive(items[1..]), tooLarge);
      } else {
        var m := if FullPax(items[0].header) == map[] then metadata else metadata + 1;
        if metadata < MAX_METADATA {
          StoredEntryWalk(items[0], Archive(items[1..]), metadata, tooLarge);
        } else {
          PlainEntryWalk(items[0], Archive(items[1..]), metadata, tooLarge);
        }
        ArchiveWalk(items[1..], m, tooLarge);
      }
    }
  }

  lemma PlainEntryWalk(i: Item, more: Bytes, metadata: nat, tooLarge: GlobalLimit)
    requires Writable(i) && FullPax(i.header) == map[]
    ensures Walk(Stored(i) + more, State(map[], None, metadata), tooLarge) ==
            var rest := Walk(more, State(map[], None, metadata), tooLarge); Walked([Visit(i)] + rest.entries, rest.ok)
  {
    StoredParts(i, more);
    hide Stored, Own, Walk, Visit;
    OwnWalk(i, more, metadata, tooLarge);
  }

  /** Writing entries and reading the archive in any pieces gives back the same
    * headers and bodies, in order, and a valid end, exactly if no more entries
    * need a PAX header than a reader allows. */
  method ReadBack(items: seq<Item>, source: Source, tooLarge: GlobalLimit) returns (result: Walked)
    requires forall i :: i in items ==> Writable(i)
    requires source.Valid() && source.Rest() == Archive(items)
    modifies source
    ensures if PaxCount(items) <= MAX_METADATA then result == Walked(Visits(items), true) else !result.ok
  {
    result := WalkStream(source, tooLarge);
    ArchiveWalk(items, 0, tooLarge);
  }
}
