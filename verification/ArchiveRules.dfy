/** What a backup archive may hold: entry checks, and the check of a whole
  * archive. */
module ArchiveRules {

  import opened Wrappers
  import opened Octets
  import opened TarBytes
  import opened TarHeader
  import opened TarPax
  import opened TarWalk

  const SLASH: Byte := 47
  const BACKSLASH: Byte := 92
  const SNAPSHOT: Bytes := [115, 110, 97, 112, 115, 104, 111, 116]
  const DOT: Bytes := [46]
  const DOTS: Bytes := [46, 46]
  // ".ludock-restore-"
  const RESTORE_PREFIX: Bytes := [46, 108, 117, 100, 111, 99, 107, 45, 114, 101, 115, 116, 111, 114, 101, 45]

  const MAX_OWNER := 4294967294
  const MAX_ENTRIES: nat := 100_000
  const MAX_PARTS := 64
  const MAX_LENGTH := 4096
  const FS_BLOCK: nat := 4096

  function Split(s: Bytes): (parts: seq<Bytes>)
    ensures parts != []
    decreases |s|
  {
    var k := Index(s, SLASH);
    if k == |s| then [s] else [s[..k]] + Split(s[k + 1..])
  }

  lemma SplitFirst(a: Bytes, rest: Bytes)
    requires SLASH !in a
    ensures Split(a) == [a] && Split(a + [SLASH] + rest) == [a] + Split(rest)
  {
    IndexIs(a, SLASH, |a|);
    var s := a + [SLASH] + rest;
    IndexIs(s, SLASH, |a|);
    assert s[..|a|] == a && s[|a| + 1..] == rest;
  }

  lemma {:induction false} LastNotSlash(s: Bytes)
    requires [] !in Split(s)
    ensures s != [] && s[|s| - 1] != SLASH
    decreases |s|
  {
    var k := Index(s, SLASH);
    assert Split(s)[0] != [];
    if k < |s| {
      assert forall p :: p in Split(s[k + 1..]) ==> p in Split(s);
      LastNotSlash(s[k + 1..]);
    }
  }

  // strings.TrimSuffix(name, "/")
  function TrimSlash(name: Bytes): Bytes {
    if name != [] && name[|name| - 1] == SLASH then name[..|name| - 1] else name
  }

  /** The length in UTF-16 code units: two for a rune beyond the basic plane; a
    * byte that starts no rune counts as one. */
  function Length16(s: Bytes): nat
    decreases |s|
  {
    if s == [] then 0
    else if RuneLength(s) == 0 then 1 + Length16(s[1..])
    else (if RuneLength(s) == 4 then 2 else 1) + Length16(s[RuneLength(s)..])
  }

  /** A JSON integer. */
  function JsonInteger(s: Bytes): Option<int> {
    var t := Trim(s);
    var digits := if t != [] && t[0] == 45 then t[1..] else t;
    if IsDigits(digits, 10) && (digits[0] == 48 ==> |digits| == 1)
    then Some(if t[0] == 45 then 0 - Number(digits, 10) as int else Number(digits, 10) as int)
    else None
  }

  lemma JsonRoundTrip(t: int)
    ensures JsonInteger(FormatTime(t)) == Some(t) && Trim(FormatTime(t)) == FormatTime(t)
  {
    var n := if t < 0 then -t else t;
    NumberOfDigits(n, 10);
    if n > 0 {
      DigitsCanonical(n);
    }
    assert Trim(FormatTime(t)) == FormatTime(t);
    if t < 0 {
      assert FormatTime(t)[1..] == Digits(n, 10);
    }
  }

  function Own(pax: Pax, key: Bytes, value: int): Option<int> {
    if key in pax then JsonInteger(pax[key]) else Some(value)
  }

  datatype Metadata = Metadata(uid: int, gid: int, mtime: int)

  /** EntryMetadata. */
  function EntryMetadata(h: Header): Option<Metadata> {
    var uid, gid, mtime := Own(h.pax, UID, h.uid), Own(h.pax, GID, h.gid), Own(h.pax, MTIME, h.mtime);
    if uid.Some? && gid.Some? && mtime.Some? && 0 <= uid.value <= MAX_OWNER && 0 <= gid.value <= MAX_OWNER &&
       0 - MAX_TIME as int <= mtime.value <= MAX_TIME
    then Some(Metadata(uid.value, gid.value, mtime.value))
    else None
  }

  /** MappedHeader: a new name and fresh numeric metadata, nothing else kept. */
  function MappedHeader(h: Header, name: Bytes): Option<Header> {
    match EntryMetadata(h)
    case None => None
    case Some(m) =>
      Some(Header(name, h.kind, h.size, h.mode, m.uid, m.gid, m.mtime, [],
                  map[UID := FormatTime(m.uid), GID := FormatTime(m.gid), MTIME := FormatTime(m.mtime)]))
  }

  predicate SafePart(part: Bytes) {
    part != [] && part != DOT && part != DOTS && !(RESTORE_PREFIX <= part)
  }

  /** ValidateEntry. */
  predicate ValidEntry(h: Header, ids: seq<Bytes>) {
    var name := TrimSlash(h.name);
    var parts := Split(name);
    && EntryMetadata(h).Some?
    && 0 !in h.name && BACKSLASH !in h.name && !([SLASH] <= h.name)
    && (forall p :: p in parts ==> SafePart(p))
    && |parts| <= MAX_PARTS && Length16(name) <= MAX_LENGTH
    && (name == SNAPSHOT || (SNAPSHOT + [SLASH] <= name && |parts| >= 2 && parts[1] in ids))
    && (h.kind.File? || h.kind.Directory?)
    && 0 <= h.size <= MAX_INTEGER
    && (name == SNAPSHOT || |parts| == 2 ==> h.kind.Directory?)
  }

  function BaseName(e: Entry): Bytes {
    TrimSlash(e.header.name)
  }

  function Total(entries: seq<Entry>): int {
    if entries == [] then 0 else Total(entries[..|entries| - 1]) + entries[|entries| - 1].header.size
  }

  // The directory of a root itself.
  predicate IsRoot(e: Entry, id: Bytes) {
    var parts := Split(BaseName(e));
    |parts| == 2 && parts[1] == id
  }

  function StagedSize(size: nat): nat {
    var blocks := (size + FS_BLOCK - 1) / FS_BLOCK * FS_BLOCK;
    if blocks < FS_BLOCK then FS_BLOCK else blocks
  }

  // The bytes a root's restore stages, in whole filesystem blocks.
  function Staged(entries: seq<Entry>, id: Bytes): nat {
    if entries == [] then 0
    else
      var e := entries[|entries| - 1];
      var parts := Split(BaseName(e));
      Staged(entries[..|entries| - 1], id) +
      if |parts| >= 2 && parts[1] == id && e.header.size >= 0 then StagedSize(e.header.size) else 0
  }

  ghost predicate DistinctNames(entries: seq<Entry>) {
    forall i, j :: 0 <= i < j < |entries| ==> BaseName(entries[i]) != BaseName(entries[j])
  }

  /** What ValidateStream accepts: a complete archive within the limit whose
    * entries are valid, distinct and at most 100000, with every root. */
  ghost predicate Accepted(w: Walked, size: nat, ids: seq<Bytes>, maxBytes: int) {
    && w.ok && size <= maxBytes && |w.entries| <= MAX_ENTRIES
    && (forall e :: e in w.entries ==> ValidEntry(e.header, ids))
    && DistinctNames(w.entries)
    && Total(w.entries) <= maxBytes
    && (forall id :: id in ids ==> exists e :: e in w.entries && IsRoot(e, id))
  }

  lemma {:induction false} TotalPrefix(entries: seq<Entry>, k: nat)
    requires k <= |entries| && forall e :: e in entries ==> e.header.size >= 0
    ensures Total(entries[..k]) <= Total(entries)
    decreases |entries| - k
  {
    if k < |entries| {
      assert entries[..k + 1][..k] == entries[..k];
      TotalPrefix(entries, k + 1);
    } else {
      assert entries[..k] == entries;
    }
  }

  function NamesOf(entries: seq<Entry>): set<Bytes> {
    if entries == [] then {} else NamesOf(entries[..|entries| - 1]) + {BaseName(entries[|entries| - 1])}
  }

  // The roots whose directories were seen.
  function FoundIn(entries: seq<Entry>): set<Bytes> {
    if entries == [] then {}
    else
      var parts := Split(BaseName(entries[|entries| - 1]));
      FoundIn(entries[..|entries| - 1]) + if |parts| == 2 then {parts[1]} else {}
  }

  lemma {:induction false} NamesOfMember(entries: seq<Entry>, n: Bytes)
    ensures n in NamesOf(entries) <==> exists k :: 0 <= k < |entries| && BaseName(entries[k]) == n
  {
    hide BaseName;
    if entries != [] {
      NamesOfMember(entries[..|entries| - 1], n);
    }
  }

  lemma {:induction false} FoundInMember(entries: seq<Entry>, id: Bytes)
    ensures id in FoundIn(entries) <==> exists e :: e in entries && IsRoot(e, id)
  {
    hide Split, BaseName;
    if entries != [] {
      var init, last := entries[..|entries| - 1], entries[|entries| - 1];
      FoundInMember(init, id);
      assert forall e :: e in entries <==> e in init || e == last;
      var parts := Split(BaseName(last));
      assert IsRoot(last, id) <==> |parts| == 2 && parts[1] == id;
    }
  }

  ghost predicate Tallies(staged: map<Bytes, nat>, entries: seq<Entry>) {
    forall id: Bytes :: (if id in staged then staged[id] else 0) == Staged(entries, id)
  }

  /** The state ValidateStream keeps while it walks. */
  class Validator {
    const ids: seq<Bytes>
    const maxBytes: int
    var names: set<Bytes>
    var found: set<Bytes>
    var staged: map<Bytes, nat>
    var total: int
    ghost var seen: seq<Entry>

    constructor (ids: seq<Bytes>, maxBytes: int)
      ensures Valid() && seen == [] && this.ids == ids && this.maxBytes == maxBytes
    {
      this.ids, this.maxBytes := ids, maxBytes;
      names, found, staged, total, seen := {}, {}, map[], 0, [];
    }

    ghost predicate Valid()
      reads this
    {
      && names == NamesOf(seen) && |names| == |seen| <= MAX_ENTRIES
      && (forall e :: e in seen ==> ValidEntry(e.header, ids))
      && total == Total(seen) && (seen != [] ==> total <= maxBytes)
      && found == FoundIn(seen) <= staged.Keys && Tallies(staged, seen)
    }

    /** The visitor: accept one more entry, or stop the walk. */
    method Visit(e: Entry) returns (ok: bool)
      requires Valid() && e.header.size >= 0
      modifies this
      ensures ok <==> old(|seen|) < MAX_ENTRIES && ValidEntry(e.header, ids) && Total(old(seen) + [e]) <= maxBytes &&
                      BaseName(e) !in NamesOf(old(seen))
      ensures ok ==> Valid() && seen == old(seen) + [e]
    {
      hide ValidEntry, Split, BaseName, StagedSize, Tallies, NamesOf, FoundIn, Total;
      Snoc(seen, e);
      if !ValidEntry(e.header, ids) {
        return false;
      }
      var name := BaseName(e);
      if name in names || |names| >= MAX_ENTRIES {
        return false;
      }
      names := names + {name};
      total := total + e.header.size;
      if total > maxBytes {
        return false;
      }
      Count(e);
      seen := seen + [e];
      ok := true;
    }

    // The root an entry belongs to, and the bytes it stages there.
    method Count(e: Entry)
      requires e.header.size >= 0 && found == FoundIn(seen) <= staged.Keys && Tallies(staged, seen)
      modifies this`found, this`staged
      ensures found == FoundIn(seen + [e]) <= staged.Keys && Tallies(staged, seen + [e])
    {
      hide Split, BaseName, StagedSize, Tallies, FoundIn;
      Snoc(seen, e);
      TalliesMore(staged, seen, e);
      var parts := Split(BaseName(e));
      if |parts| == 2 {
        found := found + {parts[1]};
      }
      if |parts| >= 2 {
        var before := if parts[1] in staged then staged[parts[1]] else 0;
        staged := staged[parts[1] := before + StagedSize(e.header.size)];
      }
    }
  }

  lemma Snoc(entries: seq<Entry>, e: Entry)
    ensures NamesOf(entries + [e]) == NamesOf(entries) + {BaseName(e)}
    ensures Total(entries + [e]) == Total(entries) + e.header.size
    ensures var parts := Split(BaseName(e));
            FoundIn(entries + [e]) == FoundIn(entries) + if |parts| == 2 then {parts[1]} else {}
  {
  }

  lemma TalliesMore(staged: map<Bytes, nat>, entries: seq<Entry>, e: Entry)
    requires Tallies(staged, entries) && e.header.size >= 0
    ensures var parts := Split(BaseName(e));
            if |parts| < 2 then Tallies(staged, entries + [e])
            else
              var before := if parts[1] in staged then staged[parts[1]] else 0;
              Tallies(staged[parts[1] := before + StagedSize(e.header.size)], entries + [e])
  {
  }

  lemma {:induction false} PrefixNames(entries: seq<Entry>, k: nat)
    requires k <= |entries| && DistinctNames(entries)
    ensures |NamesOf(entries[..k])| == k
  {
    hide BaseName;
    if k > 0 {
      assert entries[..k][..k - 1] == entries[..k - 1];
      PrefixNames(entries, k - 1);
      NamesOfMember(entries[..k - 1], BaseName(entries[k - 1]));
    }
  }

  lemma {:induction false} DistinctFromCount(entries: seq<Entry>)
    ensures |NamesOf(entries)| <= |entries|
    ensures |NamesOf(entries)| == |entries| ==> DistinctNames(entries)
  {
    hide BaseName;
    if entries != [] {
      var init, last := entries[..|entries| - 1], entries[|entries| - 1];
      DistinctFromCount(init);
      NamesOfMember(init, BaseName(last));
    }
  }

  lemma Dropped(w: Walked, size: nat, ids: seq<Bytes>, maxBytes: int, i: nat)
    requires i < |w.entries| && forall e :: e in w.entries ==> e.header.size >= 0
    requires i >= MAX_ENTRIES || !ValidEntry(w.entries[i].header, ids) || Total(w.entries[..i + 1]) > maxBytes ||
             BaseName(w.entries[i]) in NamesOf(w.entries[..i])
    ensures !Accepted(w, size, ids, maxBytes)
  {
    hide ValidEntry, BaseName, IsRoot;
    TotalPrefix(w.entries, i + 1);
    NamesOfMember(w.entries[..i], BaseName(w.entries[i]));
  }

  lemma SeenAll(w: Walked, size: nat, ids: seq<Bytes>, maxBytes: int)
    requires |NamesOf(w.entries)| == |w.entries| <= MAX_ENTRIES 
    requires forall e :: e in w.entries ==> ValidEntry(e.header, ids)
    requires w.entries != [] ==> Total(w.entries) <= maxBytes
    ensures Accepted(w, size, ids, maxBytes) <==>
            w.ok && size <= maxBytes && forall id :: id in ids ==> id in FoundIn(w.entries)
  {
    hide ValidEntry, BaseName, IsRoot;
    DistinctFromCount(w.entries);
    forall id
      ensures id in FoundIn(w.entries) <==> exists e :: e in w.entries && IsRoot(e, id)
    {
      FoundInMember(w.entries, id);
    }
    hide FoundIn, NamesOf;
  }

  /** ValidateStream, over what the walk delivers of a stream of size bytes. */
  method ValidateStream(w: Walked, size: nat, ids: seq<Bytes>, maxBytes: int) returns (staged: Option<map<Bytes, nat>>)
    requires forall e :: e in w.entries ==> e.header.size >= 0
    ensures staged.Some? <==> Accepted(w, size, ids, maxBytes)
    ensures staged.Some? ==> forall id :: id in ids ==> id in staged.value && staged.value[id] == Staged(w.entries, id)
  {
    hide ValidEntry, IsRoot, BaseName, Staged, FoundIn, NamesOf, Total, Accepted, DistinctNames;
    var v := new Validator(ids, maxBytes);
    for i := 0 to |w.entries|
      invariant v.Valid() && v.seen == w.entries[..i] && v.ids == ids && v.maxBytes == maxBytes
    {
      assert w.entries[..i + 1] == v.seen + [w.entries[i]];
      var ok := v.Visit(w.entries[i]);
      if !ok {
        Dropped(w, size, ids, maxBytes, i);
        return None;
      }
    }
    assert w.entries[..|w.entries|] == w.entries;
    SeenAll(w, size, ids, maxBytes);
    if !w.ok || size > maxBytes || exists id :: id in ids && id !in v.found {
      return None;
    }
    staged := Some(v.staged);
  }
}
