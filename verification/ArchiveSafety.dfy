/** What the paths of an accepted archive are safe from. */
module ArchiveSafety {

  import opened Wrappers
  import opened Octets
  import opened TarBytes
  import opened TarHeader
  import opened TarPax
  import opened PaxGrammar
  import opened TarWalk
  import opened ArchiveRules

  const HERE := Ascii(".")
  const UP := Ascii("..")
  const TREE := Ascii("snapshot")
  const OWN := Ascii(".ludock-restore-")

  // Where one component leads, as an operating system follows it.
  function Step(at: seq<Bytes>, part: Bytes): seq<Bytes> {
    if part == [] || part == HERE then at
    else if part == UP then (if at == [] then [] else at[..|at| - 1])
    else at + [part]
  }

  /** The directory that the components lead to from the empty path. */
  function Resolved(parts: seq<Bytes>): seq<Bytes> {
    if parts == [] then [] else Step(Resolved(parts[..|parts| - 1]), parts[|parts| - 1])
  }

  predicate Plain(part: Bytes) {
    part != [] && part != HERE && part != UP
  }

  lemma {:induction false} ResolvedShorter(parts: seq<Bytes>)
    ensures |Resolved(parts)| <= |parts|
  {
    if parts != [] {
      ResolvedShorter(parts[..|parts| - 1]);
    }
  }

  /** Components lead where they say exactly if each of them is plain. */
  lemma {:induction false} PlainResolves(parts: seq<Bytes>)
    ensures Resolved(parts) == parts <==> forall p :: p in parts ==> Plain(p)
  {
    hide Ascii;
    if parts != [] {
      var front, last := parts[..|parts| - 1], parts[|parts| - 1];
      PlainResolves(front);
      ResolvedShorter(front);
      assert parts == front + [last];
      assert (forall p :: p in parts ==> Plain(p)) <==> (forall p :: p in front ==> Plain(p)) && Plain(last);
      if Resolved(parts) == parts {
        assert |Resolved(front)| >= |parts| - 1;
        assert Plain(last);
        assert Resolved(front) == (front + [last])[..|front|] == front;
      }
    }
  }

  /** A path that never leaves the directory of one of the roots, wherever one
    * stops on the way, or the snapshot directory itself. */
  predicate Confined(parts: seq<Bytes>, ids: seq<Bytes>) {
    parts == [TREE] ||
    (|parts| >= 2 && parts[1] in ids &&
     forall k :: 2 <= k <= |parts| ==> [TREE, parts[1]] <= Resolved(parts[..k]))
  }

  // A name as the operating system splits it, without one final slash.
  function Parts(name: Bytes): seq<Bytes> {
    Split(if name != [] && name[|name| - 1] == 47 then name[..|name| - 1] else name)
  }

  /** What an entry may be, said without the checks: its path leads where it says,
    * stays inside its root, holds no NUL or backslash and is not absolute, and no
    * part of it is one of the restore's own directories. */
  ghost predicate Harmless(h: Header, ids: seq<Bytes>) {
    && Confined(Parts(h.name), ids) && Resolved(Parts(h.name)) == Parts(h.name)
    && (forall b :: b in h.name ==> b != 0 && b != 92) && (h.name != [] ==> h.name[0] != 47)
    && (forall p :: p in Parts(h.name) ==> !(OWN <= p))
    && (h.kind == Directory || (h.kind == File && |Parts(h.name)| >= 3))
  }

  // What else is limited.
  predicate Sized(h: Header) {
    && EntryMetadata(h).Some? && 0 <= h.size < 0x20_0000_0000_0000
    && |Parts(h.name)| <= 64 && Length16(TrimSlash(h.name)) <= 4096
  }

  lemma Literals()
    ensures HERE == DOT && UP == DOTS && TREE == SNAPSHOT
    ensures OWN == RESTORE_PREFIX
  {
  }

  lemma SplitAll(name: Bytes)
    ensures Parts(name) == Split(TrimSlash(name))
  {
  }

  lemma FirstPart(name: Bytes)
    ensures var k := Index(name, SLASH);
      && Split(name)[0] == name[..k] && (|Split(name)| >= 2 <==> k < |name|)
      && (k < |name| ==> name == name[..k] + [SLASH] + name[k + 1..]) && (k == |name| ==> Split(name) == [name])
  {
  }

  // A name under snapshot/ starts with that component.
  lemma FirstComponent(name: Bytes)
    ensures name == SNAPSHOT <==> Split(name) == [SNAPSHOT]
    ensures SNAPSHOT + [SLASH] <= name <==> |Split(name)| >= 2 && Split(name)[0] == SNAPSHOT
  {
    hide Split, Index;
    SnapshotHasNoSlash();
    SplitFirst(SNAPSHOT, []);
    FirstPart(name);
    if SNAPSHOT + [SLASH] <= name {
      var rest := name[9..];
      assert name == SNAPSHOT + [SLASH] + rest;
      SplitFirst(SNAPSHOT, rest);
    }
  }

  lemma SnapshotHasNoSlash()
    ensures SLASH !in SNAPSHOT && |SNAPSHOT| == 8
  {
  }

  lemma PlainPrefixes(parts: seq<Bytes>, k: nat)
    requires k <= |parts| && forall p :: p in parts ==> Plain(p)
    ensures Resolved(parts[..k]) == parts[..k]
  {
    hide Ascii, Resolved;
    PlainResolves(parts[..k]);
    assert forall p :: p in parts[..k] ==> p in parts;
  }

  lemma PlainConfined(parts: seq<Bytes>, ids: seq<Bytes>)
    requires forall p :: p in parts ==> Plain(p)
    ensures Confined(parts, ids) <==>
            parts == [TREE] || (|parts| >= 2 && parts[0] == TREE && parts[1] in ids)
  {
    hide Ascii, Resolved, Plain;
    if |parts| >= 2 {
      forall k | 2 <= k <= |parts|
        ensures Resolved(parts[..k]) == parts[..k]
      {
        PlainPrefixes(parts, k);
      }
      assert parts[..2] == [parts[0], parts[1]];
      assert forall k :: 2 <= k <= |parts| ==> parts[..2] <= parts[..k];
      assert Resolved(parts[..2]) == parts[..2];
    }
  }

  /** The checks of an entry accept exactly the harmless ones within the limits. */
  lemma EntryIsHarmless(h: Header, ids: seq<Bytes>)
    ensures ValidEntry(h, ids) <==> Harmless(h, ids) && Sized(h)
  {
    hide Ascii, Split, Resolved, EntryMetadata, Length16, TrimSlash, Confined;
    Literals();
    SplitAll(h.name);
    FirstComponent(TrimSlash(h.name));
    PlainResolves(Parts(h.name));
    if forall p :: p in Parts(h.name) ==> Plain(p) {
      PlainConfined(Parts(h.name), ids);
    }
  }

  /** Extracting an accepted archive writes nothing outside its roots, nothing
    * twice and no more than the limit: every entry leads to a place in the snapshot
    * directory of a root, and nowhere else on the way, and every root has its own
    * directory. */
  lemma AcceptedStaysInside(w: Walked, size: nat, ids: seq<Bytes>, maxBytes: int)
    requires Accepted(w, size, ids, maxBytes)
    ensures w.ok && size <= maxBytes && |w.entries| <= 100_000
    ensures forall e :: e in w.entries ==> Harmless(e.header, ids) && 0 <= e.header.size <= maxBytes
    ensures forall i, j :: 0 <= i < j < |w.entries| ==>
      Parts(w.entries[i].header.name) != Parts(w.entries[j].header.name)
    ensures forall id :: id in ids ==> exists e :: e in w.entries && HoldsRoot(e.header, id)
  {
    hide Harmless, Sized, ValidEntry, Split, TrimSlash, HoldsRoot;
    ValidSizes(w.entries, ids);
    forall e | e in w.entries
      ensures Harmless(e.header, ids) && 0 <= e.header.size <= maxBytes
    {
      EntryIsHarmless(e.header, ids);
      SizeOf(w.entries, e);
    }
    forall i, j | 0 <= i < j < |w.entries|
      ensures Parts(w.entries[i].header.name) != Parts(w.entries[j].header.name)
    {
      var a, b := w.entries[i].header.name, w.entries[j].header.name;
      assert BaseName(w.entries[i]) != BaseName(w.entries[j]);
      SplitAll(a);
      SplitAll(b);
      JoinSplit(TrimSlash(a));
      JoinSplit(TrimSlash(b));
    }
    forall id | id in ids
      ensures exists e :: e in w.entries && HoldsRoot(e.header, id)
    {
      var e: Entry :| e in w.entries && IsRoot(e, id);
      EntryIsHarmless(e.header, ids);
      SplitAll(e.header.name);
      RootIs(e.header, ids, id);
    }
  }

  // The directory of a root itself.
  predicate HoldsRoot(h: Header, id: Bytes) {
    h.kind == Directory && Parts(h.name) == [TREE, id]
  }

  lemma RootIs(h: Header, ids: seq<Bytes>, id: Bytes)
    requires Harmless(h, ids) && |Parts(h.name)| == 2 && Parts(h.name)[1] == id
    ensures HoldsRoot(h, id)
  {
    hide Ascii, Split, Resolved;
    var parts := Parts(h.name);
    assert parts[..2] == parts;
    assert parts == [TREE, parts[1]];
  }

  lemma ValidSizes(entries: seq<Entry>, ids: seq<Bytes>)
    requires forall e :: e in entries ==> ValidEntry(e.header, ids)
    ensures forall e :: e in entries ==> e.header.size >= 0
  {
    hide EntryMetadata, Split, TrimSlash, Length16, SafePart;
  }

  // The size of one entry is part of the total.
  lemma SizeOf(entries: seq<Entry>, e: Entry)
    requires e in entries && forall other :: other in entries ==> other.header.size >= 0
    ensures 0 <= e.header.size <= Total(entries)
  {
    var k :| 0 <= k < |entries| && entries[k] == e;
    var front := entries[..k];
    TotalPrefix(entries, k + 1);
    TotalNotNegative(front);
    assert entries[..k + 1] == front + [e];
    Snoc(front, e);
  }

  lemma {:induction false} TotalNotNegative(entries: seq<Entry>)
    requires forall e :: e in entries ==> e.header.size >= 0
    ensures Total(entries) >= 0
  {
    if entries != [] {
      TotalNotNegative(entries[..|entries| - 1]);
    }
  }

  function Join(parts: seq<Bytes>): Bytes
    requires parts != []
  {
    if |parts| == 1 then parts[0] else parts[0] + [47] + Join(parts[1..])
  }

  /** The parts of a name, joined by slashes, are the name, and hold none. */
  lemma {:induction false} JoinSplit(name: Bytes)
    ensures Join(Split(name)) == name && forall p :: p in Split(name) ==> 47 !in p
    decreases |name|
  {
    var k := Index(name, SLASH);
    if k < |name| {
      JoinSplit(name[k + 1..]);
      var rest := Split(name[k + 1..]);
      assert Split(name) == [name[..k]] + rest;
      assert ([name[..k]] + rest)[1..] == rest;
      assert name == name[..k] + [47] + name[k + 1..];
    }
  }

  // The other limits, said without the checks

  /** What a file stages: whole blocks of 4096 bytes, at least one, and no more
    * than it needs. */
  lemma StagedIs(size: nat)
    ensures var staged := StagedSize(size);
      && staged % 4096 == 0 && staged >= 4096 && staged >= size && (staged > 4096 ==> staged - 4096 < size)
  {
  }

  /** A JSON integer is exactly what the writer makes of it, or "-0". */
  lemma JsonIs(s: Bytes, v: int)
    ensures JsonInteger(s) == Some(v) <==> Trim(s) == FormatTime(v) || (v == 0 && Trim(s) == Ascii("-0"))
  {
    hide JsonInteger, FormatTime, Trim, Ascii;
    if JsonInteger(s).Some? {
      JsonRead(s);
    }
    if Trim(s) == FormatTime(v) {
      JsonRoundTrip(v);
      JsonOfTrimmed(s, FormatTime(v));
    }
    if Trim(s) == Ascii("-0") {
      MinusZero(s);
    }
    JsonDistinct();
  }

  lemma MinusZero(s: Bytes)
    requires Trim(s) == Ascii("-0")
    ensures JsonInteger(s) == Some(0)
  {
    hide Trim;
    assert Trim(s)[1..] == [48] && Number([48], 10) == Number([], 10) * 10 + 0;
  }

  lemma JsonDistinct()
    ensures Ascii("-0") != FormatTime(0)
  {
  }

  // The text of a number is trimmed already.
  lemma JsonOfTrimmed(s: Bytes, t: Bytes)
    requires Trim(s) == t && JsonInteger(t).Some? && Trim(t) == t
    ensures JsonInteger(s) == JsonInteger(t)
  {
    hide Trim;
  }

  lemma JsonRead(s: Bytes)
    requires JsonInteger(s).Some?
    ensures var v := JsonInteger(s).value;
            Trim(s) == FormatTime(v) || (v == 0 && Trim(s) == Ascii("-0"))
  {
    hide Trim;
    var t := Trim(s);
    var digits := if t != [] && t[0] == 45 then t[1..] else t;
    if digits[0] != 48 {
      DigitsOf(digits);
    } else {
      assert digits == [48] && Number(digits, 10) == Number([], 10) * 10 + 0;
    }
    assert t[0] == 45 ==> t == [45] + digits;
  }

  // What a header says of a number: the PAX record wins.
  predicate Says(h: Header, key: Bytes, own: int, value: int) {
    if key in h.pax then JsonInteger(h.pax[key]) == Some(value) else own == value
  }

  /** The metadata of an entry: what its header says, within the limits. */
  lemma MetadataIs(h: Header, m: Metadata)
    ensures EntryMetadata(h) == Some(m) <==>
            && Says(h, UID, h.uid, m.uid) && Says(h, GID, h.gid, m.gid) && Says(h, MTIME, h.mtime, m.mtime)
            && 0 <= m.uid <= 4_294_967_294 && 0 <= m.gid <= 4_294_967_294
            && -8_640_000_000_000 <= m.mtime <= 8_640_000_000_000
  {
    hide JsonInteger;
  }

  /** The length of a name: one for a character, two for one of four bytes. */
  lemma {:induction false} LengthAdds(a: Bytes, b: Bytes)
    requires ValidUtf8(a)
    ensures Length16(a + b) == Length16(a) + Length16(b)
    decreases |a|
  {
    if a == [] {
      assert a + b == b;
    } else {
      var n := RuneLength(a);
      RuneStays(a, b);
      assert (a + b)[n..] == a[n..] + b;
      LengthAdds(a[n..], b);
    }
  }

  lemma RuneStays(a: Bytes, b: Bytes)
    requires RuneLength(a) > 0
    ensures RuneLength(a + b) == RuneLength(a)
  {
  }

  lemma LengthOfRune(rune: Bytes)
    requires RuneLength(rune) == |rune| > 0
    ensures Length16(rune) == if |rune| == 4 then 2 else 1
  {
    assert rune[|rune|..] == [];
  }

  /** The room that a root's restore needs counts exactly the entries whose path
    * leads into that root. */
  lemma StagedCounts(entries: seq<Entry>, e: Entry, ids: seq<Bytes>, id: Bytes)
    requires ValidEntry(e.header, ids)
    ensures Staged(entries + [e], id) ==
            Staged(entries, id) +
            (if [TREE, id] <= Parts(e.header.name) then StagedSize(e.header.size) else 0)
  {
    hide Ascii, Split, EntryMetadata, Length16, StagedSize;
    Literals();
    SplitAll(e.header.name);
    FirstComponent(TrimSlash(e.header.name));
    assert (entries + [e])[..|entries|] == entries;
    var parts := Parts(e.header.name);
    assert |parts| >= 2 ==> parts[..2] == [parts[0], parts[1]];
  }
}
