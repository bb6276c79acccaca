/** PAX extended headers: self-counting records, parsed into a map. */
module TarPax {

  import opened Wrappers
  import opened Octets
  import opened TarBytes
  import opened TarHeader

  const SPACE: Byte := 32
  const EQUALS: Byte := 61
  const NEWLINE: Byte := 10

  const PATH: Bytes := [112, 97, 116, 104]
  const LINKPATH: Bytes := [108, 105, 110, 107, 112, 97, 116, 104]
  const SIZE: Bytes := [115, 105, 122, 101]
  const UID: Bytes := [117, 105, 100]
  const GID: Bytes := [103, 105, 100]
  const MTIME: Bytes := [109, 116, 105, 109, 101]
  const GNU_SPARSE: Bytes := [71, 78, 85, 46, 115, 112, 97, 114, 115, 101]
  const FILETYPE: Bytes := [83, 67, 72, 73, 76, 89, 46, 102, 105, 108, 101, 116, 121, 112, 101]

  // The keys with a meaning differ in their first byte.
  lemma DistinctKeys()
    ensures UID != GID && UID != MTIME && GID != MTIME
    ensures PATH != UID && PATH != GID && PATH != MTIME
    ensures SIZE != UID && SIZE != GID && SIZE != MTIME && SIZE != PATH
    ensures LINKPATH != UID && LINKPATH != GID && LINKPATH != MTIME && LINKPATH != PATH
  {
  }

  datatype Record = Record(key: Bytes, value: Bytes, end: nat)

  predicate AllowedKey(key: Bytes) {
    !(GNU_SPARSE <= key) && key != FILETYPE
  }

  // A record's length: decimal, without leading zeros.
  function ParseLength(encoded: Bytes): Option<nat> {
    if IsDigits(encoded, 10) && encoded[0] != 48 then Some(Number(encoded, 10)) else None
  }

  // key=value: the key is not empty and neither holds a NUL.
  function ParsePair(record: Bytes): Option<(Bytes, Bytes)> {
    var equals := Index(record, EQUALS);
    if !ValidUtf8(record) || equals < 1 || equals == |record| || 0 in record then None
    else Some((record[..equals], record[equals + 1..]))
  }

  /** One record at the start of data: its decimal length, which counts the
    * whole record, then key=value and a newline. */
  function ParseRecord(data: Bytes): (r: Option<Record>)
    ensures r.Some? ==> 0 < r.value.end <= |data|
  {
    var space := Index(data, SPACE);
    if space == |data| || space > 8 then None
    else
      match ParseLength(data[..space])
      case None => None
      case Some(end) =>
        if end > |data| || end <= space + 3 || data[end - 1] != NEWLINE then None
        else
          match ParsePair(data[space + 1..end - 1])
          case None => None
          case Some(pair) => Some(Record(pair.0, pair.1, end))
  }

  /** parsePAX. */
  function Parse(data: Bytes, seen: Pax): Option<Pax>
    decreases |data|
  {
    if data == [] then Some(seen)
    else
      match ParseRecord(data)
      case None => None
      case Some(r) =>
        if r.key in seen || !AllowedKey(r.key) then None
        else Parse(data[r.end..], seen[r.key := r.value])
  }

  method ParsePax(data: Bytes) returns (result: Option<Pax>)
    ensures result == Parse(data, map[])
  {
    hide ParseRecord;
    var seen: Pax := map[];
    var offset := 0;
    assert data[0..] == data;
    while offset < |data|
      invariant offset <= |data|
      invariant Parse(data, map[]) == Parse(data[offset..], seen)
    {
      var r := ParseRecord(data[offset..]);
      ParseNext(data, offset, seen);
      if r.None? || r.value.key in seen || !AllowedKey(r.value.key) {
        return None;
      }
      seen := seen[r.value.key := r.value.value];
      offset := offset + r.value.end;
    }
    result := Some(seen);
  }

  lemma ParseNext(data: Bytes, offset: nat, seen: Pax)
    requires offset < |data|
    ensures var r := ParseRecord(data[offset..]);
            Parse(data[offset..], seen) ==
            if r.None? || r.value.key in seen || !AllowedKey(r.value.key) then None
            else Parse(data[offset + r.value.end..], seen[r.value.key := r.value.value])
  {
    var r := ParseRecord(data[offset..]);
    if r.Some? {
      assert data[offset..][r.value.end..] == data[offset + r.value.end..];
    }
  }

  // Writing

  // What follows a record's length.
  function Tail(key: Bytes, value: Bytes): Bytes {
    [SPACE] + key + [EQUALS] + value + [NEWLINE]
  }

  /** The self-counting length: from one more than the rest, add the digits of
    * the guess until it counts itself. The guess only grows, and never past
    * twice the rest. */
  function Settle(rest: nat, guess: nat): (size: nat)
    requires rest < guess <= 2 * rest + 2 && guess <= rest + |Digits(guess, 10)|
    ensures size == |Digits(size, 10)| + rest && guess <= size <= 2 * rest + 2
    decreases 2 * rest + 2 - guess
  {
    var next := |Digits(guess, 10)| + rest;
    DigitsSmall(guess);
    if next == guess then guess
    else
      DigitsMonotone(guess, next);
      Settle(rest, next)
  }

  function RecordOf(key: Bytes, value: Bytes): (r: Bytes)
    ensures r != []
  {
    var rest := |Tail(key, value)|;
    Digits(Settle(rest, rest + 1), 10) + Tail(key, value)
  }

  /** paxRecord. */
  method PaxRecord(key: Bytes, value: Bytes) returns (r: Bytes)
    ensures r == RecordOf(key, value)
  {
    var tail := Tail(key, value);
    var size := |tail| + 1;
    while |Digits(size, 10)| + |tail| != size
      invariant |tail| < size <= 2 * |tail| + 2 && size <= |tail| + |Digits(size, 10)|
      invariant Settle(|tail|, size) == Settle(|tail|, |tail| + 1)
      decreases 2 * |tail| + 2 - size
    {
      var next := |Digits(size, 10)| + |tail|;
      DigitsSmall(size);
      DigitsMonotone(size, next);
      size := next;
    }
    r := Digits(size, 10) + tail;
  }

  /** Keys and values that survive a record. */
  predicate CleanPair(key: Bytes, value: Bytes) {
    && key != [] && EQUALS !in key && 0 !in key && 0 !in value
    && ValidUtf8(key) && ValidUtf8(value) && AllowedKey(key)
  }

  /** A record counts itself exactly, so it is read back whole whatever follows. */
  lemma RecordRoundTrip(key: Bytes, value: Bytes, more: Bytes)
    requires CleanPair(key, value) && |RecordOf(key, value)| < 1_0000_0000
    ensures ParseRecord(RecordOf(key, value) + more) == Some(Record(key, value, |RecordOf(key, value)|))
  {
    var tail := Tail(key, value);
    var size := Settle(|tail|, |tail| + 1);
    LengthReadable(size);
    PairReadable(key, value);
    ReadRecord(Digits(size, 10), key, value, more);
    assert RecordOf(key, value) + more == Digits(size, 10) + tail + more;
  }

  lemma LengthReadable(size: nat)
    requires 0 < size < 1_0000_0000
    ensures var length := Digits(size, 10);
            |length| <= 8 && ParseLength(length) == Some(size) && SPACE !in length
  {
    NumberOfDigits(size, 10);
    DigitsCanonical(size);
    assert Pow(10, 8) == 1_0000_0000 by {
      assert Pow(10, 4) == 10000;
      assert Pow(10, 8) == 10 * (10 * (10 * (10 * Pow(10, 4))));
    }
    DigitsLength(size, 10, 8);
  }

  lemma PairReadable(key: Bytes, value: Bytes)
    requires CleanPair(key, value)
    ensures ParsePair(key + [EQUALS] + value) == Some((key, value))
  {
    var record := key + [EQUALS] + value;
    IndexIs(record, EQUALS, |key|);
    ValidAscii([EQUALS]);
    ValidConcat(key, [EQUALS]);
    ValidConcat(key + [EQUALS], value);
    assert record[..|key|] == key && record[|key| + 1..] == value;
  }

  lemma ReadRecord(length: Bytes, key: Bytes, value: Bytes, more: Bytes)
    requires |length| <= 8 && SPACE !in length && key != []
    requires ParseLength(length) == Some(|length| + |Tail(key, value)|)
    requires ParsePair(key + [EQUALS] + value) == Some((key, value))
    ensures ParseRecord(length + Tail(key, value) + more) == Some(Record(key, value, |length| + |Tail(key, value)|))
  {
    var data := length + Tail(key, value) + more;
    var end := |length| + |Tail(key, value)|;
    IndexIs(data, SPACE, |length|);
    assert data[..|length|] == length;
    assert data[|length| + 1..end - 1] == key + [EQUALS] + value;
    assert data[end - 1] == NEWLINE;
  }

  function Records(keys: seq<Bytes>, pax: Pax): Bytes
    requires forall k :: k in keys ==> k in pax
  {
    if keys == [] then [] else RecordOf(keys[0], pax[keys[0]]) + Records(keys[1..], pax)
  }

  ghost predicate Lists(keys: seq<Bytes>, pax: Pax) {
    && (forall i, j :: 0 <= i < j < |keys| ==> keys[i] != keys[j])
    && (forall k :: k in keys <==> k in pax)
  }

  ghost predicate CleanPax(pax: Pax) {
    forall k :: k in pax ==> CleanPair(k, pax[k])
  }

  // seen extended with the listed records.
  function Extend(keys: seq<Bytes>, pax: Pax, seen: Pax): Pax
    requires forall k :: k in keys ==> k in pax
  {
    if keys == [] then seen else Extend(keys[1..], pax, seen[keys[0] := pax[keys[0]]])
  }

  lemma {:induction false} ExtendLookup(keys: seq<Bytes>, pax: Pax, seen: Pax, k: Bytes)
    requires forall k :: k in keys ==> k in pax
    ensures k in Extend(keys, pax, seen) <==> k in keys || k in seen
    ensures k in keys ==> Extend(keys, pax, seen)[k] == pax[k]
    ensures k in seen && k !in keys ==> Extend(keys, pax, seen)[k] == seen[k]
  {
    if keys != [] {
      ExtendLookup(keys[1..], pax, seen[keys[0] := pax[keys[0]]], k);
    }
  }

  lemma {:induction false} RecordsParse(keys: seq<Bytes>, pax: Pax, seen: Pax)
    requires forall k :: k in keys ==> k in pax && CleanPair(k, pax[k]) && k !in seen
    requires forall i, j :: 0 <= i < j < |keys| ==> keys[i] != keys[j]
    requires |Records(keys, pax)| < 1_0000_0000
    ensures Parse(Records(keys, pax), seen) == Some(Extend(keys, pax, seen))
  {
    if keys != [] {
      var key, value := keys[0], pax[keys[0]];
      var more := Records(keys[1..], pax);
      RecordRoundTrip(key, value, more);
      assert AllowedKey(key);
      hide CleanPair, RecordOf, ParseRecord;
      ParseNext(Records(keys, pax), 0, seen);
      assert Records(keys, pax)[0..] == Records(keys, pax) == RecordOf(key, value) + more;
      assert Records(keys, pax)[|RecordOf(key, value)|..] == more;
      RecordsParse(keys[1..], pax, seen[key := value]);
    }
  }

  /** Records in any order parse back to the map they were written from. */
  lemma RecordsRoundTrip(keys: seq<Bytes>, pax: Pax)
    requires Lists(keys, pax) && CleanPax(pax) && |Records(keys, pax)| < 1_0000_0000
    ensures Parse(Records(keys, pax), map[]) == Some(pax)
  {
    RecordsParse(keys, pax, map[]);
    forall k: Bytes
      ensures k in Extend(keys, pax, map[]) <==> k in pax
      ensures k in pax ==> Extend(keys, pax, map[])[k] == pax[k]
    {
      ExtendLookup(keys, pax, map[], k);
    }
    assert Extend(keys, pax, map[]) == pax;
  }

  // Overrides

  // A decimal integer that PAX stores for a size, an owner or, signed, a time.
  function Unsigned(s: Bytes): Option<nat> {
    if IsDigits(s, 10) && Number(s, 10) <= MAX_INTEGER then Some(Number(s, 10)) else None
  }

  const MAX_TIME: nat := 8_640_000_000_000

  function Time(s: Bytes): Option<int> {
    var negative := s != [] && s[0] == 45;
    var digits := if negative then s[1..] else s;
    if IsDigits(digits, 10) && Number(digits, 10) <= MAX_TIME
    then Some(if negative then 0 - Number(digits, 10) as int else Number(digits, 10) as int)
    else None
  }

  function FormatTime(t: int): Bytes {
    if t < 0 then [45] + Digits(-t, 10) else Digits(t, 10)
  }

  lemma TimeRoundTrip(t: int)
    requires 0 - MAX_TIME as int <= t <= MAX_TIME
    ensures Time(FormatTime(t)) == Some(t)
    ensures 0 <= t ==> Unsigned(FormatTime(t)) == Some(t)
  {
    NumberOfDigits(if t < 0 then -t else t, 10);
    if t < 0 {
      assert FormatTime(t)[1..] == Digits(-t, 10);
    }
  }

  function Override(pax: Pax, key: Bytes, value: int): Option<int> {
    if key !in pax then Some(value)
    else match Unsigned(pax[key])
      case Some(n) => Some(n)
      case None => None
  }

  /** applyPAX. */
  function Apply(h: Header, pax: Pax): (r: Option<Header>)
    ensures r.Some? && h.size >= 0 ==> r.value.size >= 0
  {
    var size, uid, gid := Override(pax, SIZE, h.size), Override(pax, UID, h.uid), Override(pax, GID, h.gid);
    var mtime := if MTIME in pax then Time(pax[MTIME]) else Some(h.mtime);
    if size.None? || uid.None? || gid.None? || mtime.None? then None
    else
      Some(Header(if PATH in pax then pax[PATH] else h.name, h.kind, size.value, h.mode, uid.value, gid.value,
                  mtime.value, if LINKPATH in pax then pax[LINKPATH] else h.linkname, pax))
  }
}
