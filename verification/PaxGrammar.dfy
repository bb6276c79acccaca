/** What PAX records are, said without a parser: lines that count themselves. */
module PaxGrammar {

  import opened Wrappers
  import opened Octets
  import opened TarBytes
  import opened TarHeader
  import opened TarPax

  /** A line "length key=value", whose length counts the whole line. */
  predicate IsLine(line: Bytes, key: Bytes, value: Bytes) {
    && line == Digits(|line|, 10) + [32] + key + [61] + value + [10]
    && |line| < 100_000_000
    && key != [] && 61 !in key && 0 !in key && 0 !in value && ValidUtf8(key + [61] + value)
  }

  /** Keys that would change what an entry means without the reader knowing. */
  predicate IsAllowed(key: Bytes) {
    !(Ascii("GNU.sparse") <= key) && key != Ascii("SCHILY.filetype")
  }

  datatype Line = Line(text: Bytes, key: Bytes, value: Bytes)

  /** Lines that make up data: allowed keys, each of them once. */
  ghost predicate AreLines(data: Bytes, lines: seq<Line>)
    decreases |lines|
  {
    if lines == [] then data == []
    else
      var l := lines[0];
      && IsLine(l.text, l.key, l.value) && IsAllowed(l.key)
      && (forall i :: 0 < i < |lines| ==> lines[i].key != l.key)
      && l.text <= data && AreLines(data[|l.text|..], lines[1..])
  }

  function ToPax(lines: seq<Line>): Pax {
    if lines == [] then map[] else ToPax(lines[1..])[lines[0].key := lines[0].value]
  }

  lemma {:induction false} NoKey(lines: seq<Line>, key: Bytes)
    requires forall i :: 0 <= i < |lines| ==> lines[i].key != key
    ensures key !in ToPax(lines)
  {
    if lines != [] {
      NoKey(lines[1..], key);
    }
  }

  lemma {:induction false} DigitsOf(s: Bytes)
    requires IsDigits(s, 10) && s[0] != 48
    ensures Number(s, 10) > 0 && Digits(Number(s, 10), 10) == s
    decreases |s|
  {
    if |s| == 1 {
      assert Number(s, 10) == Number([], 10) * 10 + (s[0] - 48);
    } else {
      DigitsOf(s[..|s| - 1]);
      DigitsAppend(Number(s[..|s| - 1], 10), s[|s| - 1] - 48);
      assert s == s[..|s| - 1] + [s[|s| - 1]];
    }
  }

  lemma DigitsAppend(n: nat, digit: nat)
    requires n > 0 && digit < 10
    ensures Digits(n * 10 + digit, 10) == Digits(n, 10) + [48 + digit]
  {
    assert (n * 10 + digit) / 10 == n && (n * 10 + digit) % 10 == digit;
  }

  lemma Allowed(key: Bytes)
    ensures IsAllowed(key) <==> AllowedKey(key)
  {
    assert Ascii("GNU.sparse") == GNU_SPARSE;
    assert Ascii("SCHILY.filetype") == FILETYPE;
  }

  lemma LineParses(line: Bytes, key: Bytes, value: Bytes, more: Bytes)
    requires IsLine(line, key, value)
    ensures ParseRecord(line + more) == Some(Record(key, value, |line|))
  {
    hide ParseRecord, ParsePair, ValidUtf8, Digits, IsDigits;
    var length := Digits(|line|, 10);
    LengthReadable(|line|);
    LinePair(key, value);
    assert Tail(key, value) == [32] + key + [61] + value + [10];
    assert line == length + Tail(key, value);
    ReadRecord(length, key, value, more);
  }

  lemma LinePair(key: Bytes, value: Bytes)
    requires key != [] && 61 !in key && 0 !in key && 0 !in value && ValidUtf8(key + [61] + value)
    ensures ParsePair(key + [EQUALS] + value) == Some((key, value))
  {
    hide ValidUtf8;
    var record := key + [61] + value;
    IndexIs(record, EQUALS, |key|);
    assert record[..|key|] == key && record[|key| + 1..] == value;
  }

  lemma ParsedIsLine(data: Bytes)
    requires ParseRecord(data).Some?
    ensures var r := ParseRecord(data).value;
            IsLine(data[..r.end], r.key, r.value)
  {
    hide ValidUtf8, IsDigits, Index, ParsePair, IsLine;
    var r := ParseRecord(data).value;
    var space := Index(data, SPACE);
    var length, record := data[..space], data[space + 1..r.end - 1];
    PairIs(record);
    Number8(length);
    DigitsOf(length);
    Cut(data, space, r.end);
    LineOf(data[..r.end], length, r.key, r.value);
  }

  lemma Cut(data: Bytes, space: nat, end: nat)
    requires space + 1 < end <= |data| && data[space] == 32 && data[end - 1] == 10
    ensures data[..end] == data[..space] + [32] + data[space + 1..end - 1] + [10]
  {
  }

  lemma PairIs(record: Bytes)
    requires ParsePair(record).Some?
    ensures var (key, value) := ParsePair(record).value;
            && record == key + [61] + value && ValidUtf8(record)
            && key != [] && 61 !in key && 0 !in key && 0 !in value
  {
    hide ValidUtf8;
    var equals := Index(record, EQUALS);
    assert record == record[..equals] + [61] + record[equals + 1..];
  }

  lemma LineOf(line: Bytes, length: Bytes, key: Bytes, value: Bytes)
    requires line == length + [32] + (key + [61] + value) + [10] && length == Digits(|line|, 10)
    requires |line| < 100_000_000 && ValidUtf8(key + [61] + value)
    requires key != [] && 61 !in key && 0 !in key && 0 !in value
    ensures IsLine(line, key, value)
  {
    hide ValidUtf8, Digits;
    assert line == length + [32] + key + [61] + value + [10];
  }

  lemma Number8(s: Bytes)
    requires IsDigits(s, 10) && |s| <= 8
    ensures Number(s, 10) < 100_000_000
  {
    assert Pow(10, 8) == 100_000_000 by {
      assert Pow(10, 4) == 10000;
      assert Pow(10, 8) == 10 * (10 * (10 * (10 * Pow(10, 4))));
    }
    NumberBound(s);
    PowGrows(|s|, 8);
  }

  lemma {:induction false} NumberBound(s: Bytes)
    requires forall i :: 0 <= i < |s| ==> 48 <= s[i] < 58
    ensures Number(s, 10) < Pow(10, |s|)
  {
    if s != [] {
      NumberBound(s[..|s| - 1]);
    }
  }

  lemma {:induction false} PowGrows(k: nat, n: nat)
    requires k <= n
    ensures Pow(10, k) <= Pow(10, n)
    decreases n
  {
    if k < n {
      PowGrows(k, n - 1);
    }
  }

  lemma FirstLine(data: Bytes, lines: seq<Line>, seen: Pax)
    requires AreLines(data, lines) && lines != [] && lines[0].key !in seen
    ensures var l := lines[0];
            |l.text| <= |data| && Parse(data, seen) == Parse(data[|l.text|..], seen[l.key := l.value])
  {
    hide IsLine, IsAllowed, AllowedKey, ParseRecord;
    var l := lines[0];
    LineParses(l.text, l.key, l.value, data[|l.text|..]);
    assert data == l.text + data[|l.text|..];
    Allowed(l.key);
    LineNotEmpty(l.text, l.key, l.value);
  }

  lemma LineNotEmpty(line: Bytes, key: Bytes, value: Bytes)
    requires IsLine(line, key, value)
    ensures line != []
  {
  }

  lemma {:induction false} LinesParse(data: Bytes, lines: seq<Line>, seen: Pax)
    requires AreLines(data, lines) && forall l :: l in lines ==> l.key !in seen
    ensures Parse(data, seen) == Some(seen + ToPax(lines))
    decreases |lines|
  {
    hide Parse, IsLine, IsAllowed;
    if lines == [] {
      ParseNothing(seen);
      assert seen + ToPax(lines) == seen;
    } else {
      var l := lines[0];
      FirstLine(data, lines, seen);
      forall k | k in lines[1..]
        ensures k.key !in seen[l.key := l.value]
      {
        assert k in lines;
      }
      LinesParse(data[|l.text|..], lines[1..], seen[l.key := l.value]);
      NoKey(lines[1..], l.key);
      assert seen[l.key := l.value] + ToPax(lines[1..]) == seen + ToPax(lines);
    }
  }

  lemma ParseNothing(seen: Pax)
    ensures Parse([], seen) == Some(seen)
  {
  }

  lemma {:induction false} ParsedAreLines(data: Bytes, seen: Pax) returns (lines: seq<Line>)
    requires Parse(data, seen).Some?
    ensures AreLines(data, lines) && forall l :: l in lines ==> l.key !in seen
    decreases |data|
  {
    hide ParseRecord;
    if data == [] {
      lines := [];
    } else {
      var r := ParseRecord(data).value;
      ParsedIsLine(data);
      Allowed(r.key);
      var rest := ParsedAreLines(data[r.end..], seen[r.key := r.value]);
      lines := [Line(data[..r.end], r.key, r.value)] + rest;
      assert lines[1..] == rest;
    }
  }

  /** parsePAX reads exactly the texts that are made of such lines, as the map of
    * their keys and values. */
  lemma RecordsAreLines(data: Bytes)
    ensures Parse(data, map[]).Some? <==> exists lines :: AreLines(data, lines)
    ensures forall lines :: AreLines(data, lines) ==> Parse(data, map[]) == Some(ToPax(lines))
  {
    if Parse(data, map[]).Some? {
      var lines := ParsedAreLines(data, map[]);
    }
    forall lines | AreLines(data, lines)
      ensures Parse(data, map[]) == Some(ToPax(lines))
    {
      LinesParse(data, lines, map[]);
      assert map[] + ToPax(lines) == ToPax(lines);
    }
  }
}
