/** The streaming redactor of console and log output. */
module Redactor {

  import opened Octets

  // "[redacted]"
  const MARK: Bytes := [91, 114, 101, 100, 97, 99, 116, 101, 100, 93]

  predicate At(text: Bytes, i: nat, s: Bytes)
    requires i <= |text|
  {
    s <= text[i..]
  }

  /** The first secret, in list order, that matches at position i, or |secrets|. */
  function FirstAt(secrets: seq<Bytes>, text: Bytes, i: nat): (k: nat)
    requires i <= |text|
    ensures k <= |secrets|
    ensures k < |secrets| ==> At(text, i, secrets[k])
    ensures forall j :: 0 <= j < k ==> !At(text, i, secrets[j])
  {
    if secrets == [] || At(text, i, secrets[0]) then 0 else 1 + FirstAt(secrets[1..], text, i)
  }

  predicate NoEmpty(secrets: seq<Bytes>) {
    forall s :: s in secrets ==> s != []
  }

  // The secrets the redactor keeps, in their order.
  function Kept(given: seq<Bytes>): (kept: seq<Bytes>)
    ensures NoEmpty(kept)
    ensures forall s :: s in given && s != [] ==> s in kept
  {
    if given == [] then [] else (if given[0] != [] then [given[0]] else []) + Kept(given[1..])
  }

  /** The kept secrets are the given ones that are not empty, each as often and in
    * the order it was given. */
  lemma {:induction false} KeptInOrder(before: seq<Bytes>, s: Bytes, after: seq<Bytes>)
    ensures Kept(before + [s] + after) == Kept(before) + (if s == [] then [] else [s]) + Kept(after)
  {
    if before == [] {
      assert [] + [s] + after == [s] + after && ([s] + after)[1..] == after;
    } else {
      assert (before + [s] + after)[0] == before[0] && (before + [s] + after)[1..] == before[1..] + [s] + after;
      KeptInOrder(before[1..], s, after);
    }
  }

  /** The whole-text reference: from left to right, replace the first matching
    * secret in list order, and go on after it. */
  function Redact(secrets: seq<Bytes>, text: Bytes): Bytes
    requires NoEmpty(secrets)
    decreases |text|
  {
    if text == [] then []
    else
      var k := FirstAt(secrets, text, 0);
      if k < |secrets| then
        assert secrets[k] in secrets;
        MARK + Redact(secrets, text[|secrets[k]|..])
      else [text[0]] + Redact(secrets, text[1..])
  }

  // Whether some secret begins, but does not end, in text[i..].
  predicate Open(secrets: seq<Bytes>, text: Bytes, i: nat)
    requires i <= |text|
  {
    exists s :: s in secrets && text[i..] < s
  }

  /** Where no secret is open, more text does not change what matches. */
  lemma MatchIsFinal(secrets: seq<Bytes>, text: Bytes, more: Bytes, i: nat)
    requires i < |text| && !Open(secrets, text, i)
    ensures FirstAt(secrets, text + more, i) == FirstAt(secrets, text, i)
  {
    forall s | s in secrets
      ensures At(text + more, i, s) <==> At(text, i, s)
    {
      assert (text + more)[i..] == text[i..] + more;
    }
    FirstAtSame(secrets, text, text + more, i);
  }

  lemma {:induction false} FirstAtSame(secrets: seq<Bytes>, a: Bytes, b: Bytes, i: nat)
    requires i <= |a| && i <= |b| && forall s :: s in secrets ==> (At(a, i, s) <==> At(b, i, s))
    ensures FirstAt(secrets, a, i) == FirstAt(secrets, b, i)
  {
  }

  lemma {:induction false} FirstAtShift(secrets: seq<Bytes>, text: Bytes, i: nat)
    requires i <= |text|
    ensures FirstAt(secrets, text[i..], 0) == FirstAt(secrets, text, i)
  {
  }

  lemma RedactFirst(secrets: seq<Bytes>, text: Bytes)
    requires NoEmpty(secrets) && text != [] && FirstAt(secrets, text, 0) == |secrets|
    ensures Redact(secrets, text) == [text[0]] + Redact(secrets, text[1..])
  {
  }

  /** Bytes before the first match is passed through. */
  lemma {:induction false} RedactPlain(secrets: seq<Bytes>, text: Bytes, i: nat, j: nat)
    requires NoEmpty(secrets) && i <= j <= |text|
    requires forall k :: i <= k < j ==> FirstAt(secrets, text, k) == |secrets|
    ensures Redact(secrets, text[i..]) == text[i..j] + Redact(secrets, text[j..])
    decreases j - i
  {
    hide Redact, FirstAt, NoEmpty;
    if i < j {
      FirstAtShift(secrets, text, i);
      RedactFirst(secrets, text[i..]);
      RedactPlain(secrets, text, i + 1, j);
      assert text[i..][1..] == text[i + 1..];
      assert text[i..j] == [text[i]] + text[i + 1..j];
      assert [text[i]] + (text[i + 1..j] + Redact(secrets, text[j..])) == text[i..j] + Redact(secrets, text[j..]);
    } else {
      assert text[i..j] == [];
    }
  }

  lemma RedactMatch(secrets: seq<Bytes>, text: Bytes, i: nat)
    requires NoEmpty(secrets) && i < |text| && FirstAt(secrets, text, i) < |secrets|
    ensures var s := secrets[FirstAt(secrets, text, i)];
            i + |s| <= |text| && Redact(secrets, text[i..]) == MARK + Redact(secrets, text[i + |s|..])
  {
    hide FirstAt;
    FirstAtShift(secrets, text, i);
    var s := secrets[FirstAt(secrets, text, i)];
    assert s in secrets && s <= text[i..];
    assert text[i..][|s|..] == text[i + |s|..];
  }

  // strings.Index(text[from..], s) as a position in text, or None.
  function Find(text: Bytes, s: Bytes, from: nat): (p: int)
    requires from <= |text|
    ensures p == -1 || from <= p <= |text|
    ensures p >= 0 ==> At(text, p, s) && forall k :: from <= k < p ==> !At(text, k, s)
    ensures p == -1 ==> forall k :: from <= k <= |text| ==> !At(text, k, s)
    decreases |text| - from
  {
    if At(text, from, s) then from
    else if from == |text| then -1
    else Find(text, s, from + 1)
  }

  // Whether safe, then the redaction of what follows offset, is the redaction of
  // text and any text after it (or of the text alone at the end).
  ghost predicate Settled(secrets: seq<Bytes>, text: Bytes, safe: Bytes, offset: nat, final: bool)
    requires offset <= |text| && NoEmpty(secrets)
  {
    forall more: Bytes :: (final ==> more == []) ==>
      Redact(secrets, text + more) == safe + Redact(secrets, (text + more)[offset..])
  }

  lemma SettledAtStart(secrets: seq<Bytes>, text: Bytes, final: bool)
    requires NoEmpty(secrets)
    ensures Settled(secrets, text, [], 0, final)
  {
  }

  lemma SettleMore(secrets: seq<Bytes>, text: Bytes, safe: Bytes, offset: nat, next: nat, limit: nat, final: bool)
    requires NoEmpty(secrets) && offset <= next <= limit <= |text| && Settled(secrets, text, safe, offset, final)
    requires !final ==> forall i :: 0 <= i < limit ==> !Open(secrets, text, i)
    requires forall k :: offset <= k < next ==> FirstAt(secrets, text, k) == |secrets|
    ensures Settled(secrets, text, safe + text[offset..next], next, final)
    ensures next < limit && FirstAt(secrets, text, next) < |secrets| ==>
              var s := secrets[FirstAt(secrets, text, next)];
              next + |s| <= |text| && Settled(secrets, text, safe + text[offset..next] + MARK, next + |s|, final)
  {
    hide Redact;
    forall more: Bytes | final ==> more == []
      ensures Redact(secrets, text + more) == safe + text[offset..next] + Redact(secrets, (text + more)[next..])
      ensures next < limit && FirstAt(secrets, text, next) < |secrets| ==>
                var s := secrets[FirstAt(secrets, text, next)];
                next + |s| <= |text| &&
                Redact(secrets, text + more) ==
                  safe + text[offset..next] + MARK + Redact(secrets, (text + more)[next + |s|..])
    {
      SettleOne(secrets, text, more, offset, next, limit, final);
      assert Redact(secrets, text + more) == safe + Redact(secrets, (text + more)[offset..]);
    }
  }

  // Before limit, more text does not change what matches.
  lemma StableMatches(secrets: seq<Bytes>, text: Bytes, more: Bytes, limit: nat, final: bool)
    requires limit <= |text| && (final ==> more == [])
    requires !final ==> forall i :: 0 <= i < limit ==> !Open(secrets, text, i)
    ensures forall k :: 0 <= k < limit ==> FirstAt(secrets, text + more, k) == FirstAt(secrets, text, k)
  {
    hide FirstAt, Open;
    if final {
      assert text + more == text;
    } else {
      forall k | 0 <= k < limit
        ensures FirstAt(secrets, text + more, k) == FirstAt(secrets, text, k)
      {
        MatchIsFinal(secrets, text, more, k);
      }
    }
  }

  lemma SettleOne(secrets: seq<Bytes>, text: Bytes, more: Bytes, offset: nat, next: nat, limit: nat, final: bool)
    requires NoEmpty(secrets) && offset <= next <= limit <= |text| && (final ==> more == [])
    requires !final ==> forall i :: 0 <= i < limit ==> !Open(secrets, text, i)
    requires forall k :: offset <= k < next ==> FirstAt(secrets, text, k) == |secrets|
    ensures Redact(secrets, (text + more)[offset..]) == text[offset..next] + Redact(secrets, (text + more)[next..])
    ensures next < limit && FirstAt(secrets, text, next) < |secrets| ==>
              var s := secrets[FirstAt(secrets, text, next)];
              next + |s| <= |text| &&
                Redact(secrets, (text + more)[next..]) == MARK + Redact(secrets, (text + more)[next + |s|..])
  {
    hide Redact, FirstAt, Open;
    StableMatches(secrets, text, more, limit, final);
    ghost var all := text + more;
    RedactPlain(secrets, all, offset, next);
    assert all[offset..next] == text[offset..next];
    if next < limit && FirstAt(secrets, text, next) < |secrets| {
      MatchFits(secrets, text, next);
      RedactMatch(secrets, all, next);
    }
  }

  lemma MatchFits(secrets: seq<Bytes>, text: Bytes, i: nat)
    requires i <= |text| && FirstAt(secrets, text, i) < |secrets|
    ensures i + |secrets[FirstAt(secrets, text, i)]| <= |text|
  {
  }

  // What was sent and what is pending say the same as the input, whatever comes
  // next.
  ghost predicate Explains(secrets: seq<Bytes>, input: Bytes, output: Bytes, pending: Bytes)
    requires NoEmpty(secrets)
  {
    forall more: Bytes :: Redact(secrets, input + more) == output + Redact(secrets, pending + more)
  }

  lemma ValidPush(secrets: seq<Bytes>, input: Bytes, output: Bytes, pending: Bytes, value: Bytes)
    requires NoEmpty(secrets) && Explains(secrets, input, output, pending)
    ensures Explains(secrets, input + value, output, pending + value)
  {
    hide Redact, NoEmpty;
    forall more: Bytes
      ensures Redact(secrets, input + value + more) == output + Redact(secrets, pending + value + more)
    {
      assert Redact(secrets, input + (value + more)) == output + Redact(secrets, pending + (value + more));
      assert input + (value + more) == input + value + more;
      assert pending + (value + more) == pending + value + more;
    }
  }

  lemma ValidEmit(secrets: seq<Bytes>, input: Bytes, output: Bytes, pending: Bytes, sent: Bytes, from: nat)
    requires NoEmpty(secrets) && from <= |pending| && Explains(secrets, input, output, pending)
    requires Settled(secrets, pending, sent, from, false)
    ensures Explains(secrets, input, output + sent, pending[from..])
    ensures forall more: Bytes :: output + sent <= Redact(secrets, input + more)
  {
    hide Redact;
    forall more: Bytes
      ensures Redact(secrets, input + more) == output + sent + Redact(secrets, pending[from..] + more)
    {
      assert (pending + more)[from..] == pending[from..] + more;
      assert output + (sent + Redact(secrets, pending[from..] + more)) ==
        output + sent + Redact(secrets, pending[from..] + more);
    }
  }

  predicate RuneStart(b: Byte) {
    !(0x80 <= b < 0xC0)
  }

  // Where emission stops

  /** The first position where a secret is open, or |text|. */
  function FirstOpen(secrets: seq<Bytes>, text: Bytes, i: nat): (p: nat)
    requires i <= |text|
    ensures i <= p <= |text| && (p < |text| ==> Open(secrets, text, p))
    ensures forall k :: i <= k < p ==> !Open(secrets, text, k)
    decreases |text| - i
  {
    if i == |text| || Open(secrets, text, i) then i else FirstOpen(secrets, text, i + 1)
  }

  lemma {:induction false} FirstOpenIs(secrets: seq<Bytes>, text: Bytes, i: nat, p: nat)
    requires i <= p <= |text| && (p < |text| ==> Open(secrets, text, p))
    requires forall k :: i <= k < p ==> !Open(secrets, text, k)
    ensures FirstOpen(secrets, text, i) == p
    decreases p - i
  {
    if i < p {
      FirstOpenIs(secrets, text, i + 1, p);
    }
  }

  // Back to the start of the rune that i is in.
  function RuneBack(text: Bytes, i: nat): (p: nat)
    requires i <= |text|
    ensures p <= i && forall k :: p < k <= i && k < |text| ==> !RuneStart(text[k])
  {
    if 0 < i < |text| && !RuneStart(text[i]) then RuneBack(text, i - 1) else i
  }

  function LimitOf(secrets: seq<Bytes>, text: Bytes): (limit: nat)
    ensures limit <= |text|
  {
    RuneBack(text, FirstOpen(secrets, text, 0))
  }

  /** The end of the last match that starts before limit, or limit. */
  function Stop(secrets: seq<Bytes>, text: Bytes, offset: nat, limit: nat): (from: nat)
    requires NoEmpty(secrets) && offset <= |text| && limit <= |text|
    ensures offset <= from <= |text| && limit <= from
    decreases |text| - offset
  {
    if offset >= limit then offset
    else
      var k := FirstAt(secrets, text, offset);
      if k < |secrets| then
        assert secrets[k] in secrets;
        Stop(secrets, text, offset + |secrets[k]|, limit)
      else Stop(secrets, text, offset + 1, limit)
  }

  lemma {:induction false} StopPlain(secrets: seq<Bytes>, text: Bytes, offset: nat, next: nat, limit: nat)
    requires NoEmpty(secrets) && offset <= next <= limit <= |text|
    requires forall k :: offset <= k < next ==> FirstAt(secrets, text, k) == |secrets|
    ensures Stop(secrets, text, offset, limit) == Stop(secrets, text, next, limit)
    decreases next - offset
  {
    if offset < next {
      StopPlain(secrets, text, offset + 1, next, limit);
    }
  }

  lemma StopMatch(secrets: seq<Bytes>, text: Bytes, next: nat, limit: nat)
    requires NoEmpty(secrets) && next < limit <= |text| && FirstAt(secrets, text, next) < |secrets|
    ensures var s := secrets[FirstAt(secrets, text, next)];
      next + |s| <= |text| && Stop(secrets, text, next, limit) == Stop(secrets, text, next + |s|, limit)
  {
  }

  lemma StopEnd(secrets: seq<Bytes>, text: Bytes, offset: nat, limit: nat)
    requires NoEmpty(secrets) && limit <= offset <= |text|
    ensures Stop(secrets, text, offset, limit) == offset
  {
  }

  lemma {:induction false} RuneBackIs(text: Bytes, i: nat)
    requires i < |text| && forall k :: 0 < k <= i ==> !RuneStart(text[k])
    ensures RuneBack(text, i) == 0
  {
    if i > 0 {
      RuneBackIs(text, i - 1);
    }
  }

  lemma OpenShift(secrets: seq<Bytes>, text: Bytes, from: nat, i: nat)
    requires from <= i <= |text|
    ensures Open(secrets, text[from..], i - from) <==> Open(secrets, text, i)
  {
    assert text[from..][i - from..] == text[i..];
  }

  /** Unless a match goes on into the open end, all that is held back must be:
    * alone, it would be held back too. */
  lemma HeldIsNeeded(secrets: seq<Bytes>, text: Bytes)
    requires NoEmpty(secrets)
    ensures var limit := LimitOf(secrets, text);
      Stop(secrets, text, 0, limit) == limit ==> LimitOf(secrets, text[limit..]) == 0
  {
    hide Open, RuneStart;
    var limit, open := LimitOf(secrets, text), FirstOpen(secrets, text, 0);
    var held := text[limit..];
    forall k | limit <= k <= |text|
      ensures Open(secrets, held, k - limit) <==> Open(secrets, text, k)
    {
      OpenShift(secrets, text, limit, k);
    }
    forall k | 0 <= k < open - limit
      ensures !Open(secrets, held, k)
    {
      assert !Open(secrets, text, k + limit);
    }
    FirstOpenIs(secrets, held, 0, open - limit);
    if open < |text| {
      assert forall k :: 0 < k <= open - limit ==> held[k] == text[limit + k];
      RuneBackIs(held, open - limit);
    }
  }

  /** What is held back after a match: the comment says an open end, but a match
    * that starts before the open end and goes on into it is sent, and what is
    * left of the open end stays held back. Here it is "c", which begins no secret
    * and is sent as it is whatever follows. */
  lemma HeldAfterMatch()
    ensures var secrets, text := [[97, 98], [98, 99, 100]], [97, 98, 99];
      && NoEmpty(secrets) && LimitOf(secrets, text) == 1 && Stop(secrets, text, 0, 1) == 2
      && !Open(secrets, text, 2)
      && forall more: Bytes :: Redact(secrets, text + more) == MARK + [99] + Redact(secrets, more)
  {
    var secrets: seq<Bytes>, text: Bytes := [[97, 98], [98, 99, 100]], [97, 98, 99];
    assert text[1..] == [98, 99] && [98, 99] < secrets[1] && secrets[1] in secrets;
    assert text[0..] == text && text[2..] == [99];
    assert forall s :: s in secrets ==> s[0] != 99;
    assert At(text, 0, secrets[0]);
    assert FirstAt(secrets, text, 0) == 0;
    forall more: Bytes
      ensures Redact(secrets, text + more) == MARK + [99] + Redact(secrets, more)
    {
      var all := text + more;
      assert all[0..] == all && At(all, 0, secrets[0]);
      assert FirstAt(secrets, all, 0) == 0;
      assert all[2..] == [99] + more;
      PlainByte(secrets, 99, more);
    }
  }

  lemma PlainByte(secrets: seq<Bytes>, b: Byte, more: Bytes)
    requires NoEmpty(secrets) && forall s :: s in secrets ==> s[0] != b
    ensures Redact(secrets, [b] + more) == [b] + Redact(secrets, more)
  {
    var text := [b] + more;
    assert text[0..] == text && text[1..] == more;
    forall s | s in secrets
      ensures !At(text, 0, s)
    {
    }
    assert FirstAt(secrets, text, 0) == |secrets|;
  }

  /** The order of the secrets decides, not their length: of "a" and "ab", the
    * first in the list replaces its match, and "b" is left. */
  lemma OrderDecides()
    ensures var a, ab := [97], [97, 98];
      NoEmpty([a, ab]) && Redact([a, ab], ab) == MARK + [98] && Redact([ab, a], ab) == MARK
  {
    var a: Bytes, ab: Bytes := [97], [97, 98];
    assert ab[0..] == ab && ab[1..] == [98] && ab[2..] == [] && [98][1..] == [] && [98][0..] == [98];
    assert NoEmpty([a, ab]) && NoEmpty([ab, a]);
    assert At(ab, 0, a) && At(ab, 0, ab) && FirstAt([a, ab], ab, 0) == 0 && FirstAt([ab, a], ab, 0) == 0;
    PlainByte([a, ab], 98, []);
    assert [98] + [] == [98];
  }

  class Redactor {
    const secrets: seq<Bytes>
    var pending: Bytes
    // Everything pushed and everything sent so far.
    ghost var input: Bytes
    var output: Bytes

    constructor (given: seq<Bytes>)
      ensures Valid() && input == [] && output == [] && secrets == Kept(given)
    {
      var kept: seq<Bytes> := [];
      for i := 0 to |given|
        invariant kept + Kept(given[i..]) == Kept(given)
      {
        if given[i] != [] {
          kept := kept + [given[i]];
        }
        assert given[i..][1..] == given[i + 1..];
      }
      assert kept == Kept(given);
      secrets := kept;
      pending, input, output := [], [], [];
      new;
    }

    /** What was sent and what is pending say the same as the input, whatever
      * comes next. */
    ghost predicate Valid()
      reads this
    {
      NoEmpty(secrets) && Explains(secrets, input, output, pending)
    }

    /** partial: the length of the longest end of pending that begins a secret
      * without completing it. */
    method Partial() returns (longest: nat)
      requires NoEmpty(secrets)
      ensures longest <= |pending|
      ensures longest > 0 ==> Open(secrets, pending, |pending| - longest)
      ensures forall i :: 0 <= i < |pending| - longest ==> !Open(secrets, pending, i)
    {
      longest := 0;
      for k := 0 to |secrets|
        invariant longest <= |pending|
        invariant longest > 0 ==> Open(secrets, pending, |pending| - longest)
        invariant forall j, i :: 0 <= j < k && 0 <= i < |pending| - longest ==> !(pending[i..] < secrets[j])
      {
        var s := secrets[k];
        assert s in secrets;
        var length := if |s| - 1 < |pending| then |s| - 1 else |pending|;
        while length > longest
          invariant 0 <= length <= |pending| && longest <= |pending|
          invariant forall i :: 0 <= i < |pending| - length ==> !(pending[i..] < s)
          invariant longest > 0 ==> Open(secrets, pending, |pending| - longest)
          invariant forall j, i :: 0 <= j < k && 0 <= i < |pending| - longest ==> !(pending[i..] < secrets[j])
          decreases length
        {
          if pending[|pending| - length..] == s[..length] {
            longest := length;
            assert pending[|pending| - length..] < s && s in secrets;
            break;
          }
          assert !(pending[|pending| - length..] < s);
          length := length - 1;
        }
      }
    }

    // The part of pending that no further text can change the redaction of.
    method Limit(final: bool) returns (limit: nat)
      requires NoEmpty(secrets)
      ensures limit <= |pending| && (final ==> limit == |pending|)
      ensures !final ==> limit == LimitOf(secrets, pending)
      ensures !final ==> forall i :: 0 <= i < limit ==> !Open(secrets, pending, i)
      ensures Held(secrets, pending, limit)
    {
      if final {
        assert HeldBy(secrets, pending, |pending|, 0);
        return |pending|;
      }
      var open := Partial();
      limit := |pending| - open;
      assert limit == FirstOpen(secrets, pending, 0) by { FirstOpenIs(secrets, pending, 0, limit); }
      while limit > 0 && limit < |pending| && !RuneStart(pending[limit])
        invariant limit <= |pending| - open
        invariant RuneBack(pending, limit) == LimitOf(secrets, pending)
        invariant forall i :: limit < i < |pending| - open ==> !RuneStart(pending[i])
      {
        limit := limit - 1;
      }
      assert HeldBy(secrets, pending, limit, open);
    }

    // A remembered first occurrence: none from offset on, the first one from
    // offset on, or one that the text already passed.
    ghost predicate Cached(position: int, s: Bytes, offset: nat)
      requires offset <= |pending|
      reads this
    {
      && (position == -1 ==> forall k :: offset <= k <= |pending| ==> !At(pending, k, s))
      && (position >= offset ==> position <= |pending| && At(pending, position, s))
      && (position >= offset ==> forall k :: offset <= k < position ==> !At(pending, k, s))
    }

    /** The inner loop of emit: the next match before limit, the first in list
      * order where several start together. */
    method Next(positions: array<int>, offset: nat, limit: nat) returns (next: nat, matched: int)
      requires NoEmpty(secrets) && positions.Length == |secrets| && offset < limit <= |pending|
      requires forall j :: 0 <= j < |secrets| ==> Cached(positions[j], secrets[j], offset)
      modifies positions
      ensures forall j :: 0 <= j < |secrets| ==> Cached(positions[j], secrets[j], offset)
      ensures offset <= next <= limit
      ensures forall k :: offset <= k < next ==> FirstAt(secrets, pending, k) == |secrets|
      ensures matched == -1 ==> next == limit
      ensures matched != -1 ==> next < limit && matched == FirstAt(secrets, pending, next) < |secrets|
    {
      next, matched := limit, -1;
      for index := 0 to |secrets|
        invariant forall j :: 0 <= j < |secrets| ==> Cached(positions[j], secrets[j], offset)
        invariant offset <= next <= limit
        invariant next == offset ==> matched != -1
        invariant forall j, k :: 0 <= j < index && offset <= k < next ==> !At(pending, k, secrets[j])
        invariant matched == -1 ==> next == limit
        invariant matched != -1 ==> 0 <= matched < index && next < limit && At(pending, next, secrets[matched])
        invariant matched != -1 ==> forall j :: 0 <= j < matched ==> !At(pending, next, secrets[j])
      {
        var found := positions[index];
        if found != -1 && found < offset {
          found := Find(pending, secrets[index], offset);
          positions[index] := found;
        }
        if found != -1 && found < next {
          next, matched := found, index;
          if next == offset {
            break;
          }
        }
      }
    }

    /** emit: send what no further text can change, and keep the rest. */
    method Emit(final: bool) returns (ghost sent: Bytes, ghost from: nat, ghost sure: nat)
      requires NoEmpty(secrets)
      modifies this
      ensures input == old(input) && from <= old(|pending|)
      ensures Settled(secrets, old(pending), sent, from, final)
      ensures output == old(output) + sent && pending == old(pending)[from..]
      ensures final ==> pending == []
      ensures !final ==> from == Stop(secrets, old(pending), 0, LimitOf(secrets, old(pending)))
      ensures sure <= from && Held(secrets, old(pending), sure)
    {
      hide Redact, FirstAt, Settled, Open, Held, Stop, LimitOf;
      var limit := Limit(final);
      SettledAtStart(secrets, pending, final);
      sent, from, sure := [], 0, limit;
      if limit == 0 {
        StopEnd(secrets, pending, 0, 0);
        assert pending == pending[0..];
        return;
      }
      var positions := new int[|secrets|];
      for index := 0 to |secrets|
        invariant input == old(input) && output == old(output) && pending == old(pending)
        invariant forall j :: 0 <= j < index ==> Cached(positions[j], secrets[j], 0)
      {
        positions[index] := Find(pending, secrets[index], 0);
      }
      var safe: Bytes := [];
      var offset: nat := 0;
      while offset < limit
        invariant input == old(input) && output == old(output) && pending == old(pending)
        invariant offset <= |pending| && Settled(secrets, pending, safe, offset, final)
        invariant forall j :: 0 <= j < |secrets| ==> Cached(positions[j], secrets[j], offset)
        invariant Stop(secrets, pending, offset, limit) == Stop(secrets, pending, 0, limit)
        decreases |pending| - offset
      {
        var next, matched := Next(positions, offset, limit);
        StopPlain(secrets, pending, offset, next, limit);
        SettleMore(secrets, pending, safe, offset, next, limit, final);
        safe := safe + pending[offset..next];
        offset := next;
        if matched == -1 {
          break;
        }
        assert secrets[matched] in secrets;
        StopMatch(secrets, pending, next, limit);
        safe := safe + MARK;
        offset := offset + |secrets[matched]|;
      }
      StopEnd(secrets, pending, offset, limit);
      pending := pending[offset..];
      if |safe| > 0 {
        output := output + safe;
      }
      sent, from := safe, offset;
    }

    /** Push. What was sent is a prefix of the redaction of whatever follows, and
      * only an open end and the rest of a rune before it are held back: all of it
      * unless a match goes on into it. */
    method Push(value: Bytes)
      requires Valid()
      modifies this
      ensures Valid() && input == old(input) + value
      ensures old(output) <= output
      ensures forall more: Bytes :: output <= Redact(secrets, input + more)
      ensures exists limit: nat :: HeldFrom(secrets, old(pending) + value, limit, pending)
      ensures var all := old(pending) + value;
        pending == all[Stop(secrets, all, 0, LimitOf(secrets, all))..]
    {
      hide Redact, Settled, Open, Held, Explains, NoEmpty;
      var all := pending + value;
      ValidPush(secrets, input, output, pending, value);
      pending := all;
      input := input + value;
      ghost var sent, from, sure := Emit(false);
      ValidEmit(secrets, input, old(output), all, sent, from);
      assert HeldFrom(secrets, all, sure, pending);
    }

    /** End: exactly the redaction of the whole input was sent. */
    method End()
      requires Valid()
      modifies this
      ensures output == Redact(secrets, input) && pending == [] && input == old(input)
    {
      ghost var all := pending;
      assert Explains(secrets, input, output, pending);
      assert input + [] == input && all + [] == all;
      ghost var sent, from, sure := Emit(true);
      assert all[from..] == [];
    }
  }

  /** What is held back from position `from` on: an open end, and before it at
    * most the rest of the rune it starts in. */
  ghost predicate Held(secrets: seq<Bytes>, text: Bytes, from: nat)
    requires from <= |text|
  {
    exists open: nat :: HeldBy(secrets, text, from, open)
  }

  // pending is at most what is held back of text from limit on.
  ghost predicate HeldFrom(secrets: seq<Bytes>, text: Bytes, limit: nat, pending: Bytes) {
    limit <= |text| && Held(secrets, text, limit) && |pending| <= |text| - limit &&
      pending == text[|text| - |pending|..]
  }

  ghost predicate HeldBy(secrets: seq<Bytes>, text: Bytes, from: nat, open: nat) {
    && open <= |text| && (open > 0 ==> Open(secrets, text, |text| - open))
    && forall i :: from < i < |text| - open ==> !RuneStart(text[i])
  }

  /** A stream cut in any way is redacted like its whole text. */
  method RedactStream(given: seq<Bytes>, chunks: seq<Bytes>) returns (sent: Bytes)
    ensures sent == Redact(Kept(given), Flat(chunks))
  {
    hide Redact, NoEmpty, Kept, Explains, Held, HeldFrom;
    var redactor := new Redactor(given);
    for i := 0 to |chunks|
      invariant redactor.Valid() && redactor.input + Flat(chunks[i..]) == Flat(chunks)
      invariant redactor.secrets == Kept(given)
    {
      assert chunks[i..][1..] == chunks[i + 1..];
      ghost var before := redactor.input;
      redactor.Push(chunks[i]);
      assert before + (chunks[i] + Flat(chunks[i + 1..])) == before + chunks[i] + Flat(chunks[i + 1..]);
    }
    assert redactor.input == Flat(chunks);
    redactor.End();
    return redactor.output;
  }
}
