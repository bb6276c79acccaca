/** Byte strings, UTF-8 validity and the number formats of tar headers. */
module TarBytes {

  import opened Wrappers
  import opened Octets

  const MAX_INTEGER: nat := 0x1F_FFFF_FFFF_FFFF

  function Zeros(n: nat): (z: Bytes)
    ensures |z| == n && forall i :: 0 <= i < n ==> z[i] == 0
  {
    seq(n, i => 0)
  }

  predicate AllZero(s: Bytes) {
    forall i :: 0 <= i < |s| ==> s[i] == 0
  }

  /** The first position of b, or |s|. */
  function Index(s: Bytes, b: Byte): (k: nat)
    ensures k <= |s| && (k < |s| ==> s[k] == b)
    ensures forall i :: 0 <= i < k ==> s[i] != b
  {
    if s == [] || s[0] == b then 0 else 1 + Index(s[1..], b)
  }

  lemma IndexIs(s: Bytes, b: Byte, k: nat)
    requires k <= |s| && (k < |s| ==> s[k] == b) && forall i :: 0 <= i < k ==> s[i] != b
    ensures Index(s, b) == k
  {
  }

  lemma SliceOfRest(s: Bytes, from: nat, i: nat, j: nat)
    requires i <= j && from + j <= |s|
    ensures s[from..][i..j] == s[from + i..from + j]
  {
  }

  // UTF-8

  predicate Continuation(b: Byte) {
    0x80 <= b <= 0xBF
  }

  /** The length of the well-formed rune that s starts with, or 0. */
  function RuneLength(s: Bytes): (n: nat)
    ensures n <= |s| && n <= 4
  {
    if s == [] then 0
    else if s[0] < 0x80 then 1
    else if 0xC2 <= s[0] <= 0xDF then
      if |s| >= 2 && Continuation(s[1]) then 2 else 0
    else if 0xE0 <= s[0] <= 0xEF then
      if |s| >= 3 && Continuation(s[1]) && Continuation(s[2]) &&
         (s[0] == 0xE0 ==> s[1] >= 0xA0) && (s[0] == 0xED ==> s[1] <= 0x9F) then 3 else 0
    else if 0xF0 <= s[0] <= 0xF4 then
      if |s| >= 4 && Continuation(s[1]) && Continuation(s[2]) && Continuation(s[3]) &&
         (s[0] == 0xF0 ==> s[1] >= 0x90) && (s[0] == 0xF4 ==> s[1] <= 0x8F) then 4 else 0
    else 0
  }

  predicate ValidUtf8(s: Bytes) {
    s == [] || (RuneLength(s) > 0 && ValidUtf8(s[RuneLength(s)..]))
  }

  lemma {:induction false} ValidConcat(a: Bytes, b: Bytes)
    requires ValidUtf8(a) && ValidUtf8(b)
    ensures ValidUtf8(a + b)
    decreases |a|
  {
    if a == [] {
      assert a + b == b;
    } else {
      var n := RuneLength(a);
      assert RuneLength(a + b) == n;
      assert (a + b)[n..] == a[n..] + b;
      ValidConcat(a[n..], b);
    }
  }

  /** Valid UTF-8 can be cut at any ASCII byte. */
  lemma {:induction false} ValidCut(s: Bytes, k: nat)
    requires ValidUtf8(s) && k <= |s| && (k < |s| ==> s[k] < 0x80)
    ensures ValidUtf8(s[..k]) && ValidUtf8(s[k..])
    decreases |s|
  {
    if k == 0 {
      assert s[0..] == s;
    } else {
      var n := RuneLength(s);
      assert n <= k;
      ValidCut(s[n..], k - n);
      assert s[n..][k - n..] == s[k..] && s[..k][n..] == s[n..][..k - n];
      assert RuneLength(s[..k]) == n;
    }
  }

  lemma {:induction false} ValidAscii(a: Bytes)
    requires forall i :: 0 <= i < |a| ==> a[i] < 0x80
    ensures ValidUtf8(a)
  {
    if a != [] {
      ValidAscii(a[1..]);
    }
  }

  // Numbers in a positional notation of ASCII digits.

  predicate IsDigits(s: Bytes, base: nat) {
    s != [] && forall i :: 0 <= i < |s| ==> 48 <= s[i] < 48 + base
  }

  function Digits(n: nat, base: nat): (d: Bytes)
    requires 2 <= base <= 10
    ensures IsDigits(d, base)
  {
    if n < base then [48 + n] else Digits(n / base, base) + [48 + n % base]
  }

  function Number(s: Bytes, base: nat): nat
    requires 2 <= base <= 10 && forall i :: 0 <= i < |s| ==> 48 <= s[i] < 48 + base
  {
    if s == [] then 0 else Number(s[..|s| - 1], base) * base + (s[|s| - 1] - 48)
  }

  lemma NumberAppend(s: Bytes, digit: nat, base: nat)
    requires 2 <= base <= 10 && digit < base && IsDigits(s, base)
    ensures Number(s + [48 + digit], base) == Number(s, base) * base + digit
  {
  }

  lemma {:induction false} NumberOfDigits(n: nat, base: nat)
    requires base == 8 || base == 10
    ensures Number(Digits(n, base), base) == n
  {
    if n >= base {
      NumberOfDigits(n / base, base);
      NumberAppend(Digits(n / base, base), n % base, base);
    } else {
      assert Number([48 + n], base) == Number([], base) * base + n;
    }
  }

  lemma {:induction false} NumberPadded(k: nat, s: Bytes, base: nat)
    requires 2 <= base <= 10 && forall i :: 0 <= i < |s| ==> 48 <= s[i] < 48 + base
    ensures Number(seq(k, i => 48) + s, base) == Number(s, base)
    decreases k + |s|
  {
    var p: Bytes := seq(k, i => 48);
    if s != [] {
      assert (p + s)[..|p + s| - 1] == p + s[..|s| - 1];
      NumberPadded(k, s[..|s| - 1], base);
    } else if k > 0 {
      var q: Bytes := seq(k - 1, i => 48);
      assert (p + s)[..|p + s| - 1] == q + s;
      NumberPadded(k - 1, s, base);
    }
  }

  function Pow(b: nat, k: nat): nat {
    if k == 0 then 1 else b * Pow(b, k - 1)
  }

  /** A number below base^k has at most k digits. */
  lemma {:induction false} DigitsLength(n: nat, base: nat, k: nat)
    requires 2 <= base <= 10 && 1 <= k && n < Pow(base, k)
    ensures |Digits(n, base)| <= k
  {
    if n >= base {
      assert k > 1;
      assert n / base < Pow(base, k - 1);
      DigitsLength(n / base, base, k - 1);
    }
  }

  /** The digit count never decreases, and a number of at least two digits is
    * more than its digit count. */
  lemma {:induction false} DigitsMonotone(m: nat, n: nat)
    requires m <= n
    ensures |Digits(m, 10)| <= |Digits(n, 10)|
  {
    if m >= 10 {
      DigitsMonotone(m / 10, n / 10);
    }
  }

  lemma {:induction false} DigitsSmall(n: nat)
    ensures 2 * |Digits(n, 10)| <= n + 2
  {
    if n >= 10 {
      DigitsSmall(n / 10);
    }
  }

  lemma {:induction false} DigitsCanonical(n: nat)
    requires n > 0
    ensures Digits(n, 10)[0] != 48
  {
    if n >= 10 {
      DigitsCanonical(n / 10);
    }
  }

  // Big-endian binary numbers.

  function BigEndian(n: nat, k: nat): (s: Bytes)
    ensures |s| == k
  {
    if k == 0 then [] else BigEndian(n / 256, k - 1) + [n % 256]
  }

  /** The value of base-256 digits, or None once it would pass 2^53 - 1. */
  function Wide(s: Bytes): Option<nat> {
    if s == [] then Some(0)
    else
      match Wide(s[..|s| - 1])
      case None => None
      case Some(v) => if v > MAX_INTEGER / 256 then None else Some(v * 256 + s[|s| - 1])
  }

  lemma {:induction false} WideOfBigEndian(n: nat, k: nat)
    requires n < Pow(256, k) && n <= MAX_INTEGER
    ensures Wide(BigEndian(n, k)) == Some(n)
  {
    if k > 0 {
      assert n / 256 < Pow(256, k - 1);
      WideOfBigEndian(n / 256, k - 1);
      var s := BigEndian(n, k);
      assert s[..|s| - 1] == BigEndian(n / 256, k - 1);
    }
  }

  function Sum(s: Bytes): nat {
    if s == [] then 0 else Sum(s[..|s| - 1]) + s[|s| - 1]
  }

  lemma {:induction false} SumConcat(a: Bytes, b: Bytes)
    ensures Sum(a + b) == Sum(a) + Sum(b)
    decreases |b|
  {
    if b == [] {
      assert a + b == a;
    } else {
      assert (a + b)[..|a + b| - 1] == a + b[..|b| - 1];
      SumConcat(a, b[..|b| - 1]);
    }
  }

  lemma {:induction false} SumBound(s: Bytes)
    ensures Sum(s) <= 255 * |s|
  {
    if s != [] {
      SumBound(s[..|s| - 1]);
    }
  }
}
