/** Python `str` operations the modelled code relies on: `split`/`join` on a
    single character, `str(int)` and `"%0Nd"` rendering, decimal parsing,
    ASCII case folding and code-point ordering. */
module Strings {

  // ---------------------------------------------------------------------
  // Splitting and joining on one separator character

  function Count(s: string, c: char): nat {
    if s == [] then 0 else (if s[0] == c then 1 else 0) + Count(s[1..], c)
  }

  lemma {:induction false} CountZeroIffAbsent(s: string, c: char)
    ensures Count(s, c) == 0 <==> c !in s
  {
    if s != [] {
      CountZeroIffAbsent(s[1..], c);
      assert s == [s[0]] + s[1..];
    }
  }

  /** Index of the first occurrence of `c` in `s`. */
  function IndexOf(s: string, c: char): (i: nat)
    requires c in s
    ensures i < |s| && s[i] == c && c !in s[..i]
  {
    if s[0] == c then 0 else 1 + IndexOf(s[1..], c)
  }

  function Join(parts: seq<string>, sep: char): string {
    if |parts| == 0 then ""
    else if |parts| == 1 then parts[0]
    else parts[0] + [sep] + Join(parts[1..], sep)
  }

  /** `s.split(sep)`: the pieces between occurrences of `sep`, always at
      least one (`"".split("-") == [""]`). */
  function Split(s: string, sep: char): (parts: seq<string>)
    ensures |parts| >= 1
    ensures forall i :: 0 <= i < |parts| ==> sep !in parts[i]
    ensures Join(parts, sep) == s
    decreases |s|
  {
    if sep !in s then [s]
    else
      var i := IndexOf(s, sep);
      var rest := Split(s[i + 1..], sep);
      assert s == s[..i] + [sep] + s[i + 1..];
      [s[..i]] + rest
  }

  /** The pieces of a split are one more than the separators in the string. */
  lemma {:induction false} SplitCount(s: string, sep: char)
    ensures |Split(s, sep)| == Count(s, sep) + 1
    decreases |s|
  {
    if sep !in s {
      CountZeroIffAbsent(s, sep);
    } else {
      var i := IndexOf(s, sep);
      SplitCount(s[i + 1..], sep);
      CountAppend(s[..i], [sep] + s[i + 1..], sep);
      CountAppend([sep], s[i + 1..], sep);
      CountZeroIffAbsent(s[..i], sep);
      assert s == s[..i] + ([sep] + s[i + 1..]);
    }
  }

  lemma {:induction false} CountAppend(a: string, b: string, c: char)
    ensures Count(a + b, c) == Count(a, c) + Count(b, c)
  {
    if a == [] {
      assert a + b == b;
    } else {
      CountAppend(a[1..], b, c);
      assert (a + b)[1..] == a[1..] + b;
    }
  }

  /** Splitting a join of separator-free pieces gives the pieces back. */
  lemma {:induction false} SplitJoin(parts: seq<string>, sep: char)
    requires |parts| >= 1
    requires forall i :: 0 <= i < |parts| ==> sep !in parts[i]
    ensures Split(Join(parts, sep), sep) == parts
  {
    if |parts| > 1 {
      var s := Join(parts, sep);
      SplitJoin(parts[1..], sep);
      assert s == parts[0] + [sep] + Join(parts[1..], sep);
      assert s[|parts[0]|] == sep;
      assert s[..|parts[0]|] == parts[0];
      var i := IndexOf(s, sep);
      assert sep !in s[..|parts[0]|];
      assert i == |parts[0]|;
      assert s[i + 1..] == Join(parts[1..], sep);
    }
  }

  // ---------------------------------------------------------------------
  // Decimal digits

  function DigitChar(d: nat): char
    requires d < 10
  {
    "0123456789"[d]
  }

  predicate IsDigit(c: char) {
    '0' <= c <= '9'
  }

  function DigitValue(c: char): nat
    requires IsDigit(c)
  {
    (c as int - '0' as int) as nat
  }

  predicate AllDigits(s: string) {
    forall i :: 0 <= i < |s| ==> IsDigit(s[i])
  }

  /** Python `str(n)` for a natural number. */
  function NatToString(n: nat): (s: string)
    ensures |s| >= 1 && AllDigits(s)
  {
    if n < 10 then [DigitChar(n)] else NatToString(n / 10) + [DigitChar(n % 10)]
  }

  /** Python `str(i)` for any integer. */
  function IntToString(i: int): string {
    if i < 0 then "-" + NatToString(-i) else NatToString(i)
  }

  /** The value of a string of decimal digits (`int(s)` for such strings). */
  function ParseDigits(s: string): nat
    requires AllDigits(s)
  {
    if s == [] then 0 else ParseDigits(s[..|s| - 1]) * 10 + DigitValue(s[|s| - 1])
  }

  lemma {:induction false} ParseNatToString(n: nat)
    ensures ParseDigits(NatToString(n)) == n
  {
    if n >= 10 {
      ParseNatToString(n / 10);
      var s := NatToString(n);
      assert s[..|s| - 1] == NatToString(n / 10);
    }
  }

  function Pow10(k: nat): nat {
    if k == 0 then 1 else 10 * Pow10(k - 1)
  }

  lemma {:induction false} NatToStringLength(n: nat, w: nat)
    requires w >= 1 && n < Pow10(w)
    ensures |NatToString(n)| <= w
  {
    if n >= 10 {
      NatToStringLength(n / 10, w - 1);
    }
  }

  lemma {:induction false} NatToStringLengthMonotone(m: nat, n: nat)
    requires m <= n
    ensures |NatToString(m)| <= |NatToString(n)|
  {
    if m >= 10 {
      NatToStringLengthMonotone(m / 10, n / 10);
    }
  }

  /** Within a range of integers the widest rendering is at an endpoint
      (a minus sign counts as a character). */
  lemma IntToStringWidthBetween(a: int, x: int, b: int)
    requires a <= x <= b
    ensures |IntToString(x)| <= |IntToString(a)| || |IntToString(x)| <= |IntToString(b)|
  {
    if x >= 0 {
      NatToStringLengthMonotone(x, b);
      assert |IntToString(x)| <= |IntToString(b)| by {
        hide NatToString;
      }
    } else {
      NatToStringLengthMonotone(-x, -a);
      assert |IntToString(x)| <= |IntToString(a)| by {
        hide NatToString;
      }
    }
  }

  function Repeat(c: char, k: nat): (s: string)
    ensures |s| == k
    ensures forall i :: 0 <= i < k ==> s[i] == c
  {
    if k == 0 then "" else Repeat(c, k - 1) + [c]
  }

  /** `"%0{w}d" % n` for a natural number: padded with leading zeros to at
      least `w` characters, never truncated. */
  function ZeroPadded(n: nat, w: nat): (s: string)
    ensures AllDigits(s)
    ensures |s| == if |NatToString(n)| < w then w else |NatToString(n)|
  {
    var digits := NatToString(n);
    Repeat('0', if |digits| < w then w - |digits| else 0) + digits
  }

  /** `"%0{w}d" % i`: a negative value keeps its sign in front of the zeros. */
  function PercentD0(i: int, w: nat): string {
    if i < 0 then "-" + ZeroPadded(-i, if w >= 1 then w - 1 else 0) else ZeroPadded(i, w)
  }

  /** `"%{w}d" % i`: right-aligned in a field of at least `w` characters. */
  function PercentD(i: int, w: nat): (s: string)
    ensures |s| == if |IntToString(i)| < w then w else |IntToString(i)|
  {
    var digits := IntToString(i);
    Repeat(' ', if |digits| < w then w - |digits| else 0) + digits
  }

  lemma {:induction false} ParseDigitsAppend(a: string, b: string)
    requires AllDigits(a) && AllDigits(b)
    ensures AllDigits(a + b)
    ensures ParseDigits(a + b) == ParseDigits(a) * Pow10(|b|) + ParseDigits(b)
    decreases |b|
  {
    assert AllDigits(a + b);
    if b == [] {
      assert a + b == a;
    } else {
      var b' := b[..|b| - 1];
      var d := DigitValue(b[|b| - 1]);
      assert (a + b)[..|a + b| - 1] == a + b';
      assert (a + b)[|a + b| - 1] == b[|b| - 1];
      ParseDigitsAppend(a, b');
      var pa, pb', p := ParseDigits(a), ParseDigits(b'), Pow10(|b'|);
      assert ParseDigits(a + b) == (pa * p + pb') * 10 + d;
      assert ParseDigits(b) == pb' * 10 + d;
      assert Pow10(|b|) == p * 10;
      ShiftDigit(pa, p, pb', d);
    }
  }

  lemma ShiftDigit(x: int, p: int, y: int, d: int)
    ensures (x * p + y) * 10 + d == x * (p * 10) + (y * 10 + d)
  {
  }

  lemma {:induction false} ParseZeros(k: nat)
    ensures ParseDigits(Repeat('0', k)) == 0
  {
    if k > 0 {
      ParseZeros(k - 1);
      assert Repeat('0', k)[..k - 1] == Repeat('0', k - 1);
    }
  }

  /** Zero padding is undone by reading the digits back. */
  lemma ParseZeroPadded(n: nat, w: nat)
    ensures ParseDigits(ZeroPadded(n, w)) == n
  {
    var digits := NatToString(n);
    var zeros := Repeat('0', if |digits| < w then w - |digits| else 0);
    assert ZeroPadded(n, w) == zeros + digits;
    ParseDigitsAppend(zeros, digits);
    ParseZeros(|zeros|);
    assert ParseDigits(zeros) * Pow10(|digits|) == 0;
    ParseNatToString(n);
  }

  lemma ZeroPaddedWidth(n: nat, w: nat)
    requires w >= 1 && n < Pow10(w)
    ensures |ZeroPadded(n, w)| == w
  {
    NatToStringLength(n, w);
  }

  // ---------------------------------------------------------------------
  // Case folding and character replacement

  function LowerChar(c: char): char {
    if 'A' <= c <= 'Z' then (c as int - 'A' as int + 'a' as int) as char else c
  }

  /** `s.lower()` restricted to ASCII letters. */
  function LowerAscii(s: string): (r: string)
    ensures |r| == |s|
    ensures forall i :: 0 <= i < |s| ==> r[i] == LowerChar(s[i])
  {
    if s == [] then "" else [LowerChar(s[0])] + LowerAscii(s[1..])
  }

  /** `s.replace(a, b)` for single characters. */
  function ReplaceChar(s: string, a: char, b: char): (r: string)
    ensures |r| == |s|
    ensures forall i :: 0 <= i < |s| ==> r[i] == (if s[i] == a then b else s[i])
  {
    if s == [] then "" else [if s[0] == a then b else s[0]] + ReplaceChar(s[1..], a, b)
  }

  // ---------------------------------------------------------------------
  // Code-point ordering of strings (Python's `<` on `str`)

  predicate Less(a: string, b: string) {
    if |a| == 0 then |b| > 0
    else if |b| == 0 then false
    else a[0] < b[0] || (a[0] == b[0] && Less(a[1..], b[1..]))
  }

  predicate LessEq(a: string, b: string) {
    a == b || Less(a, b)
  }

  lemma {:induction false} LessIrreflexive(a: string)
    ensures !Less(a, a)
  {
    if |a| > 0 {
      LessIrreflexive(a[1..]);
    }
  }

  lemma {:induction false} LessTransitive(a: string, b: string, c: string)
    requires Less(a, b) && Less(b, c)
    ensures Less(a, c)
  {
    if |a| > 0 && |b| > 0 && |c| > 0 && a[0] == b[0] == c[0] {
      LessTransitive(a[1..], b[1..], c[1..]);
    }
  }

  lemma {:induction false} LessTotal(a: string, b: string)
    ensures a == b || Less(a, b) || Less(b, a)
  {
    if |a| > 0 && |b| > 0 && a[0] == b[0] {
      LessTotal(a[1..], b[1..]);
      if a[1..] == b[1..] {
        assert a == [a[0]] + a[1..] && b == [b[0]] + b[1..];
      }
    }
  }

  lemma LessAsymmetric(a: string, b: string)
    requires Less(a, b)
    ensures !Less(b, a)
  {
    if Less(b, a) {
      LessTransitive(a, b, a);
      LessIrreflexive(a);
    }
  }
}
