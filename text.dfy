/** Decimal text of integers, as Python's `str`, JavaScript's `toString` and Go's `%d`
    write it, and the ordering Python uses to compare strings. */
module Text {

  predicate IsDigit(c: char) {
    '0' <= c <= '9'
  }

  function DigitChar(d: nat): (c: char)
    requires d < 10
    ensures IsDigit(c)
  {
    ('0' as int + d) as char
  }

  function DigitValue(c: char): int {
    c as int - '0' as int
  }

  /** The shortest decimal digits of `n`. */
  function NatToString(n: nat): (s: string)
    ensures |s| > 0
    ensures forall k :: 0 <= k < |s| ==> IsDigit(s[k])
  {
    if n < 10 then [DigitChar(n)] else NatToString(n / 10) + [DigitChar(n % 10)]
  }

  /** `str(i)` in Python, `i.toString()` in JavaScript, `fmt.Sprintf("%d", i)` in Go. */
  function IntToString(i: int): string {
    if i < 0 then "-" + NatToString(-i) else NatToString(i)
  }

  function ParseNat(s: string): int {
    if |s| == 0 then 0 else ParseNat(s[..|s| - 1]) * 10 + DigitValue(s[|s| - 1])
  }

  function ParseInt(s: string): int {
    if |s| > 0 && s[0] == '-' then -ParseNat(s[1..]) else ParseNat(s)
  }

  lemma {:induction false} NatRoundTrip(n: nat)
    ensures ParseNat(NatToString(n)) == n
  {
    if n >= 10 {
      var s := NatToString(n);
      assert s[..|s| - 1] == NatToString(n / 10);
      NatRoundTrip(n / 10);
    }
  }

  /** Reading back the text of an integer gives the integer. */
  lemma IntRoundTrip(i: int)
    ensures ParseInt(IntToString(i)) == i
  {
    if i < 0 {
      var s := IntToString(i);
      assert s[1..] == NatToString(-i);
      NatRoundTrip(-i);
    } else {
      NatRoundTrip(i);
    }
  }

  lemma IntToStringInjective(a: int, b: int)
    requires IntToString(a) == IntToString(b)
    ensures a == b
  {
    IntRoundTrip(a);
    IntRoundTrip(b);
  }

  lemma IntToStringHasNoBar(i: int)
    ensures '|' !in IntToString(i)
  {
    var s := NatToString(if i < 0 then -i else i);
    assert forall k :: 0 <= k < |s| ==> s[k] != '|';
  }

  /** Python's `a < b` on strings: lexicographic by code point, a proper prefix first. */
  predicate Below(a: string, b: string) {
    if |a| == 0 then |b| > 0
    else if |b| == 0 then false
    else if a[0] != b[0] then a[0] < b[0]
    else Below(a[1..], b[1..])
  }

  lemma BelowIrreflexive(a: string)
    ensures !Below(a, a)
  {
  }

  lemma BelowTransitive(a: string, b: string, c: string)
    requires Below(a, b) && Below(b, c)
    ensures Below(a, c)
  {
    if |a| > 0 && |b| > 0 && |c| > 0 && a[0] == b[0] == c[0] {
      BelowTransitive(a[1..], b[1..], c[1..]);
    }
  }

  lemma BelowTotal(a: string, b: string)
    ensures a == b || Below(a, b) || Below(b, a)
  {
    if |a| > 0 && |b| > 0 && a[0] == b[0] {
      BelowTotal(a[1..], b[1..]);
      if a[1..] == b[1..] {
        assert a == [a[0]] + a[1..] && b == [b[0]] + b[1..];
      }
    }
  }

  lemma BelowAsymmetric(a: string, b: string)
    requires Below(a, b)
    ensures !Below(b, a)
  {
    if |a| > 0 && |b| > 0 && a[0] == b[0] {
      BelowAsymmetric(a[1..], b[1..]);
    }
  }
}
