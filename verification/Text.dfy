/** Facts about the strings that the components build names from. */
module Text {

  /** Text before the first separator, and after it, can be read back. */
  lemma SplitIsUnique(a: string, b: string, c: string, d: string, sep: char)
    requires sep !in a && sep !in c
    requires a + [sep] + b == c + [sep] + d
    ensures a == c && b == d
  {
    var s := a + [sep] + b;
    assert s[|a|] == sep && s[|c|] == sep;
    assert forall i :: 0 <= i < |a| ==> s[i] == a[i] != sep;
    assert forall i :: 0 <= i < |c| ==> s[i] == c[i] != sep;
    assert |a| == |c|;
    assert a == s[..|a|] == c;
    assert b == s[|a| + 1..] == d;
  }

  /** Text before the last separator, and after it, can be read back. */
  lemma SplitLastIsUnique(a: string, b: string, c: string, d: string, sep: char)
    requires sep !in b && sep !in d
    requires a + [sep] + b == c + [sep] + d
    ensures a == c && b == d
  {
    var s := a + [sep] + b;
    assert s[|a|] == sep && s[|c|] == sep;
    assert forall i :: |a| < i < |s| ==> s[i] == b[i - |a| - 1] != sep;
    assert forall i :: |c| < i < |s| ==> s[i] == d[i - |c| - 1] != sep;
    assert |a| == |c|;
    assert a == s[..|a|] == c;
    assert b == s[|a| + 1..] == d;
  }

  const DIGITS := "0123456789"

  function Decimal(n: nat): (s: string)
    ensures |s| > 0 && forall c :: c in s ==> c in DIGITS
  {
    (if n < 10 then "" else Decimal(n / 10)) + [DIGITS[n % 10]]
  }

  function DigitValue(c: char): nat {
    if '0' <= c <= '9' then (c as int) - ('0' as int) else 0
  }

  function ParseDecimal(s: string): nat {
    if s == "" then 0 else 10 * ParseDecimal(s[..|s| - 1]) + DigitValue(s[|s| - 1])
  }

  lemma {:induction false} DecimalRoundTrip(n: nat)
    ensures ParseDecimal(Decimal(n)) == n
  {
    var s := Decimal(n);
    assert DigitValue(DIGITS[n % 10]) == n % 10;
    if n < 10 {
      assert s == [DIGITS[n]] && s[..0] == "";
    } else {
      assert s[..|s| - 1] == Decimal(n / 10);
      DecimalRoundTrip(n / 10);
    }
  }
}
