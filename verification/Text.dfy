/** Strings as the source's keys use them: decimal numerals and colon-separated fields. */
module Text {

  function Digit(d: nat): (c: char)
    requires d < 10
    ensures '0' <= c <= '9'
  {
    ('0' as int + d) as char
  }

  /** `str(n)` for a non-negative integer. */
  function Decimal(n: nat): (s: string)
    ensures s != []
    ensures |s| == 1 <==> n < 10
    ensures forall c :: c in s ==> '0' <= c <= '9'
  {
    if n < 10 then [Digit(n)] else Decimal(n / 10) + [Digit(n % 10)]
  }

  /** Different numbers have different numerals. */
  lemma {:induction false} DecimalInjective(m: nat, n: nat)
    requires Decimal(m) == Decimal(n)
    ensures m == n
  {
    var s, t := Decimal(m), Decimal(n);
    assert s[|s| - 1] == Digit(m % 10) && t[|t| - 1] == Digit(n % 10);
    if m >= 10 {
      assert s[..|s| - 1] == Decimal(m / 10) && t[..|t| - 1] == Decimal(n / 10);
      DecimalInjective(m / 10, n / 10);
    }
  }

  /** A colon-free last field can be read back from a colon-separated key. */
  lemma SplitLast(a: string, b: string, s: string, t: string)
    requires a + ":" + s == b + ":" + t
    requires ':' !in s && ':' !in t
    ensures a == b && s == t
  {
    var k := a + ":" + s;
    assert k[|a|] == ':' && k[|b|] == ':';
    assert forall i :: |a| < i < |k| ==> k[i] == s[i - |a| - 1];
    assert forall i :: |b| < i < |k| ==> k[i] == t[i - |b| - 1];
    assert |a| == |b|;
    assert a == k[..|a|] && b == k[..|a|];
    assert s == k[|a| + 1..] && t == k[|a| + 1..];
  }

  /** A colon-free first field can be read back from a colon-separated key. */
  lemma SplitFirst(a: string, b: string, s: string, t: string)
    requires a + ":" + s == b + ":" + t
    requires ':' !in a && ':' !in b
    ensures a == b && s == t
  {
    var k := a + ":" + s;
    assert k[|a|] == ':' && k[|b|] == ':';
    assert forall i :: 0 <= i < |a| ==> k[i] == a[i];
    assert forall i :: 0 <= i < |b| ==> k[i] == b[i];
    assert |a| == |b|;
    assert a == k[..|a|] && b == k[..|a|];
    assert s == k[|a| + 1..] && t == k[|a| + 1..];
  }

  function LowerChar(c: char): char {
    if 'A' <= c <= 'Z' then (c as int - 'A' as int + 'a' as int) as char else c
  }

  /** `s.lower()` on ASCII text. */
  function Lower(s: string): (t: string)
    ensures |t| == |s| && forall i :: 0 <= i < |s| ==> t[i] == LowerChar(s[i])
  {
    if s == [] then [] else Lower(s[..|s| - 1]) + [LowerChar(s[|s| - 1])]
  }
}
