/** Decimal numerals as the program prints them, and the names built from them. */
module Text {

  function DigitChar(d: nat): (c: char)
    requires d < 10
    ensures DigitValue(c) == d && IsDigit(c)
  {
    '0' + d as char
  }

  predicate IsDigit(c: char) {
    '0' <= c <= '9'
  }

  function DigitValue(c: char): nat {
    if IsDigit(c) then (c - '0') as nat else 0
  }

  /** The number a digit string denotes. */
  function Value(s: string): nat {
    if s == "" then 0 else 10 * Value(s[..|s| - 1]) + DigitValue(s[|s| - 1])
  }

  /** Decimal text of a natural number, without leading zeros. */
  function Decimal(n: nat): (s: string)
    ensures s != ""
    ensures forall i :: 0 <= i < |s| ==> IsDigit(s[i])
    ensures Value(s) == n
    ensures n == 0 ==> s == "0"
    ensures n > 0 ==> s[0] != '0'
  {
    if n < 10 then [DigitChar(n)]
    else
      var s := Decimal(n / 10) + [DigitChar(n % 10)];
      assert s[..|s| - 1] == Decimal(n / 10);
      s
  }

  /** `wgp<N>`, the interface of peer N. The number can be read back. */
  function IfaceName(n: nat): (s: string)
    ensures "wgp" <= s && IfaceId(s) == n && |s| > 3 && (s[3] == '0' ==> s == "wgp0")
  {
    var s := "wgp" + Decimal(n);
    assert s[3..] == Decimal(n);
    s
  }

  function IfaceId(s: string): nat {
    if |s| < 3 then 0 else Value(s[3..])
  }

  /** `wgp<N>.conf`, the BIRD fragment of peer N. */
  function ConfName(n: nat): (s: string)
    ensures ConfId(s) == n && |s| > 5 && "wgp" <= s && s[|s| - 5..] == ".conf"
  {
    var s := IfaceName(n) + ".conf";
    assert s[..|s| - 5] == IfaceName(n);
    s
  }

  function ConfId(s: string): nat {
    if |s| < 5 then 0 else IfaceId(s[..|s| - 5])
  }

  /** Decimal text of a signed number. */
  function Integer(n: int): (s: string)
    ensures SignedValue(s) == n
    ensures forall i :: 0 <= i < |s| ==> IsDigit(s[i]) || s[i] == '-'
  {
    if n < 0 then
      var s := "-" + Decimal(-n);
      assert s[1..] == Decimal(-n);
      s
    else Decimal(n)
  }

  function SignedValue(s: string): int {
    if s != "" && s[0] == '-' then -(Value(s[1..]) as int) else Value(s)
  }

  /** Cutting at the first separator. */
  lemma FirstCut(a: string, x: string, b: string, y: string, sep: char)
    requires sep !in a && sep !in b && a + [sep] + x == b + [sep] + y
    ensures a == b && x == y
  {
    var s := a + [sep] + x;
    assert s[|a|] == sep && s[|b|] == sep;
    assert forall i :: 0 <= i < |a| ==> s[i] == a[i];
    assert forall i :: 0 <= i < |b| ==> s[i] == b[i];
    assert |a| == |b|;
    assert a == s[..|a|] == b;
    assert x == s[|a| + 1..] == y;
  }

  /** Cutting at the last separator. */
  lemma LastCut(a: string, x: string, b: string, y: string, sep: char)
    requires sep !in x && sep !in y && a + [sep] + x == b + [sep] + y
    ensures a == b && x == y
  {
    var s := a + [sep] + x;
    assert s[|a|] == sep && s[|b|] == sep;
    assert forall i :: |a| < i < |s| ==> s[i] == x[i - |a| - 1];
    assert forall i :: |b| < i < |s| ==> s[i] == y[i - |b| - 1];
    assert |a| == |b|;
    assert a == s[..|a|] == b;
    assert x == s[|a| + 1..] == y;
  }

  lemma SamePrefix(p: string, a: string, b: string)
    requires p + a == p + b
    ensures a == b
  {
    assert a == (p + a)[|p|..] == (p + b)[|p|..] == b;
  }
}
