/** Decimal text as written by fmt's %d and read back by strconv.ParseInt. */
module Decimal {
  import opened Base

  predicate IsDigit(c: char) { '0' <= c <= '9' }

  function DigitChar(d: nat): (c: char)
    requires d < 10
    ensures IsDigit(c)
  {
    ('0' as int + d) as char
  }

  function DigitValue(c: char): nat
    requires IsDigit(c)
  {
    c as int - '0' as int
  }

  predicate AllDigits(s: string) { forall i :: 0 <= i < |s| ==> IsDigit(s[i]) }

  function Digits(n: nat): (s: string)
    ensures |s| > 0 && AllDigits(s)
  {
    if n < 10 then [DigitChar(n)] else Digits(n / 10) + [DigitChar(n % 10)]
  }

  function Value(s: string): nat
    requires AllDigits(s)
  {
    if s == [] then 0 else Value(s[..|s| - 1]) * 10 + DigitValue(s[|s| - 1])
  }

  function Itoa(n: int): string {
    if n < 0 then "-" + Digits(-n) else Digits(n)
  }

  /** ParseInt in base 10: optional sign, at least one digit, value inside [lo, hi]. */
  function ParseInt(s: string, lo: int, hi: int): Option<int> {
    var neg := |s| > 0 && s[0] == '-';
    var body := if |s| > 0 && (s[0] == '-' || s[0] == '+') then s[1..] else s;
    if body == [] || !AllDigits(body) then None
    else
      var magnitude: int := Value(body);
      var v := if neg then -magnitude else magnitude;
      if lo <= v <= hi then Some(v) else None
  }

  lemma {:induction false} ValueDigits(n: nat)
    ensures Value(Digits(n)) == n
  {
    var s := Digits(n);
    if n < 10 {
      assert s[..|s| - 1] == [];
    } else {
      ValueDigits(n / 10);
      assert s[..|s| - 1] == Digits(n / 10);
    }
  }

  /** Parsing what was printed gives the number back, for every number in range. */
  lemma ParsePrinted(n: int, lo: int, hi: int)
    requires lo <= n <= hi
    ensures ParseInt(Itoa(n), lo, hi) == Some(n)
  {
    if n < 0 {
      ValueDigits(-n);
      assert Itoa(n)[1..] == Digits(-n);
    } else {
      ValueDigits(n);
      assert IsDigit(Digits(n)[0]);
    }
  }

  /** A printed number never contains the separator of a composite key. */
  lemma PrintedHasNoColon(n: int)
    ensures ':' !in Itoa(n)
  {
    var s := Itoa(n);
    assert forall i :: 0 <= i < |s| ==> s[i] == '-' || IsDigit(s[i]);
  }

  /** The first colon splits a composite text in only one way. */
  lemma FirstColon(p: string, x: string, q: string, y: string)
    requires ':' !in p && ':' !in q
    requires p + ":" + x == q + ":" + y
    ensures p == q && x == y
  {
    var s, t := p + ":" + x, q + ":" + y;
    assert s[|p|] == ':' && t[|q|] == ':';
    assert forall i :: 0 <= i < |p| ==> s[i] == p[i] && p[i] != ':';
    assert forall i :: 0 <= i < |q| ==> t[i] == q[i] && q[i] != ':';
    assert p == s[..|p|] == t[..|q|] == q;
    assert x == s[|p| + 1..] == t[|q| + 1..] == y;
  }

  /** Two printed numbers joined by a colon determine both numbers. */
  lemma PairInjective(a: int, b: int, c: int, d: int)
    requires Itoa(a) + ":" + Itoa(b) == Itoa(c) + ":" + Itoa(d)
    ensures a == c && b == d
  {
    PrintedHasNoColon(a);
    PrintedHasNoColon(c);
    FirstColon(Itoa(a), Itoa(b), Itoa(c), Itoa(d));
    PrintInjective(a, c);
    PrintInjective(b, d);
  }

  lemma PrintInjective(a: int, b: int)
    requires Itoa(a) == Itoa(b)
    ensures a == b
  {
    var lo, hi := if a < b then a else b, if a < b then b else a;
    ParsePrinted(a, lo, hi);
    ParsePrinted(b, lo, hi);
  }
}
