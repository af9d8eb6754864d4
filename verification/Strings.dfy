// Go's byte-wise string order, decimal digit strings, and splitting at an underscore.
module Strings {
  import opened Common

  predicate StrLeq(a: string, b: string) {
    a == "" || (b != "" && (a[0] < b[0] || (a[0] == b[0] && StrLeq(a[1..], b[1..]))))
  }

  // a < b in Go.
  predicate StrLess(a: string, b: string) { StrLeq(a, b) && a != b }

  lemma {:induction false} StrLeqReflexive(a: string)
    ensures StrLeq(a, a)
  {
    if a != "" { StrLeqReflexive(a[1..]); }
  }

  lemma {:induction false} StrLeqTotal(a: string, b: string)
    ensures StrLeq(a, b) || StrLeq(b, a)
    ensures StrLeq(a, b) && StrLeq(b, a) ==> a == b
  {
    if a != "" && b != "" {
      StrLeqTotal(a[1..], b[1..]);
      assert a == [a[0]] + a[1..] && b == [b[0]] + b[1..];
    }
  }

  lemma {:induction false} StrLeqTransitive(a: string, b: string, c: string)
    requires StrLeq(a, b) && StrLeq(b, c)
    ensures StrLeq(a, c)
  {
    if a != "" && b != "" && c != "" && a[0] == b[0] == c[0] {
      StrLeqTransitive(a[1..], b[1..], c[1..]);
    }
  }

  // The byte-wise order is total and antisymmetric, so sorting by it is well defined up to ties.
  lemma StrLeqIsTotalOrder()
    ensures TotalOrder(StrLeq)
  {
    forall a: string ensures StrLeq(a, a) { StrLeqReflexive(a); }
    forall a: string, b: string
      ensures StrLeq(a, b) || StrLeq(b, a)
      ensures StrLeq(a, b) && StrLeq(b, a) ==> a == b
    { StrLeqTotal(a, b); }
    forall a: string, b: string, c: string | StrLeq(a, b) && StrLeq(b, c) ensures StrLeq(a, c) {
      StrLeqTransitive(a, b, c);
    }
  }

  lemma IntLeqIsTotalOrder()
    ensures TotalOrder(IntLeq)
  {
  }

  // Strings made of equally long first fields compare field by field.
  lemma {:induction false} StrLessFields(a: string, b: string, x: string, y: string)
    requires |a| == |b|
    ensures StrLess(a + x, b + y) <==> StrLess(a, b) || (a == b && StrLess(x, y))
  {
    if a == "" {
      assert a + x == x && b + y == y;
    } else {
      StrLessFields(a[1..], b[1..], x, y);
      assert (a + x)[1..] == a[1..] + x && (b + y)[1..] == b[1..] + y;
      assert a == [a[0]] + a[1..] && b == [b[0]] + b[1..];
      assert a + x == [a[0]] + (a[1..] + x) && b + y == [b[0]] + (b[1..] + y);
    }
  }

  // ---------- decimal digits ----------

  predicate IsDigit(c: char) { '0' <= c <= '9' }

  predicate AllDigits(s: string) { forall i :: 0 <= i < |s| ==> IsDigit(s[i]) }

  function DigitValue(c: char): nat
    requires IsDigit(c)
  {
    c as int - '0' as int
  }

  function DigitChar(n: nat): (c: char)
    requires n < 10
    ensures IsDigit(c) && DigitValue(c) == n
  {
    (n + '0' as int) as char
  }

  function Pow10(n: nat): (p: nat)
    ensures p > 0
  {
    if n == 0 then 1 else 10 * Pow10(n - 1)
  }

  function Number(s: string): nat
    requires AllDigits(s)
  {
    if s == "" then 0 else 10 * Number(s[..|s| - 1]) + DigitValue(s[|s| - 1])
  }

  // n printed with exactly w digits.
  function Digits(n: nat, w: nat): (s: string)
    ensures |s| == w && AllDigits(s)
    ensures n < Pow10(w) ==> Number(s) == n
  {
    if w == 0 then "" else
      var front := Digits(n / 10, w - 1);
      assert (front + [DigitChar(n % 10)])[..w - 1] == front;
      front + [DigitChar(n % 10)]
  }

  lemma {:induction false} NumberBound(s: string)
    requires AllDigits(s)
    ensures Number(s) < Pow10(|s|)
  {
    if s != "" { NumberBound(s[..|s| - 1]); }
  }

  // Printing reads back what was printed, and reading prints back what was read.
  lemma {:induction false} DigitsOfNumber(s: string)
    requires AllDigits(s)
    ensures Digits(Number(s), |s|) == s
  {
    if s != "" {
      var front := s[..|s| - 1];
      DigitsOfNumber(front);
      assert Number(s) / 10 == Number(front) && Number(s) % 10 == DigitValue(s[|s| - 1]);
      assert s == front + [s[|s| - 1]];
    }
  }

  lemma {:induction false} NumberHead(s: string)
    requires AllDigits(s) && s != ""
    ensures Number(s) == DigitValue(s[0]) * Pow10(|s| - 1) + Number(s[1..])
  {
    if |s| == 1 {
      assert s[..0] == "" && s[1..] == "";
    } else {
      var front := s[..|s| - 1];
      NumberHead(front);
      assert s[1..][..|s| - 2] == front[1..];
      assert Pow10(|s| - 1) == 10 * Pow10(|s| - 2);
      TenTimes(DigitValue(s[0]), Pow10(|s| - 2), Number(front[1..]));
    }
  }

  lemma TenTimes(d: nat, p: nat, r: nat)
    ensures 10 * (d * p + r) == d * (10 * p) + 10 * r
  {
  }

  lemma LeadingDigitDominates(da: nat, db: nat, p: nat, x: nat, y: nat)
    requires da < db && x < p
    ensures da * p + x < db * p + y
  {
    assert (da + 1) * p <= db * p;
  }

  // Digit strings of one length order as strings exactly as they order as numbers.
  lemma {:induction false} DigitStringsOrderNumerically(a: string, b: string)
    requires AllDigits(a) && AllDigits(b) && |a| == |b|
    ensures StrLess(a, b) <==> Number(a) < Number(b)
    ensures a == b <==> Number(a) == Number(b)
  {
    if a != "" {
      var a', b' := a[1..], b[1..];
      DigitStringsOrderNumerically(a', b');
      NumberHead(a); NumberHead(b);
      NumberBound(a'); NumberBound(b');
      StrLessFields([a[0]], [b[0]], a', b');
      assert a == [a[0]] + a' && b == [b[0]] + b';
      if DigitValue(a[0]) < DigitValue(b[0]) {
        LeadingDigitDominates(DigitValue(a[0]), DigitValue(b[0]), Pow10(|a'|), Number(a'), Number(b'));
      } else if DigitValue(b[0]) < DigitValue(a[0]) {
        LeadingDigitDominates(DigitValue(b[0]), DigitValue(a[0]), Pow10(|a'|), Number(b'), Number(a'));
      }
    }
  }

  predicate NoLeadingZero(s: string) { s != "" && AllDigits(s) && (s[0] == '0' ==> |s| == 1) }

  lemma {:induction false} Pow10Monotone(m: nat, n: nat)
    requires m <= n
    ensures Pow10(m) <= Pow10(n)
  {
    if m < n { Pow10Monotone(m, n - 1); }
  }

  // Without leading zeros, more digits means a larger number.
  lemma MoreDigitsIsLarger(a: string, b: string)
    requires NoLeadingZero(a) && NoLeadingZero(b) && |a| < |b|
    ensures Number(a) < Number(b)
  {
    NumberBound(a);
    Pow10Monotone(|a|, |b| - 1);
    NumberHead(b);
    LeadingDigitDominates(0, DigitValue(b[0]), Pow10(|b| - 1), Number(a), Number(b[1..]));
  }

  // ---------- underscores ----------

  // The last underscore of a string whose tail has none separates head and tail uniquely.
  lemma LastUnderscoreSplits(a: string, b: string, x: string, y: string)
    requires '_' !in x && '_' !in y
    requires a + "_" + x == b + "_" + y
    ensures a == b && x == y
  {
    var s, t := a + "_" + x, b + "_" + y;
    assert s[|a|] == '_' && t[|b|] == '_';
    assert forall i :: |a| < i < |s| ==> s[i] != '_';
    assert forall i :: |b| < i < |t| ==> t[i] != '_';
    assert |a| == |b|;
    assert s[..|a|] == a && t[..|b|] == b;
    assert s[|a| + 1..] == x && t[|b| + 1..] == y;
  }

  lemma SuffixDecides(a: string, x: string, b: string, y: string)
    requires |x| == |y| && a + x == b + y
    ensures a == b && x == y
  {
    assert |a| == |b|;
    assert (a + x)[..|a|] == a && (b + y)[..|b|] == b;
    assert (a + x)[|a|..] == x && (b + y)[|b|..] == y;
  }

  predicate HasSuffix(s: string, suffix: string) {
    |suffix| <= |s| && s[|s| - |suffix|..] == suffix
  }

  // strings.TrimSuffix
  function TrimSuffix(s: string, suffix: string): string {
    if HasSuffix(s, suffix) then s[..|s| - |suffix|] else s
  }
}
