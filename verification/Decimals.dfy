/**
 Decimal numerals: writing, reading, and comparing them as texts.
 */
module Decimals {
  predicate IsDigit(c: char) { '0' <= c <= '9' }

  predicate AllDigits(s: string) {
    s != "" && forall i | 0 <= i < |s| :: IsDigit(s[i])
  }

  function DigitValue(c: char): int { c as int - '0' as int }

  function Digits(n: nat): (r: string)
    ensures AllDigits(r)
  {
    if n < 10 then ['0' + n as char] else Digits(n / 10) + ['0' + (n % 10) as char]
  }

  function Number(s: string): int {
    if s == "" then 0 else 10 * Number(s[..|s| - 1]) + DigitValue(s[|s| - 1])
  }

  /** A numeral without needless zeros. */
  predicate Canonical(s: string) {
    AllDigits(s) && (s == "0" || s[0] != '0')
  }

  lemma {:induction false} NumberOfDigits(n: nat)
    ensures Number(Digits(n)) == n && Canonical(Digits(n)) && (n > 0 ==> Digits(n)[0] != '0')
  {
    var d := Digits(n);
    if n < 10 {
      assert d[..0] == "";
    } else {
      NumberOfDigits(n / 10);
      assert d[..|d| - 1] == Digits(n / 10);
      assert d[0] == Digits(n / 10)[0];
    }
  }

  lemma {:induction false} NumberPositive(s: string)
    requires s == "" || AllDigits(s)
    ensures Number(s) >= 0 && (Canonical(s) && s != "0" ==> Number(s) > 0)
  {
    if s != "" {
      var front := s[..|s| - 1];
      NumberPositive(front);
      assert IsDigit(s[|s| - 1]);
    }
  }

  /** A canonical numeral is the one its number is written as. */
  lemma {:induction false} DigitsOfNumber(s: string)
    requires Canonical(s)
    ensures Number(s) >= 0 && Digits(Number(s)) == s
  {
    NumberPositive(s);
    var k := |s| - 1;
    var front, last := s[..k], DigitValue(s[k]);
    assert IsDigit(s[k]) && s == front + [s[k]];
    if front == "" {
      assert Number(front) == 0;
    } else {
      assert Canonical(front);
      NumberPositive(front);
      assert front[0] == s[0] != '0';
      DigitsOfNumber(front);
      assert Number(s) / 10 == Number(front) && Number(s) % 10 == last;
    }
  }

  function Pow10(n: nat): nat
  {
    if n == 0 then 1 else 10 * Pow10(n - 1)
  }

  lemma {:induction false} Bounds(s: string)
    requires s == "" || AllDigits(s)
    ensures 0 <= Number(s) < Pow10(|s|)
    ensures s != "" && s[0] != '0' ==> Number(s) >= Pow10(|s| - 1)
  {
    if s != "" {
      var front := s[..|s| - 1];
      Bounds(front);
      assert IsDigit(s[|s| - 1]);
      if front != "" {
        assert front[0] == s[0];
      } else {
        assert Number(front) == 0 && IsDigit(s[0]);
      }
    }
  }

  lemma {:induction false} Pow10Grows(a: nat, b: nat)
    requires a <= b
    ensures Pow10(a) <= Pow10(b) && Pow10(a) > 0
    decreases b
  {
    if a < b {
      Pow10Grows(a, b - 1);
    } else if a > 0 {
      Pow10Grows(a - 1, b - 1);
    }
  }

  /** Python's order on strings: by the first difference, a proper prefix first. */
  predicate Less(a: string, b: string) {
    if b == "" then false
    else if a == "" then true
    else if a[0] != b[0] then a[0] < b[0]
    else Less(a[1..], b[1..])
  }

  /** The texts agree up to some place, where one ends or has the smaller character. */
  lemma {:induction false} LessMeans(a: string, b: string)
    ensures Less(a, b) <==>
            exists k: nat :: k <= |a| && k < |b| && a[..k] == b[..k] && (k == |a| || a[k] < b[k])
  {
    if a != "" && b != "" && a[0] == b[0] {
      LessMeans(a[1..], b[1..]);
      forall k: nat | k < |a| && k < |b|
        ensures a[..k + 1] == b[..k + 1] <==> a[1..][..k] == b[1..][..k]
      {
        assert a[..k + 1] == [a[0]] + a[1..][..k] && b[..k + 1] == [b[0]] + b[1..][..k];
      }
      if k: nat :| k <= |a[1..]| && k < |b[1..]| && a[1..][..k] == b[1..][..k] && (k == |a[1..]| || a[1..][k] < b[1..][k]) {
        assert k + 1 <= |a| && k + 1 < |b| && a[..k + 1] == b[..k + 1] && (k + 1 == |a| || a[k + 1] < b[k + 1]);
      }
      if k: nat :| k <= |a| && k < |b| && a[..k] == b[..k] && (k == |a| || a[k] < b[k]) {
        assert k > 0;
        assert a[..k - 1 + 1] == b[..k - 1 + 1];
        assert k == |a| || a[1..][k - 1] < b[1..][k - 1];
      }
    } else if b != "" {
      assert a[..0] == b[..0];
      if a != "" {
        forall k: nat | 0 < k <= |a| && k < |b|
          ensures a[..k] != b[..k]
        {
          assert a[..k][0] != b[..k][0];
        }
      }
    }
  }

  lemma {:induction false} LessTotal(a: string, b: string)
    ensures a == b || Less(a, b) || Less(b, a)
    ensures !(Less(a, b) && Less(b, a)) && !Less(a, a)
  {
    if a != "" && b != "" && a[0] == b[0] {
      LessTotal(a[1..], b[1..]);
      assert a == [a[0]] + a[1..] && b == [b[0]] + b[1..];
      LessTotal(a[1..], a[1..]);
    } else if a != "" {
      LessTotal(a[1..], a[1..]);
    }
  }

  lemma {:induction false} LessTransitive(a: string, b: string, c: string)
    requires Less(a, b) && Less(b, c)
    ensures Less(a, c)
  {
    if a != "" && a[0] == b[0] == c[0] {
      LessTransitive(a[1..], b[1..], c[1..]);
    }
  }

  lemma {:induction false} NumberFromLeft(s: string)
    requires s != ""
    ensures Number(s) == DigitValue(s[0]) * Pow10(|s| - 1) + Number(s[1..])
  {
    if |s| == 1 {
      assert s[..0] == "" && s[1..] == "";
    } else {
      hide DigitValue;
      var front, rest := s[..|s| - 1], s[1..];
      NumberFromLeft(front);
      var d, p := DigitValue(s[0]), Pow10(|s| - 2);
      assert front[1..] == rest[..|rest| - 1] && rest[|rest| - 1] == s[|s| - 1];
      assert Number(rest) == 10 * Number(rest[..|rest| - 1]) + DigitValue(rest[|rest| - 1]);
      assert d * (10 * p) == 10 * (d * p);
    }
  }

  /** Numerals of one length compare as their numbers do. */
  lemma {:induction false} SameLength(a: string, b: string)
    requires |a| == |b| && (a == "" || (AllDigits(a) && AllDigits(b)))
    ensures Less(a, b) <==> Number(a) < Number(b)
  {
    if a != "" {
      NumberFromLeft(a);
      NumberFromLeft(b);
      Bounds(a[1..]);
      Bounds(b[1..]);
      assert IsDigit(a[0]) && IsDigit(b[0]);
      SameLength(a[1..], b[1..]);
      hide Number, Pow10, AllDigits;
      var p := Pow10(|a| - 1);
      if a[0] < b[0] {
        Leads(DigitValue(a[0]), DigitValue(b[0]), p, Number(a[1..]), Number(b[1..]));
      } else if b[0] < a[0] {
        Leads(DigitValue(b[0]), DigitValue(a[0]), p, Number(b[1..]), Number(a[1..]));
      }
    }
  }

  /** A greater leading digit outweighs what follows. */
  lemma Leads(x: int, y: int, p: int, m: int, n: int)
    requires x < y && 0 <= m < p && 0 <= n
    ensures x * p + m < y * p + n
  {
    assert y * p == x * p + (y - x) * p;
    assert (y - x) * p >= p by {
      Times(y - x, p);
    }
  }

  lemma Times(k: int, p: int)
    requires k >= 1 && p >= 0
    ensures k * p >= p
  {
  }

  /** Length first, then the texts: the order of canonical numerals. */
  predicate ComparesBelow(a: string, b: string) {
    |a| < |b| || (|a| == |b| && Less(a, b))
  }

  lemma ComparesAsNumbers(a: string, b: string)
    requires Canonical(a) && Canonical(b)
    ensures ComparesBelow(a, b) <==> Number(a) < Number(b)
  {
    Bounds(a);
    Bounds(b);
    if |a| == |b| {
      SameLength(a, b);
    } else if |a| < |b| {
      Pow10Grows(|a|, |b| - 1);
      assert b[0] != '0';
    } else {
      Pow10Grows(|b|, |a| - 1);
      assert a[0] != '0';
    }
  }
}
