/**
 Bounds on numerals decided without arithmetic: the generated pattern of trace-window
 bounds, the reading and writing of those bounds, and the sample limit of NVBench.
 */
module BoundedNumerals {
  import opened Results
  import opened Decimals

  const WINDOW_MAX: nat := 0x7FFF_FFFF_FFFF_FFFF
  const WINDOW_MAX_TEXT := "9223372036854775807"
  const MAX_SAFE_JSON: nat := 0x1F_FFFF_FFFF_FFFF
  const MAX_SAMPLES: nat := 1_000_000
  const MAX_SAMPLES_TEXT := "1000000"

  lemma Next(s: string, c: char, t: string)
    requires t == s + [c]
    ensures Number(t) == 10 * Number(s) + DigitValue(c)
  {
    assert t[..|t| - 1] == s;
  }

  lemma WindowFront()
    ensures Number("9223372") == 9223372
  {
    hide Number;
    NothingIsZero();
    Next("", '9', "9");
    Next("9", '2', "92");
    Next("92", '2', "922");
    Next("922", '3', "9223");
    Next("9223", '3', "92233");
    Next("92233", '7', "922337");
    Next("922337", '2', "9223372");
  }

  lemma WindowMiddle()
    ensures Number("9223372036854") == 9223372036854
  {
    hide Number;
    WindowFront();
    Next("9223372", '0', "92233720");
    Next("92233720", '3', "922337203");
    Next("922337203", '6', "9223372036");
    Next("9223372036", '8', "92233720368");
    Next("92233720368", '5', "922337203685");
    Next("922337203685", '4', "9223372036854");
  }

  lemma WindowMaximum()
    ensures Canonical(WINDOW_MAX_TEXT) && Number(WINDOW_MAX_TEXT) == WINDOW_MAX
  {
    hide Number;
    WindowMiddle();
    Next("9223372036854", '7', "92233720368547");
    Next("92233720368547", '7', "922337203685477");
    Next("922337203685477", '5', "9223372036854775");
    Next("9223372036854775", '8', "92233720368547758");
    Next("92233720368547758", '0', "922337203685477580");
    Next("922337203685477580", '7', "9223372036854775807");
  }

  lemma NothingIsZero()
    ensures Number("") == 0
  {
  }

  lemma SamplesMaximum()
    ensures Canonical(MAX_SAMPLES_TEXT) && Number(MAX_SAMPLES_TEXT) == MAX_SAMPLES
  {
    hide Number;
    NothingIsZero();
    Next("", '1', "1");
    Next("1", '0', "10");
    Next("10", '0', "100");
    Next("100", '0', "1000");
    Next("1000", '0', "10000");
    Next("10000", '0', "100000");
    Next("100000", '0', "1000000");
  }

  /** The two limits as the code spells them. */
  lemma Maxima()
    ensures Canonical(WINDOW_MAX_TEXT) && Number(WINDOW_MAX_TEXT) == WINDOW_MAX
    ensures Canonical(MAX_SAMPLES_TEXT) && Number(MAX_SAMPLES_TEXT) == MAX_SAMPLES
  {
    WindowMaximum();
    SamplesMaximum();
  }

  /** The least digit an alternative may have at an index: no leading zero. */
  function Least(index: nat): int { if index == 0 then 1 else 0 }

  /** One generated alternative: the maximum up to an index, a smaller digit there, and
      any digits behind. */
  predicate Alternative(s: string, maximum: string, index: nat)
    requires index < |maximum|
  {
    && DigitValue(maximum[index]) > Least(index)
    && |s| == |maximum| && s[..index] == maximum[..index]
    && Least(index) <= DigitValue(s[index]) <= DigitValue(maximum[index]) - 1
    && forall i | index < i < |s| :: IsDigit(s[i])
  }

  /** The generated pattern. */
  predicate Pattern(s: string, maximum: string) {
    || s == "0"
    || (1 <= |s| < |maximum| && '1' <= s[0] <= '9' && forall i | 0 < i < |s| :: IsDigit(s[i]))
    || (exists index | 0 <= index < |maximum| :: Alternative(s, maximum, index))
    || s == maximum
  }

  lemma {:induction false} FirstDifference(a: string, b: string) returns (index: nat)
    requires |a| == |b| && Less(a, b)
    ensures index < |a| && a[..index] == b[..index] && a[index] < b[index]
  {
    if a[0] != b[0] {
      index := 0;
    } else {
      var k := FirstDifference(a[1..], b[1..]);
      index := k + 1;
      assert a[..index] == [a[0]] + a[1..][..k] && b[..index] == [b[0]] + b[1..][..k];
    }
  }

  lemma {:induction false} LessAt(a: string, b: string, index: nat)
    requires index < |a| == |b| && a[..index] == b[..index] && a[index] < b[index]
    ensures Less(a, b)
  {
    if index > 0 {
      assert a[0] == a[..index][0] == b[..index][0] == b[0];
      assert a[1..][..index - 1] == a[..index][1..] && b[1..][..index - 1] == b[..index][1..];
      LessAt(a[1..], b[1..], index - 1);
    }
  }

  lemma AlternativeIsLess(s: string, maximum: string, index: nat)
    requires Canonical(maximum) && |maximum| >= 2 && index < |maximum|
    requires Alternative(s, maximum, index)
    ensures Canonical(s) && Less(s, maximum)
  {
    LessAt(s, maximum, index);
    forall i | 0 <= i < |s|
      ensures IsDigit(s[i])
    {
      if i < index {
        assert s[i] == s[..index][i] == maximum[..index][i] == maximum[i];
      } else if i == index {
        assert IsDigit(maximum[index]);
      }
    }
    if index > 0 {
      assert s[0] == s[..index][0] == maximum[..index][0] == maximum[0];
    }
  }

  /** The pattern accepts exactly the canonical numerals up to the maximum. */
  lemma PatternDecides(s: string, maximum: string)
    requires Canonical(maximum) && |maximum| >= 2
    ensures Pattern(s, maximum) <==> Canonical(s) && Number(s) <= Number(maximum)
  {
    if Canonical(s) {
      ComparesAsNumbers(s, maximum);
      ComparesAsNumbers(maximum, s);
      if |s| == |maximum| {
        SameNumber(s, maximum);
        if Less(s, maximum) {
          var index := FirstDifference(s, maximum);
          assert IsDigit(s[index]) && IsDigit(maximum[index]);
          assert Alternative(s, maximum, index);
        }
      }
    }
    if exists index | 0 <= index < |maximum| :: Alternative(s, maximum, index) {
      var index: nat :| index < |maximum| && Alternative(s, maximum, index);
      AlternativeIsLess(s, maximum, index);
    }
    if 1 <= |s| < |maximum| && '1' <= s[0] <= '9' && forall i | 0 < i < |s| :: IsDigit(s[i]) {
      assert Canonical(s);
    }
  }

  lemma SameNumber(a: string, b: string)
    requires Canonical(a) && Canonical(b)
    ensures Number(a) == Number(b) <==> a == b
  {
    DigitsOfNumber(a);
    DigitsOfNumber(b);
  }

  /** A raw window bound as JSON delivers it; a float carries its integer value. */
  datatype Raw = Integer(n: int) | WholeFloat(n: int) | Text(s: string) | Other

  /** _window_integer. */
  function WindowInteger(value: Raw): Result<int, string> {
    match value
    case Integer(n) => Ok(n)
    case WholeFloat(n) =>
      if -(MAX_SAFE_JSON as int) <= n <= MAX_SAFE_JSON then Ok(n) else Err("window bounds require exact integers")
    case Text(s) =>
      if AllDigits(s) && (s == "0" || s[0] != '0') && |s| <= |WINDOW_MAX_TEXT| then Ok(Number(s))
      else Err("window bounds require canonical decimal strings")
    case Other => Err("window bounds require exact integers or canonical decimal strings")
  }

  /** What the field accepts behind the conversion. */
  predicate Accepted(value: Raw) {
    WindowInteger(value).Ok? && 0 <= WindowInteger(value).value <= WINDOW_MAX
  }

  /** canonical_bound: integers a JSON reader may lose are written as text. */
  function CanonicalBound(n: nat): Raw {
    if n > MAX_SAFE_JSON then Text(Digits(n)) else Integer(n)
  }

  /** The schema's pattern and the validator accept the same texts. */
  lemma PatternAgrees(s: string)
    ensures Pattern(s, WINDOW_MAX_TEXT) <==> Accepted(Text(s))
    ensures Pattern(s, WINDOW_MAX_TEXT) && s != "0" <==> Accepted(Text(s)) && Number(s) > 0
  {
    Maxima();
    PatternDecides(s, WINDOW_MAX_TEXT);
    if Canonical(s) {
      NumberPositive(s);
      ComparesAsNumbers(WINDOW_MAX_TEXT, s);
      assert Number("0") == 0;
    }
  }

  /** A serialized bound is read back as itself. */
  lemma BoundRoundTrip(n: nat)
    requires n <= WINDOW_MAX
    ensures WindowInteger(CanonicalBound(n)) == Ok(n) && Accepted(CanonicalBound(n))
  {
    NumberOfDigits(n);
    Maxima();
    ComparesAsNumbers(WINDOW_MAX_TEXT, Digits(n));
  }

  /** A bound is written as a number exactly if it is accepted back from a reader that
      keeps numbers as doubles, whatever its sign; all others are written as text. */
  lemma WrittenForDoubles(n: int)
    ensures WindowInteger(WholeFloat(n)) == Ok(n) <==> CanonicalBound(if n < 0 then -n else n).Integer?
    ensures WindowInteger(WholeFloat(n)).Ok? ==> WindowInteger(WholeFloat(n)) == WindowInteger(Integer(n)) == Ok(n)
    ensures n >= 0 ==> CanonicalBound(n) == Integer(n) || CanonicalBound(n) == Text(Digits(n))
  {
  }

  /** s.lstrip("0") or "0". */
  function Stripped(s: string): string {
    if s == "" then "0" else if s[0] == '0' then Stripped(s[1..]) else s
  }

  lemma {:induction false} StrippedNumber(s: string)
    requires s == "" || AllDigits(s)
    ensures Canonical(Stripped(s)) && Number(Stripped(s)) == Number(s)
  {
    if s == "" {
      assert Number("0") == 0;
    } else if s[0] == '0' {
      NumberFromLeft(s);
      StrippedNumber(s[1..]);
    }
  }

  /** The sidecar's sample count, checked as text before it is converted. */
  function SampleCount(raw: string): Result<int, string> {
    if !AllDigits(raw) then Err("NVBench sidecar size is invalid")
    else
      var digits := Stripped(raw);
      if |digits| > |MAX_SAMPLES_TEXT| || (|digits| == |MAX_SAMPLES_TEXT| && Less(MAX_SAMPLES_TEXT, digits)) then
        Err("NVBench sidecar sample count exceeds the limit")
      else Ok(Number(digits))
  }

  /** The comparison of texts decides the comparison of numbers, for every numeral. */
  lemma SampleLimit(raw: string)
    requires AllDigits(raw)
    ensures SampleCount(raw).Ok? <==> Number(raw) <= MAX_SAMPLES
    ensures SampleCount(raw).Ok? ==> SampleCount(raw).value == Number(raw)
  {
    Maxima();
    StrippedNumber(raw);
    ComparesAsNumbers(MAX_SAMPLES_TEXT, Stripped(raw));
  }
}
