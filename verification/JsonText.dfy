/**
 JSON as text, read by recursive descent: RFC 8259, with the numerals NaN and
 Infinity that Python adds and with every blank character Python knows.
 */
module JsonText {
  import opened Results
  import opened JsoncScanner

  /** A JSON value; a number is the numeral it is written as. */
  datatype Json =
    | Null
    | Bool(b: bool)
    | Number(digits: string)
    | Str(s: string)
    | Array(elements: seq<Json>)
    | Dict(members: seq<Member>)

  datatype Member = Member(name: string, value: Json)

  /** A character of a word: a numeral or a name. */
  predicate WordChar(c: char) {
    '0' <= c <= '9' || 'a' <= c <= 'z' || 'A' <= c <= 'Z' || c == '+' || c == '-' || c == '.'
  }

  function WordLen(s: string): (n: nat)
    ensures n <= |s|
  {
    if s == [] || !WordChar(s[0]) then 0 else 1 + WordLen(s[1..])
  }

  /** The length of the leading run of decimal digits. */
  function DigitRun(s: string): (n: nat)
    ensures n <= |s|
  {
    if s == [] || !('0' <= s[0] <= '9') then 0 else 1 + DigitRun(s[1..])
  }

  /** Nothing, or an exponent. */
  predicate Exponent(s: string) {
    || s == []
    || (|s| >= 2 && (s[0] == 'e' || s[0] == 'E')
        && var digits := if s[1] == '+' || s[1] == '-' then s[2..] else s[1..];
           digits != [] && DigitRun(digits) == |digits|)
  }

  /** Nothing, or a fraction, an exponent, or both. */
  predicate Fraction(s: string) {
    || Exponent(s)
    || (s[0] == '.' && var n := DigitRun(s[1..]); n > 0 && Exponent(s[1..][n..]))
  }

  /** Digits without a leading zero, and what may follow them. */
  predicate Unsigned(s: string) {
    var n := DigitRun(s);
    n > 0 && (s[0] == '0' ==> n == 1) && Fraction(s[n..])
  }

  predicate Numeral(s: string) {
    || s == "NaN" || s == "Infinity" || s == "-Infinity"
    || Unsigned(if s != [] && s[0] == '-' then s[1..] else s)
  }

  /** A text without its leading blanks. */
  function Unblank(s: string): (t: string)
    ensures |t| <= |s|
  {
    if s != [] && IsSpace(s[0]) then Unblank(s[1..]) else s
  }

  function HexValue(c: char): Option<nat> {
    if '0' <= c <= '9' then Some(c as nat - '0' as nat)
    else if 'a' <= c <= 'f' then Some(c as nat - 'a' as nat + 10)
    else if 'A' <= c <= 'F' then Some(c as nat - 'A' as nat + 10)
    else None
  }

  /** Four hexadecimal digits. */
  function CodeUnit(s: string): (r: Option<nat>)
    ensures r.Some? ==> |s| >= 4
  {
    if |s| < 4 then None
    else
      match (HexValue(s[0]), HexValue(s[1]), HexValue(s[2]), HexValue(s[3]))
      case (Some(a), Some(b), Some(c), Some(d)) => Some(a * 4096 + b * 256 + c * 16 + d)
      case _ => None
  }

  /** What stands behind a backslash: the character it denotes and its length.  Two
      code units are read together if they are a surrogate pair. */
  function Escaped(s: string): (r: Option<(char, nat)>)
    ensures r.Some? ==> 1 <= r.value.1 <= |s|
  {
    if s == [] then None
    else if s[0] == 'u' then
      match CodeUnit(s[1..])
      case None => None
      case Some(n) =>
        if n < 0xD800 || 0xE000 <= n < 0x10000 then Some((n as char, 5))
        else if n < 0xDC00 && |s| >= 7 && s[5] == '\\' && s[6] == 'u' then
          match CodeUnit(s[7..])
          case None => None
          case Some(m) =>
            if 0xDC00 <= m < 0xE000 then Some(((0x10000 + (n - 0xD800) * 0x400 + (m - 0xDC00)) as char, 11)) else None
        else None
    else if s[0] == '"' || s[0] == '\\' || s[0] == '/' then Some((s[0], 1))
    else if s[0] == 'b' then Some(('\U{08}', 1))
    else if s[0] == 'f' then Some(('\U{0C}', 1))
    else if s[0] == 'n' then Some(('\n', 1))
    else if s[0] == 'r' then Some(('\r', 1))
    else if s[0] == 't' then Some(('\t', 1))
    else None
  }

  /** The characters up to a closing quote, and the text behind it. */
  function ReadCharacters(s: string): (r: Option<(string, string)>)
    ensures r.Some? ==> |r.value.1| < |s|
    decreases |s|
  {
    if s == [] || s[0] < ' ' then None
    else if s[0] == '"' then Some(("", s[1..]))
    else if s[0] == '\\' then
      match Escaped(s[1..])
      case None => None
      case Some((c, n)) => Prepended(c, ReadCharacters(s[1..][n..]))
    else Prepended(s[0], ReadCharacters(s[1..]))
  }

  function Prepended(c: char, r: Option<(string, string)>): Option<(string, string)> {
    match r
    case None => None
    case Some((t, rest)) => Some(([c] + t, rest))
  }

  /** A value at the start of s, and the text behind it. */
  function ReadValue(s: string): (r: Option<(Json, string)>)
    ensures r.Some? ==> |r.value.1| < |s|
    decreases |s|, 0
  {
    if s == [] then None
    else if s[0] == '"' then
      match ReadCharacters(s[1..])
      case None => None
      case Some((t, rest)) => Some((Str(t), rest))
    else if s[0] == '[' then
      var inner := Unblank(s[1..]);
      if inner != [] && inner[0] == ']' then Some((Array([]), inner[1..]))
      else
        match ReadElements(inner)
        case None => None
        case Some((elements, rest)) => Some((Array(elements), rest))
    else if s[0] == '{' then
      var inner := Unblank(s[1..]);
      if inner != [] && inner[0] == '}' then Some((Dict([]), inner[1..]))
      else
        match ReadMembers(inner)
        case None => None
        case Some((members, rest)) => Some((Dict(members), rest))
    else
      var n := WordLen(s);
      if s[..n] == "true" then Some((Bool(true), s[n..]))
      else if s[..n] == "false" then Some((Bool(false), s[n..]))
      else if s[..n] == "null" then Some((Null, s[n..]))
      else if n > 0 && Numeral(s[..n]) then Some((Number(s[..n]), s[n..]))
      else None
  }

  /** The elements of an array up to its bracket, and the text behind it. */
  function ReadElements(s: string): (r: Option<(seq<Json>, string)>)
    ensures r.Some? ==> |r.value.1| < |s|
    decreases |s|, 1
  {
    match ReadValue(s)
    case None => None
    case Some((j, behind)) =>
      var t := Unblank(behind);
      if t == [] then None
      else if t[0] == ']' then Some(([j], t[1..]))
      else if t[0] != ',' then None
      else
        match ReadElements(Unblank(t[1..]))
        case None => None
        case Some((elements, rest)) => Some(([j] + elements, rest))
  }

  /** A name in quotes, its colon, and its value. */
  function ReadPair(s: string): (r: Option<(Member, string)>)
    ensures r.Some? ==> |r.value.1| < |s|
    decreases |s|, 1
  {
    if s == [] || s[0] != '"' then None
    else
      match ReadCharacters(s[1..])
      case None => None
      case Some((name, behind)) =>
        var t := Unblank(behind);
        if t == [] || t[0] != ':' then None
        else
          match ReadValue(Unblank(t[1..]))
          case None => None
          case Some((j, rest)) => Some((Member(name, j), rest))
  }

  /** The members of an object up to its bracket, and the text behind it. */
  function ReadMembers(s: string): (r: Option<(seq<Member>, string)>)
    ensures r.Some? ==> |r.value.1| < |s|
    decreases |s|, 2
  {
    match ReadPair(s)
    case None => None
    case Some((m, behind)) =>
      var t := Unblank(behind);
      if t == [] then None
      else if t[0] == '}' then Some(([m], t[1..]))
      else if t[0] != ',' then None
      else
        match ReadMembers(Unblank(t[1..]))
        case None => None
        case Some((members, rest)) => Some(([m] + members, rest))
  }

  /** The text is one value and nothing else. */
  predicate Reads(s: string, j: Json) {
    ReadValue(s) == Some((j, ""))
  }

  /** What stands here cannot continue a word. */
  predicate EndsWord(s: string) {
    s == [] || !WordChar(s[0])
  }

  lemma {:induction false} DigitsAreWord(s: string)
    requires DigitRun(s) == |s|
    ensures forall c <- s :: WordChar(c)
  {
    if s != [] {
      DigitsAreWord(s[1..]);
    }
  }

  lemma {:induction false} RunIsWord(s: string)
    ensures DigitRun(s[..DigitRun(s)]) == DigitRun(s)
    ensures forall c <- s[..DigitRun(s)] :: WordChar(c)
  {
    if s != [] && '0' <= s[0] <= '9' {
      RunIsWord(s[1..]);
      assert s[..DigitRun(s)] == [s[0]] + s[1..][..DigitRun(s[1..])];
    }
  }

  lemma ExponentIsWord(s: string)
    requires Exponent(s)
    ensures forall c <- s :: WordChar(c)
  {
    if s != [] {
      var signed := s[1] == '+' || s[1] == '-';
      var digits := if signed then s[2..] else s[1..];
      DigitsAreWord(digits);
      assert s == (if signed then [s[0], s[1]] else [s[0]]) + digits;
    }
  }

  lemma FractionIsWord(s: string)
    requires Fraction(s)
    ensures forall c <- s :: WordChar(c)
  {
    if Exponent(s) {
      ExponentIsWord(s);
    } else {
      var n := DigitRun(s[1..]);
      RunIsWord(s[1..]);
      ExponentIsWord(s[1..][n..]);
      assert s == [s[0]] + (s[1..][..n] + s[1..][n..]);
    }
  }

  lemma UnsignedIsWord(s: string)
    requires Unsigned(s)
    ensures forall c <- s :: WordChar(c)
  {
    var n := DigitRun(s);
    RunIsWord(s);
    FractionIsWord(s[n..]);
    assert s == s[..n] + s[n..];
  }

  lemma NumeralIsWord(s: string)
    requires Numeral(s)
    ensures s != [] && forall c <- s :: WordChar(c)
    ensures s != "true" && s != "false" && s != "null" && s[0] != '"' && s[0] != '[' && s[0] != '{'
  {
    hide Fraction, Exponent;
    if s[0] == '-' && Unsigned(s[1..]) {
      UnsignedIsWord(s[1..]);
      assert s == ['-'] + s[1..];
    } else if Unsigned(s) {
      UnsignedIsWord(s);
    }
  }

  /** A word is read up to what cannot continue it. */
  lemma {:induction false} WordEnds(w: string, rest: string)
    requires (forall c <- w :: WordChar(c)) && EndsWord(rest)
    ensures WordLen(w + rest) == |w| && (w + rest)[..|w|] == w && (w + rest)[|w|..] == rest
  {
    if w == [] {
      assert w + rest == rest;
    } else {
      WordEnds(w[1..], rest);
      assert (w + rest)[1..] == w[1..] + rest;
    }
  }
}
