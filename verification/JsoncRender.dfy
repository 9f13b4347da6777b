/**
 json.dumps with indent=2 as the setup writes it, and why its text, re-indented
 or not, is read back as one value.
 */
module JsoncRender {
  import opened JsonText
  import opened JsoncScanner
  import opened JsoncLocality
  import opened JsoncObjects
  import opened JsoncNesting

  /** Every number is a numeral. */
  predicate WellFormed(j: Json) {
    match j
    case Number(digits) => Numeral(digits)
    case Array(elements) => forall e <- elements :: WellFormed(e)
    case Dict(members) => forall m <- members :: WellFormed(m.value)
    case _ => true
  }

  function HexDigit(n: nat): char
    requires n < 16
  {
    "0123456789abcdef"[n]
  }

  function Hex4(n: nat): string
    requires n < 0x10000
  {
    [HexDigit(n / 4096), HexDigit(n / 256 % 16), HexDigit(n / 16 % 16), HexDigit(n % 16)]
  }

  /** The escape sequence of one character, or the character itself. */
  function EscapeChar(c: char, ascii: bool): string {
    if c == '"' then "\\\""
    else if c == '\\' then "\\\\"
    else if c == '\n' then "\\n"
    else if c == '\r' then "\\r"
    else if c == '\t' then "\\t"
    else if c == '\U{0C}' then "\\f"
    else if c == '\U{08}' then "\\b"
    else if c < ' ' || (ascii && '~' < c <= '\U{FFFF}') then "\\u" + Hex4(c as int)
    else if ascii && '\U{FFFF}' < c then
      var n := c as int - 0x10000;
      "\\u" + Hex4(0xD800 + n / 0x400) + "\\u" + Hex4(0xDC00 + n % 0x400)
    else [c]
  }

  function Escape(s: string, ascii: bool): string {
    if s == [] then "" else EscapeChar(s[0], ascii) + Escape(s[1..], ascii)
  }

  function Quoted(s: string, ascii: bool): string {
    "\"" + Escape(s, ascii) + "\""
  }

  function Spaces(n: nat): string {
    if n == 0 then "" else " " + Spaces(n - 1)
  }

  function NewLine(level: nat): string {
    "\n" + Spaces(2 * level)
  }

  /** json.dumps(j, ensure_ascii=False, indent=2) inside level enclosing containers. */
  function Dumps(j: Json, level: nat): string
    decreases j, 0
  {
    match j
    case Null => "null"
    case Bool(b) => if b then "true" else "false"
    case Number(digits) => digits
    case Str(s) => Quoted(s, false)
    case Array(elements) =>
      if elements == [] then "[]"
      else "[" + NewLine(level + 1) + Elements(elements, level + 1) + NewLine(level) + "]"
    case Dict(members) =>
      if members == [] then "{}"
      else "{" + NewLine(level + 1) + Members(members, level + 1) + NewLine(level) + "}"
  }

  function Elements(elements: seq<Json>, level: nat): string
    decreases elements, 1
  {
    if elements == [] then ""
    else Dumps(elements[0], level)
         + if |elements| == 1 then "" else "," + NewLine(level) + Elements(elements[1..], level)
  }

  function Members(members: seq<Member>, level: nat): string
    decreases members, 1
  {
    if members == [] then ""
    else Quoted(members[0].name, false) + ": " + Dumps(members[0].value, level)
         + if |members| == 1 then "" else "," + NewLine(level) + Members(members[1..], level)
  }

  /** text.replace("\n", "\n" + indent) */
  function Reindent(text: string, indent: string): string {
    if text == [] then ""
    else (if text[0] == '\n' then "\n" + indent else [text[0]]) + Reindent(text[1..], indent)
  }

  lemma {:induction false} ReindentJoin(a: string, b: string, indent: string)
    ensures Reindent(a + b, indent) == Reindent(a, indent) + Reindent(b, indent)
  {
    if a == [] {
      assert a + b == b;
    } else {
      assert (a + b)[1..] == a[1..] + b;
      ReindentJoin(a[1..], b, indent);
    }
  }

  lemma {:induction false} ReindentLine(a: string, indent: string)
    requires '\n' !in a
    ensures Reindent(a, indent) == a
  {
    if a != [] {
      ReindentLine(a[1..], indent);
    }
  }

  predicate Blank(s: string) {
    forall c <- s :: IsSpace(c)
  }

  lemma {:induction false} ReindentBlank(a: string, indent: string)
    requires Blank(a) && Blank(indent)
    ensures Blank(Reindent(a, indent))
  {
    if a != [] {
      ReindentBlank(a[1..], indent);
    }
  }

  lemma {:induction false} SpacesBlank(n: nat)
    ensures Blank(Spaces(n)) && '\n' !in Spaces(n)
  {
    if n != 0 {
      SpacesBlank(n - 1);
    }
  }

  lemma BlankNeutral(s: string)
    requires Blank(s)
    ensures IsTrivia(s) && Neutral(s)
  {
    SpacesAreTrivia(s);
    NeutralTrivia(s);
  }

  /** Text that ends no string: ordinary characters and pairs after a backslash. */
  predicate Readable(s: string) {
    || s == []
    || (s[0] == '\\' && |s| >= 2 && Readable(s[2..]))
    || (s[0] != '\\' && s[0] != '"' && Readable(s[1..]))
  }

  lemma {:induction false} ReadableRead(s: string, r: string)
    requires Readable(s)
    ensures StringRest(s + r, '"') == Shift(|s|, StringRest(r, '"'))
    decreases |s|
  {
    if s == [] {
      assert s + r == r;
    } else {
      var n := if s[0] == '\\' then 2 else 1;
      Slices(s, r, n);
      ReadableRead(s[n..], r);
      ShiftShift(n, |s| - n, StringRest(r, '"'));
    }
  }

  lemma {:induction false} ReadableJoin(a: string, b: string)
    requires Readable(a) && Readable(b)
    ensures Readable(a + b)
    decreases |a|
  {
    if a == [] {
      assert a + b == b;
    } else {
      var n := if a[0] == '\\' then 2 else 1;
      Slices(a, b, n);
      ReadableJoin(a[n..], b);
    }
  }

  lemma {:induction false} OrdinaryReadable(s: string)
    requires '\\' !in s && '"' !in s
    ensures Readable(s)
  {
    if s != [] {
      OrdinaryReadable(s[1..]);
    }
  }

  lemma UnicodeReadable(n: nat)
    requires n < 0x10000
    ensures Readable("\\u" + Hex4(n)) && '\n' !in Hex4(n)
  {
    HexOrdinary(n);
    OrdinaryReadable(Hex4(n));
    hide Hex4;
    assert ("\\u" + Hex4(n))[2..] == Hex4(n);
  }

  lemma HexOrdinary(n: nat)
    requires n < 0x10000
    ensures '\\' !in Hex4(n) && '"' !in Hex4(n) && '\n' !in Hex4(n)
  {
    hide HexDigit;
    DigitOrdinary(n / 4096);
    DigitOrdinary(n / 256 % 16);
    DigitOrdinary(n / 16 % 16);
    DigitOrdinary(n % 16);
  }

  lemma DigitOrdinary(n: nat)
    requires n < 16
    ensures '0' <= HexDigit(n) <= 'f' && HexDigit(n) != '\\' && HexDigit(n) != '"' && HexDigit(n) != '\n'
  {
  }

  lemma EscapeCharReadable(c: char, ascii: bool)
    ensures Readable(EscapeChar(c, ascii)) && '\n' !in EscapeChar(c, ascii)
  {
    hide Hex4, Readable;
    if ascii && '\U{FFFF}' < c {
      PairReadable(c);
    } else if c < ' ' || (ascii && '~' < c) {
      UnicodeReadable(c as int);
    }
    ShortReadable(c, ascii);
  }

  /** The escape sequences of two characters, and characters that need none. */
  lemma ShortReadable(c: char, ascii: bool)
    ensures |EscapeChar(c, ascii)| <= 2 ==> Readable(EscapeChar(c, ascii)) && '\n' !in EscapeChar(c, ascii)
  {
    hide Hex4;
    FourLong(c, ascii);
  }

  lemma FourLong(c: char, ascii: bool)
    ensures c < ' ' || (ascii && '~' < c <= '\U{FFFF}') ==> |Hex4(c as int)| == 4
  {
  }

  lemma PairReadable(c: char)
    requires '\U{FFFF}' < c
    ensures Readable(EscapeChar(c, true)) && '\n' !in EscapeChar(c, true)
  {
    hide Hex4, Readable;
    var n := c as int - 0x10000;
    var high, low := "\\u" + Hex4(0xD800 + n / 0x400), "\\u" + Hex4(0xDC00 + n % 0x400);
    UnicodeReadable(0xD800 + n / 0x400);
    UnicodeReadable(0xDC00 + n % 0x400);
    ReadableJoin(high, low);
    assert EscapeChar(c, true) == high + low;
  }

  lemma {:induction false} EscapeReadable(s: string, ascii: bool)
    ensures Readable(Escape(s, ascii)) && '\n' !in Escape(s, ascii)
  {
    if s != [] {
      hide EscapeChar, Readable;
      EscapeCharReadable(s[0], ascii);
      EscapeReadable(s[1..], ascii);
      ReadableJoin(EscapeChar(s[0], ascii), Escape(s[1..], ascii));
    }
  }

  lemma HexAscii(n: nat)
    requires n < 0x10000
    ensures forall c <- Hex4(n) :: ' ' <= c <= '~'
  {
    hide HexDigit;
    DigitOrdinary(n / 4096);
    DigitOrdinary(n / 256 % 16);
    DigitOrdinary(n / 16 % 16);
    DigitOrdinary(n % 16);
  }

  lemma EscapeCharAscii(c: char)
    ensures forall e <- EscapeChar(c, true) :: ' ' <= e <= '~'
  {
    hide Hex4;
    if c < ' ' || '~' < c <= '\U{FFFF}' {
      HexAscii(c as nat);
    } else if '\U{FFFF}' < c {
      var n := c as nat - 0x10000;
      HexAscii(0xD800 + n / 0x400);
      HexAscii(0xDC00 + n % 0x400);
    }
  }

  /** With ensure_ascii only printable ASCII is written. */
  lemma {:induction false} AsciiOnly(s: string)
    ensures forall e <- Escape(s, true) :: ' ' <= e <= '~'
  {
    if s != "" {
      hide EscapeChar;
      EscapeCharAscii(s[0]);
      AsciiOnly(s[1..]);
    }
  }

  /** Without it a printable character other than a quote or a backslash is written as
      it is. */
  lemma {:induction false} WrittenAsItIs(s: string)
    requires forall c <- s :: c >= ' ' && c != '"' && c != '\\'
    ensures Escape(s, false) == s
  {
    if s != "" {
      assert s[0] in s && s == [s[0]] + s[1..];
      forall c <- s[1..]
        ensures c in s
      {
      }
      WrittenAsItIs(s[1..]);
    }
  }

  lemma QuotesAround(body: string)
    requires Readable(body)
    ensures Enclosed("\"" + body + "\"")
  {
    var q := "\"" + body + "\"";
    ReadableRead(body, "\"" + "}");
    FirstChar(q, "}");
    assert (q + "}")[1..] == body + ("\"" + "}");
  }

  /** A quoted text is one string wherever it stands. */
  lemma QuotedEnclosed(s: string, ascii: bool)
    ensures Enclosed(Quoted(s, ascii)) && '\n' !in Quoted(s, ascii)
  {
    var q, body := Quoted(s, ascii), Escape(s, ascii);
    EscapeReadable(s, ascii);
    QuotesAround(body);
  }

  lemma LineNeutral(level: nat, indent: string)
    requires Blank(indent)
    ensures Neutral(Reindent(NewLine(level), indent))
  {
    SpacesBlank(2 * level);
    ReindentBlank(NewLine(level), indent);
    BlankNeutral(Reindent(NewLine(level), indent));
  }

  lemma NewLineThen(a: string, level: nat, indent: string)
    requires Neutral(a) && Blank(indent)
    ensures Neutral(a + Reindent(NewLine(level), indent))
  {
    LineNeutral(level, indent);
    NeutralJoin(a, Reindent(NewLine(level), indent));
  }

  /** Every rendered value is neutral, however deep it stands and whatever blank
      text each of its lines is indented with. */
  lemma {:induction false} DumpsNeutral(j: Json, level: nat, indent: string)
    requires WellFormed(j) && Blank(indent)
    ensures Neutral(Reindent(Dumps(j, level), indent))
    decreases j, 0
  {
    hide Neutral, Reindent, Dumps, WellFormed, Blank;
    if j.Array? || j.Dict? {
      ContainerEnclosed(j, level, indent);
      NeutralEnclosed(Reindent(Dumps(j, level), indent));
    } else if j.Str? {
      StringNeutral(j, level, indent);
    } else {
      WordNeutral(j, level, indent);
    }
  }

  lemma StringNeutral(j: Json, level: nat, indent: string)
    requires j.Str?
    ensures Neutral(Reindent(Dumps(j, level), indent))
  {
    hide Neutral, Reindent, Quoted;
    QuotedEnclosed(j.s, false);
    ReindentLine(Quoted(j.s, false), indent);
    NeutralEnclosed(Quoted(j.s, false));
  }

  lemma WordNeutral(j: Json, level: nat, indent: string)
    requires WellFormed(j) && !j.Array? && !j.Dict? && !j.Str?
    ensures Neutral(Reindent(Dumps(j, level), indent))
  {
    hide Neutral, Reindent, Numeral;
    if j.Number? {
      NumeralIsWord(j.digits);
    }
    ReindentLine(Dumps(j, level), indent);
    NeutralPlain(Dumps(j, level));
  }

  lemma EmptyContainer(c: char, indent: string)
    requires IsOpener(c)
    ensures Enclosed(Reindent([c] + [Closing(c)], indent)) && Reindent([c] + [Closing(c)], indent)[0] == c
  {
    NeutralEmpty();
    Brackets(c, "");
    assert [c] + "" + [Closing(c)] == [c] + [Closing(c)];
    ReindentLine([c] + [Closing(c)], indent);
  }

  lemma FilledContainer(c: char, inner: string, level: nat, indent: string)
    requires IsOpener(c) && Blank(indent) && Neutral(Reindent(inner, indent))
    ensures var text := [c] + NewLine(level + 1) + inner + NewLine(level) + [Closing(c)];
            Enclosed(Reindent(text, indent)) && Reindent(text, indent)[0] == c
  {
    hide Neutral, Reindent, NewLine, Enclosed;
    var first, last := NewLine(level + 1), NewLine(level);
    var a, b, d := Reindent(first, indent), Reindent(inner, indent), Reindent(last, indent);
    assert [c] + first + inner + last + [Closing(c)] == [c] + ((first + inner) + last + [Closing(c)]);
    ContainerText(c, first, inner, last, indent);
    LineNeutral(level + 1, indent);
    NeutralJoin(a, b);
    NewLineThen(a + b, level, indent);
    Brackets(c, a + b + d);
  }

  /** A rendered array or object is one bracketed value. */
  lemma {:induction false} ContainerEnclosed(j: Json, level: nat, indent: string)
    requires (j.Array? || j.Dict?) && WellFormed(j) && Blank(indent)
    ensures Enclosed(Reindent(Dumps(j, level), indent))
    ensures Reindent(Dumps(j, level), indent)[0] == if j.Dict? then '{' else '['
    decreases j, -1
  {
    hide Neutral, Reindent, NewLine, Enclosed;
    match j
    case Array(elements) =>
      if elements == [] {
        EmptyContainer('[', indent);
        assert "[]" == ['['] + [Closing('[')];
      } else {
        ElementsNeutral(elements, level + 1, indent);
        FilledContainer('[', Elements(elements, level + 1), level, indent);
      }
    case Dict(members) =>
      if members == [] {
        EmptyContainer('{', indent);
        assert "{}" == ['{'] + [Closing('{')];
      } else {
        MembersNeutral(members, level + 1, indent);
        FilledContainer('{', Members(members, level + 1), level, indent);
      }
  }

  lemma ContainerText(c: char, first: string, inner: string, last: string, indent: string)
    requires IsOpener(c)
    ensures Reindent([c] + ((first + inner) + last + [Closing(c)]), indent)
         == [c] + (Reindent(first, indent) + Reindent(inner, indent) + Reindent(last, indent)) + [Closing(c)]
  {
    ReindentJoin([c], (first + inner) + last + [Closing(c)], indent);
    ReindentJoin((first + inner) + last, [Closing(c)], indent);
    ReindentJoin(first + inner, last, indent);
    ReindentJoin(first, inner, indent);
    ReindentLine([c], indent);
    ReindentLine([Closing(c)], indent);
  }

  /** What follows a list entry. */
  lemma SeparatorNeutral(level: nat, rest: string, indent: string)
    requires Blank(indent) && Neutral(Reindent(rest, indent))
    ensures Neutral(Reindent("," + NewLine(level) + rest, indent))
  {
    ReindentJoin("," + NewLine(level), rest, indent);
    ReindentJoin(",", NewLine(level), indent);
    ReindentLine(",", indent);
    NeutralChar(',');
    NewLineThen(",", level, indent);
    NeutralJoin("," + Reindent(NewLine(level), indent), Reindent(rest, indent));
  }

  lemma {:induction false} ElementsNeutral(elements: seq<Json>, level: nat, indent: string)
    requires Blank(indent) && forall e <- elements :: WellFormed(e)
    ensures Neutral(Reindent(Elements(elements, level), indent))
    decreases elements, 1
  {
    if elements == [] {
      NeutralEmpty();
    } else {
      hide Neutral, Reindent, NewLine, Dumps;
      var first := Dumps(elements[0], level);
      DumpsNeutral(elements[0], level, indent);
      if |elements| == 1 {
        assert Elements(elements, level) == first;
      } else {
        ElementsNeutral(elements[1..], level, indent);
        var rest := Elements(elements[1..], level);
        SeparatorNeutral(level, rest, indent);
        ReindentJoin(first, "," + NewLine(level) + rest, indent);
        NeutralJoin(Reindent(first, indent), Reindent("," + NewLine(level) + rest, indent));
      }
    }
  }

  lemma MemberNeutral(name: string, value: string, indent: string)
    requires Neutral(Reindent(value, indent))
    ensures Neutral(Reindent(Quoted(name, false) + ": " + value, indent))
  {
    var q := Quoted(name, false);
    QuotedEnclosed(name, false);
    ReindentJoin(q + ": ", value, indent);
    ReindentLine(q + ": ", indent);
    NeutralEnclosed(q);
    NeutralColon();
    BlankNeutral(" ");
    NeutralJoin(":", " ");
    assert ": " == ":" + " ";
    NeutralJoin(q, ": ");
    NeutralJoin(q + ": ", Reindent(value, indent));
  }

  lemma {:induction false} MembersNeutral(members: seq<Member>, level: nat, indent: string)
    requires Blank(indent) && forall m <- members :: WellFormed(m.value)
    ensures Neutral(Reindent(Members(members, level), indent))
    decreases members, 1
  {
    if members == [] {
      NeutralEmpty();
    } else {
      hide Neutral, Reindent, NewLine, Dumps, Quoted;
      var value := Dumps(members[0].value, level);
      DumpsNeutral(members[0].value, level, indent);
      MemberNeutral(members[0].name, value, indent);
      var first := Quoted(members[0].name, false) + ": " + value;
      if |members| == 1 {
        assert Members(members, level) == first;
      } else {
        MembersNeutral(members[1..], level, indent);
        var rest := Members(members[1..], level);
        SeparatorNeutral(level, rest, indent);
        ReindentJoin(first, "," + NewLine(level) + rest, indent);
        NeutralJoin(Reindent(first, indent), Reindent("," + NewLine(level) + rest, indent));
      }
    }
  }
}
