/**
 What the setup writes is what a reader of JSON finds: every rendered value, however
 deep it stands and however its lines are indented, is read back as itself.
 */
module JsoncReading {
  import opened Results
  import opened JsonText
  import opened JsoncScanner
  import opened JsoncRender

  lemma HexRead(n: nat)
    requires n < 16
    ensures HexValue(HexDigit(n)) == Some(n)
  {
  }

  lemma FourRead(a: nat, b: nat, c: nat, d: nat, rest: string)
    requires a < 16 && b < 16 && c < 16 && d < 16
    ensures CodeUnit([HexDigit(a), HexDigit(b), HexDigit(c), HexDigit(d)] + rest) == Some(a * 4096 + b * 256 + c * 16 + d)
  {
    HexRead(a);
    HexRead(b);
    HexRead(c);
    HexRead(d);
    hide HexDigit, HexValue;
  }

  lemma Digits(n: nat)
    requires n < 0x10000
    ensures n / 4096 < 16 && (n / 4096) * 4096 + (n / 256 % 16) * 256 + (n / 16 % 16) * 16 + n % 16 == n
  {
  }

  /** Four digits are read as the number they were written for. */
  lemma CodeUnitRead(n: nat, rest: string)
    requires n < 0x10000
    ensures CodeUnit(Hex4(n) + rest) == Some(n)
  {
    hide CodeUnit, HexDigit;
    Digits(n);
    FourRead(n / 4096, n / 256 % 16, n / 16 % 16, n % 16, rest);
  }

  lemma Unescaped(c: char, ascii: bool, rest: string)
    requires EscapeChar(c, ascii) == [c]
    ensures ReadCharacters(EscapeChar(c, ascii) + rest) == Prepended(c, ReadCharacters(rest))
  {
    assert ([c] + rest)[1..] == rest;
  }

  lemma Backslash(e: string, c: char, rest: string)
    requires e != [] && Escaped(e + rest) == Some((c, |e|))
    ensures ReadCharacters("\\" + e + rest) == Prepended(c, ReadCharacters(rest))
  {
    var s := "\\" + e + rest;
    assert s[1..] == e + rest && (e + rest)[|e|..] == rest;
  }

  /** An escape sequence is read as the character it was written for. */
  lemma EscapeRead(c: char, ascii: bool, rest: string)
    ensures ReadCharacters(EscapeChar(c, ascii) + rest) == Prepended(c, ReadCharacters(rest))
  {
    hide ReadCharacters, Prepended, Hex4, CodeUnit;
    var e := EscapeChar(c, ascii);
    if e == [c] {
      Unescaped(c, ascii, rest);
    } else {
      assert e[0] == '\\' && e == "\\" + e[1..];
      Escapes(c, ascii, rest);
      Backslash(e[1..], c, rest);
    }
  }

  lemma PairParts(h: string, l: string, rest: string)
    requires |h| == 4 && |l| == 4
    ensures var s := "u" + h + "\\u" + l + rest;
            |s| >= 11 && s[1..] == h + ("\\u" + l + rest) && s[5] == '\\' && s[6] == 'u' && s[7..] == l + rest
  {
  }

  /** A surrogate pair is read as its one character. */
  lemma SurrogatesRead(c: char, rest: string)
    requires '\U{FFFF}' < c
    ensures var n := c as nat - 0x10000;
            Escaped("u" + Hex4(0xD800 + n / 0x400) + "\\u" + Hex4(0xDC00 + n % 0x400) + rest) == Some((c, 11))
  {
    hide Hex4, CodeUnit;
    var n := c as nat - 0x10000;
    var high, low := 0xD800 + n / 0x400, 0xDC00 + n % 0x400;
    assert 0xD800 <= high < 0xDC00 && 0xDC00 <= low < 0xE000;
    FourDigits(high);
    FourDigits(low);
    PairParts(Hex4(high), Hex4(low), rest);
    CodeUnitRead(high, "\\u" + Hex4(low) + rest);
    CodeUnitRead(low, rest);
    assert 0x10000 + (high - 0xD800) * 0x400 + (low - 0xDC00) == c as nat;
  }

  lemma FourDigits(n: nat)
    requires n < 0x10000
    ensures |Hex4(n)| == 4
  {
  }

  lemma Escapes(c: char, ascii: bool, rest: string)
    requires EscapeChar(c, ascii) != [c]
    ensures var e := EscapeChar(c, ascii); |e| >= 2 && e[0] == '\\' && Escaped(e[1..] + rest) == Some((c, |e| - 1))
  {
    hide Hex4, CodeUnit;
    var e := EscapeChar(c, ascii);
    if e[1] == 'u' {
      if c <= '\U{FFFF}' {
        CodeUnitRead(c as nat, rest);
        FourDigits(c as nat);
        assert (e[1..] + rest)[1..] == Hex4(c as nat) + rest;
      } else {
        var n := c as nat - 0x10000;
        SurrogatesRead(c, rest);
        FourDigits(0xD800 + n / 0x400);
        FourDigits(0xDC00 + n % 0x400);
        assert e[1..] + rest == "u" + Hex4(0xD800 + n / 0x400) + "\\u" + Hex4(0xDC00 + n % 0x400) + rest;
      }
    }
  }

  /** A quoted text is read as the text it quotes, in either spelling. */
  lemma {:induction false} EscapesRead(s: string, ascii: bool, rest: string)
    ensures ReadCharacters(Escape(s, ascii) + ("\"" + rest)) == Some((s, rest))
  {
    hide EscapeChar;
    var q := "\"" + rest;
    if s == [] {
      assert "" + q == q && q[1..] == rest;
    } else {
      EscapesRead(s[1..], ascii, rest);
      var tail := Escape(s[1..], ascii) + q;
      EscapeRead(s[0], ascii, tail);
      assert Escape(s, ascii) + q == EscapeChar(s[0], ascii) + tail;
      assert [s[0]] + s[1..] == s;
    }
  }

  lemma QuotedRead(s: string, ascii: bool, rest: string)
    ensures var text := Quoted(s, ascii) + rest;
            text[0] == '"' && ReadCharacters(text[1..]) == Some((s, rest)) && ReadValue(text) == Some((Str(s), rest))
  {
    EscapesRead(s, ascii, rest);
    hide Escape, ReadCharacters;
    assert (Quoted(s, ascii) + rest)[1..] == Escape(s, ascii) + ("\"" + rest);
  }

  /** A quoted text is a JSON string of that text. */
  lemma QuotedReads(s: string, ascii: bool)
    ensures Reads(Quoted(s, ascii), Str(s))
  {
    QuotedRead(s, ascii, "");
    assert Quoted(s, ascii) + "" == Quoted(s, ascii);
  }

  lemma {:induction false} BlankSkipped(b: string, rest: string)
    requires Blank(b) && (rest == [] || !IsSpace(rest[0]))
    ensures Unblank(b + rest) == rest
  {
    if b == [] {
      assert b + rest == rest;
    } else {
      BlankSkipped(b[1..], rest);
      assert (b + rest)[1..] == b[1..] + rest;
    }
  }

  /** The first character of a rendered value is none of those that end something. */
  lemma DumpsStart(j: Json, level: nat, indent: string)
    requires WellFormed(j)
    ensures var text := Reindent(Dumps(j, level), indent);
            text != [] && !IsSpace(text[0]) && text[0] != ']' && text[0] != '}'
  {
    hide Reindent;
    var d := Dumps(j, level);
    if j.Number? {
      NumeralIsWord(j.digits);
    }
    assert d == [d[0]] + d[1..];
    ReindentJoin([d[0]], d[1..], indent);
    ReindentLine([d[0]], indent);
  }

  lemma WordRead(j: Json, level: nat, indent: string, rest: string)
    requires WellFormed(j) && !j.Str? && !j.Array? && !j.Dict? && EndsWord(rest)
    ensures ReadValue(Reindent(Dumps(j, level), indent) + rest) == Some((j, rest))
  {
    hide Reindent, Numeral;
    var w := Dumps(j, level);
    if j.Number? {
      NumeralIsWord(w);
    }
    ReindentLine(w, indent);
    WordEnds(w, rest);
  }

  /** A line break with its indentation. */
  function Break(level: nat, indent: string): string {
    Reindent(NewLine(level), indent)
  }

  lemma BreakSkipped(level: nat, indent: string, rest: string)
    requires Blank(indent) && (rest == [] || !IsSpace(rest[0]))
    ensures Unblank(Break(level, indent) + rest) == rest && EndsWord(Break(level, indent) + rest)
  {
    var line := NewLine(level);
    SpacesBlank(2 * level);
    ReindentBlank(line, indent);
    BlankSkipped(Reindent(line, indent), rest);
    hide Spaces;
    assert Reindent(line, indent) == ("\n" + indent) + Reindent(line[1..], indent);
    assert Break(level, indent)[0] == '\n';
  }

  lemma EmptyText(open: char, close: char, indent: string, rest: string)
    requires open != '\n' && close != '\n'
    ensures Reindent([open, close], indent) + rest == [open] + ([close] + rest)
  {
    ReindentLine([open, close], indent);
  }

  /** A container with something in it, in front of rest. */
  lemma FilledText(open: char, inner: string, level: nat, indent: string, rest: string)
    requires IsOpener(open)
    ensures var text := [open] + NewLine(level + 1) + inner + NewLine(level) + [Closing(open)];
            Reindent(text, indent) + rest
            == [open] + (Break(level + 1, indent) + (Reindent(inner, indent) + (Break(level, indent) + ([Closing(open)] + rest))))
  {
    hide Reindent, NewLine;
    var first, last := NewLine(level + 1), NewLine(level);
    assert [open] + first + inner + last + [Closing(open)] == [open] + ((first + inner) + last + [Closing(open)]);
    ContainerText(open, first, inner, last, indent);
  }

  lemma ListText(first: string, level: nat, others: string, indent: string)
    ensures Reindent(first + ("," + NewLine(level) + others), indent)
         == Reindent(first, indent) + ("," + (Break(level, indent) + Reindent(others, indent)))
  {
    ReindentLine(",", indent);
    hide Reindent, NewLine;
    var line := NewLine(level);
    ReindentJoin(first, "," + line + others, indent);
    ReindentJoin("," + line, others, indent);
    ReindentJoin(",", line, indent);
    Regroup(Reindent(first, indent), Break(level, indent), Reindent(others, indent));
  }

  lemma Regroup(a: string, b: string, c: string)
    ensures a + (("," + b) + c) == a + ("," + (b + c))
  {
  }

  lemma ArrayRead(line: string, inner: string, elements: seq<Json>, rest: string)
    requires Unblank(line + inner) == inner && inner != [] && inner[0] != ']' && ReadElements(inner) == Some((elements, rest))
    ensures ReadValue("[" + (line + inner)) == Some((Array(elements), rest))
  {
    hide ReadElements, Unblank;
    assert ("[" + (line + inner))[1..] == line + inner;
  }

  lemma LastElement(s: string, j: Json, line: string, rest: string)
    requires ReadValue(s) == Some((j, line + ("]" + rest))) && Unblank(line + ("]" + rest)) == "]" + rest
    ensures ReadElements(s) == Some(([j], rest))
  {
    hide ReadValue, Unblank;
    assert ("]" + rest)[1..] == rest;
  }

  lemma NextElement(s: string, j: Json, line: string, more: string, elements: seq<Json>, rest: string)
    requires ReadValue(s) == Some((j, "," + (line + more))) && Unblank(line + more) == more
    requires ReadElements(more) == Some((elements, rest))
    ensures ReadElements(s) == Some(([j] + elements, rest))
  {
    hide ReadValue;
    var t := "," + (line + more);
    assert Unblank(t) == t && t[1..] == line + more;
    hide Unblank;
  }

  lemma ElementsStart(elements: seq<Json>, level: nat, indent: string, rest: string)
    requires elements != [] && WellFormed(elements[0])
    ensures var text := Reindent(Elements(elements, level), indent) + rest;
            text != [] && !IsSpace(text[0]) && text[0] != ']'
  {
    hide Reindent, Dumps;
    DumpsStart(elements[0], level, indent);
    var first := Dumps(elements[0], level);
    ReindentJoin(first, Elements(elements, level)[|first|..], indent);
    assert Elements(elements, level) == first + Elements(elements, level)[|first|..];
  }

  lemma {:induction false} ElementsRead(elements: seq<Json>, level: nat, outer: nat, indent: string, rest: string)
    requires elements != [] && Blank(indent) && forall e <- elements :: WellFormed(e)
    ensures ReadElements(Reindent(Elements(elements, level), indent) + (Break(outer, indent) + ("]" + rest))) == Some((elements, rest))
    decreases elements, 1
  {
    hide Reindent, Dumps, NewLine, Blank, WellFormed, Break, ReadElements, ReadValue, Unblank;
    var j := elements[0];
    var first, line := Dumps(j, level), Break(level, indent);
    var end := Break(outer, indent) + ("]" + rest);
    BreakSkipped(outer, indent, "]" + rest);
    if |elements| == 1 {
      assert Elements(elements, level) == first;
      ReadRendered(j, level, indent, end);
      LastElement(Reindent(first, indent) + end, j, Break(outer, indent), rest);
      assert elements == [j];
    } else {
      var others := Elements(elements[1..], level);
      var more := Reindent(others, indent) + end;
      ListText(first, level, others, indent);
      assert Elements(elements, level) == first + ("," + NewLine(level) + others);
      var s := Reindent(first, indent) + ("," + (line + more));
      assert Reindent(Elements(elements, level), indent) + end == s;
      ReadRendered(j, level, indent, "," + (line + more));
      ElementsStart(elements[1..], level, indent, end);
      BreakSkipped(level, indent, more);
      ElementsRead(elements[1..], level, outer, indent, rest);
      NextElement(s, j, line, more, elements[1..], rest);
      assert elements == [j] + elements[1..];
    }
  }

  lemma ObjectRead(line: string, inner: string, members: seq<Member>, rest: string)
    requires Unblank(line + inner) == inner && inner != [] && inner[0] != '}' && ReadMembers(inner) == Some((members, rest))
    ensures ReadValue("{" + (line + inner)) == Some((Dict(members), rest))
  {
    hide ReadMembers, Unblank;
    assert ("{" + (line + inner))[1..] == line + inner;
  }

  lemma LastMember(s: string, m: Member, line: string, rest: string)
    requires ReadPair(s) == Some((m, line + ("}" + rest))) && Unblank(line + ("}" + rest)) == "}" + rest
    ensures ReadMembers(s) == Some(([m], rest))
  {
    hide ReadPair, Unblank;
    assert ("}" + rest)[1..] == rest;
  }

  lemma NextMember(s: string, m: Member, line: string, more: string, members: seq<Member>, rest: string)
    requires ReadPair(s) == Some((m, "," + (line + more))) && Unblank(line + more) == more
    requires ReadMembers(more) == Some((members, rest))
    ensures ReadMembers(s) == Some(([m] + members, rest))
  {
    hide ReadPair;
    var t := "," + (line + more);
    assert Unblank(t) == t && t[1..] == line + more;
    hide Unblank;
  }

  /** A name, a colon and a value, as the setup writes them. */
  function PairText(m: Member, level: nat): string {
    Quoted(m.name, false) + ": " + Dumps(m.value, level)
  }

  lemma PairSplit(m: Member, level: nat, indent: string)
    ensures Reindent(PairText(m, level), indent) == Quoted(m.name, false) + (": " + Reindent(Dumps(m.value, level), indent))
  {
    hide Quoted, Dumps;
    var q := Quoted(m.name, false);
    QuotedEnclosed(m.name, false);
    ReindentJoin(q + ": ", Dumps(m.value, level), indent);
    ReindentLine(q + ": ", indent);
  }

  lemma PairRead(name: string, value: string, j: Json, rest: string)
    requires ReadValue(value) == Some((j, rest)) && value != [] && !IsSpace(value[0])
    ensures ReadPair(Quoted(name, false) + (": " + value)) == Some((Member(name, j), rest))
  {
    QuotedRead(name, false, ": " + value);
    hide ReadValue, ReadCharacters, Quoted;
    var t := ": " + value;
    assert Unblank(t) == t && t[1..] == " " + value;
    assert (" " + value)[1..] == value;
    assert Unblank(" " + value) == Unblank(value) == value;
  }

  lemma {:induction false} MemberRead(m: Member, level: nat, indent: string, rest: string)
    requires Blank(indent) && WellFormed(m.value) && EndsWord(rest)
    ensures ReadPair(Reindent(PairText(m, level), indent) + rest) == Some((m, rest))
    decreases m, 1
  {
    hide Reindent, Dumps, Blank, WellFormed, ReadPair, ReadValue, PairText, Quoted;
    PairSplit(m, level, indent);
    var value := Reindent(Dumps(m.value, level), indent);
    ReadRendered(m.value, level, indent, rest);
    DumpsStart(m.value, level, indent);
    PairRead(m.name, value + rest, m.value, rest);
    assert Reindent(PairText(m, level), indent) + rest == Quoted(m.name, false) + (": " + (value + rest));
  }

  lemma MembersStart(members: seq<Member>, level: nat, indent: string, rest: string)
    requires members != []
    ensures var text := Reindent(Members(members, level), indent) + rest; text != [] && text[0] == '"'
  {
    hide Dumps;
    var d := Members(members, level);
    assert d[0] == '"';
  }

  lemma {:induction false} MembersRead(members: seq<Member>, level: nat, outer: nat, indent: string, rest: string)
    requires members != [] && Blank(indent) && forall m <- members :: WellFormed(m.value)
    ensures ReadMembers(Reindent(Members(members, level), indent) + (Break(outer, indent) + ("}" + rest))) == Some((members, rest))
    decreases members, 2
  {
    hide Reindent, PairText, NewLine, Blank, Break, ReadMembers, ReadPair, Unblank, Members;
    hide WellFormed;
    var m := members[0];
    var first, line := PairText(m, level), Break(level, indent);
    var end := Break(outer, indent) + ("}" + rest);
    BreakSkipped(outer, indent, "}" + rest);
    MembersText(members, level);
    if |members| == 1 {
      assert Members(members, level) == first;
      MemberRead(m, level, indent, end);
      LastMember(Reindent(first, indent) + end, m, Break(outer, indent), rest);
      assert members == [m];
    } else {
      var others := Members(members[1..], level);
      var more := Reindent(others, indent) + end;
      ListText(first, level, others, indent);
      var s := Reindent(first, indent) + ("," + (line + more));
      assert Reindent(Members(members, level), indent) + end == s;
      MemberRead(m, level, indent, "," + (line + more));
      MembersStart(members[1..], level, indent, end);
      BreakSkipped(level, indent, more);
      MembersRead(members[1..], level, outer, indent, rest);
      NextMember(s, m, line, more, members[1..], rest);
      assert members == [m] + members[1..];
    }
  }

  lemma MembersText(members: seq<Member>, level: nat)
    requires members != []
    ensures Members(members, level)
         == PairText(members[0], level)
            + if |members| == 1 then "" else "," + NewLine(level) + Members(members[1..], level)
  {
    hide Dumps, Quoted, NewLine;
  }

  /** json.dumps and a reader are inverse: a rendered value, nested at any level and
      with every line indented by blank text, is read back in front of anything that
      does not continue a word. */
  lemma {:induction false} ReadRendered(j: Json, level: nat, indent: string, rest: string)
    requires WellFormed(j) && Blank(indent) && (EndsWord(rest) || j.Str? || j.Array? || j.Dict?)
    ensures ReadValue(Reindent(Dumps(j, level), indent) + rest) == Some((j, rest))
    decreases j, 0
  {
    match j
    case Str(s) =>
      hide Reindent;
      QuotedEnclosed(s, false);
      ReindentLine(Quoted(s, false), indent);
      QuotedRead(s, false, rest);
    case Array(elements) =>
      if elements == [] {
        EmptyText('[', ']', indent, rest);
        EmptyArray(rest);
      } else {
        hide Reindent, NewLine, Blank, Break, ReadElements, ReadValue, Unblank;
        FilledText('[', Elements(elements, level + 1), level, indent, rest);
        var inner := Reindent(Elements(elements, level + 1), indent) + (Break(level, indent) + ("]" + rest));
        ElementsStart(elements, level + 1, indent, Break(level, indent) + ("]" + rest));
        BreakSkipped(level + 1, indent, inner);
        ElementsRead(elements, level + 1, level, indent, rest);
        ArrayRead(Break(level + 1, indent), inner, elements, rest);
      }
    case Dict(members) =>
      if members == [] {
        EmptyText('{', '}', indent, rest);
        EmptyObject(rest);
      } else {
        hide Reindent, NewLine, Blank, Break, ReadMembers, ReadValue, Unblank;
        FilledText('{', Members(members, level + 1), level, indent, rest);
        var inner := Reindent(Members(members, level + 1), indent) + (Break(level, indent) + ("}" + rest));
        MembersStart(members, level + 1, indent, Break(level, indent) + ("}" + rest));
        BreakSkipped(level + 1, indent, inner);
        MembersRead(members, level + 1, level, indent, rest);
        ObjectRead(Break(level + 1, indent), inner, members, rest);
      }
    case _ => WordRead(j, level, indent, rest);
  }

  lemma EmptyArray(rest: string)
    ensures ReadValue("[" + ("]" + rest)) == Some((Array([]), rest))
  {
    assert ("[" + ("]" + rest))[1..] == "]" + rest && ("]" + rest)[1..] == rest;
  }

  lemma EmptyObject(rest: string)
    ensures ReadValue("{" + ("}" + rest)) == Some((Dict([]), rest))
  {
    assert ("{" + ("}" + rest))[1..] == "}" + rest && ("}" + rest)[1..] == rest;
  }
}
