/**
 The textual edits of setup.py: where an entry is spliced into the user's text,
 and what a second scan of the edited text finds.
 */
module JsoncUpdate {
  import opened Results
  import opened JsonText
  import opened JsoncScanner
  import opened JsoncLocality
  import opened JsoncObjects
  import opened JsoncNesting
  import opened JsoncRender
  import opened JsoncReading
  import opened JsoncEdits
  import opened JsoncLoops

  /** The text behind the last newline. */
  function LastLine(s: string): string {
    if s == [] || s[|s| - 1] == '\n' then "" else LastLine(s[..|s| - 1]) + [s[|s| - 1]]
  }

  /** The text behind the last newline, told by the two parts. */
  lemma {:induction false} LastLineIs(s: string) returns (front: string)
    ensures s == front + LastLine(s) && '\n' !in LastLine(s) && (front == "" || front[|front| - 1] == '\n')
  {
    if s == [] || s[|s| - 1] == '\n' {
      front := s;
    } else {
      front := LastLineIs(s[..|s| - 1]);
      assert s == s[..|s| - 1] + [s[|s| - 1]];
    }
  }

  function LineIndent(source: string, index: nat, fallback: string): string
    requires index <= |source|
  {
    var indentation := LastLine(source[..index]);
    if Blank(indentation) then indentation else fallback
  }

  function Rendered(entry: Json, indent: string): string {
    Reindent(Dumps(entry, 0), indent)
  }

  function NameHead(name: string): string {
    Quoted(name, true) + ": "
  }

  function PropertyText(name: string, entry: Json, indent: string): string {
    indent + NameHead(name) + Rendered(entry, indent)
  }

  function InsertProperty(source: string, objectEnd: nat, properties: seq<Property>, propertyText: string,
                          fallback: string): string
    requires objectEnd <= |source|
    requires properties != [] ==> properties[|properties| - 1].valueEnd <= |source|
  {
    var closing := LineIndent(source, objectEnd, fallback);
    var open := properties != [] && !properties[|properties| - 1].hasTrailingComma;
    var at := if open then properties[|properties| - 1].valueEnd else 0;
    var text := if open then source[..at] + "," + source[at..] else source;
    var end := if open then objectEnd + 1 else objectEnd;
    text[..end] + "\n" + propertyText + "\n" + closing + text[end..]
  }

  lemma {:induction false} TextJoin(a: seq<Item>, b: seq<Item>)
    ensures Text(a + b) == Text(a) + Text(b)
  {
    hide ItemText;
    if a == [] {
      assert a + b == b;
    } else {
      TextJoin(a[1..], b);
      assert (a + b)[1..] == a[1..] + b;
    }
  }

  lemma TextOne(it: Item)
    ensures Text([it]) == ItemText(it)
  {
    assert Text([it]) == ItemText(it) + Text([]);
  }

  /** The text around the value of property i. */
  function Before(items: seq<Item>, i: nat): string
    requires i < |items|
  {
    Text(items[..i]) + items[i].head
  }

  function After(items: seq<Item>, i: nat): string
    requires i < |items|
  {
    Tail(items[i]) + Text(items[i + 1..])
  }

  lemma Regroup(a: string, b: string, c: string, d: string, e: string)
    ensures a + ((b + c + d) + e) == (a + b) + c + (d + e)
  {
  }

  lemma TextAround(items: seq<Item>, i: nat)
    requires i < |items|
    ensures Text(items) == Before(items, i) + items[i].value + After(items, i)
  {
    hide Text, Tail;
    var it := items[i];
    assert items == items[..i] + ([it] + items[i + 1..]);
    TextJoin(items[..i], [it] + items[i + 1..]);
    TextJoin([it], items[i + 1..]);
    TextOne(it);
    Regroup(Text(items[..i]), it.head, it.value, Tail(it), Text(items[i + 1..]));
  }

  lemma TextWithValue(items: seq<Item>, i: nat, v: string)
    requires i < |items|
    ensures Text(WithValue(items, i, v)) == Before(items, i) + v + After(items, i)
  {
    var items' := WithValue(items, i, v);
    assert items'[..i] == items[..i] && items'[i + 1..] == items[i + 1..];
    TextAround(items', i);
  }

  lemma {:induction false} LocateAt(items: seq<Item>, base: nat, i: nat)
    requires i < |items|
    ensures |Locate(items, base)| == |items|
    ensures Locate(items, base)[i] == PropertyOf(items[i], base + |Text(items[..i])|)
  {
    var it, rest := items[0], items[1..];
    LocateLength(items, base);
    if i > 0 {
      LocateAt(rest, base + |ItemText(it)|, i - 1);
      assert items[..i] == [it] + rest[..i - 1];
      TextJoin([it], rest[..i - 1]);
      TextOne(it);
    }
  }

  lemma {:induction false} LocateLength(items: seq<Item>, base: nat)
    ensures |Locate(items, base)| == |items|
  {
    if items != [] {
      LocateLength(items[1..], base + |ItemText(items[0])|);
    }
  }

  lemma {:induction false} FindLocated(items: seq<Item>, base: nat, key: string)
    ensures |Locate(items, base)| == |items|
    ensures forall i | 0 <= i < |items| :: Locate(items, base)[i].key == items[i].key
  {
    LocateLength(items, base);
    forall i | 0 <= i < |items|
      ensures Locate(items, base)[i].key == items[i].key
    {
      LocateAt(items, base, i);
    }
  }

  /** Where property i of an object stands in a text that has a in front of the object. */
  lemma Spot(a: string, o: Obj, b: string, i: nat)
    requires i < |o.items|
    ensures var source := a + ObjText(o) + b;
            var ps := Locate(o.items, |a| + 1 + |o.lead|);
            && |ps| == |o.items|
            && ps[i].key == o.items[i].key && ps[i].hasTrailingComma == o.items[i].comma
            && ps[i].valueEnd == ps[i].valueStart + |o.items[i].value|
            && ps[i].keyStart <= ps[i].valueStart <= ps[i].valueEnd <= |source|
            && source[..ps[i].valueStart] == a + ("{" + o.lead + Before(o.items, i))
            && source[ps[i].valueEnd..] == After(o.items, i) + ("}" + b)
            && source[ps[i].valueStart..] == o.items[i].value + (After(o.items, i) + ("}" + b))
            && (i == 0 ==> source[..ps[i].keyStart] == a + ("{" + o.lead))
  {
    var items := o.items;
    var source := a + ObjText(o) + b;
    LocateAt(items, |a| + 1 + |o.lead|, i);
    TextAround(items, i);
    var front, value, back := a + ("{" + o.lead + Before(items, i)), items[i].value, After(items, i) + ("}" + b);
    SpotText(a, o, b, Before(items, i), value, After(items, i));
    assert source == front + (value + back);
    assert source == (front + value) + back;
  }

  lemma SpotText(a: string, o: Obj, b: string, before: string, value: string, after: string)
    requires Text(o.items) == before + value + after
    ensures a + ObjText(o) + b == a + ("{" + o.lead + before) + (value + (after + ("}" + b)))
  {
    assert ObjText(o) == ("{" + o.lead + before) + (value + (after + "}"));
  }

  lemma ReplaceText(a: string, o: Obj, b: string, i: nat, v: string)
    requires i < |o.items|
    ensures a + ObjText(Obj(o.lead, WithValue(o.items, i, v))) + b
         == a + ("{" + o.lead + Before(o.items, i)) + v + (After(o.items, i) + ("}" + b))
  {
    TextWithValue(o.items, i, v);
    SpotText(a, Obj(o.lead, WithValue(o.items, i, v)), b, Before(o.items, i), v, After(o.items, i));
  }

  /** What stands in front of the closing bracket of an object. */
  function Inside(a: string, o: Obj): string {
    a + ("{" + o.lead + Text(o.items))
  }

  /** An object with a new last entry, as the setup writes it. */
  function WithEntry(a: string, o: Obj, indent: string, fallback: string, name: string, v: string): Obj {
    var line := LastLine(Inside(a, o));
    Appended(o, indent, if Blank(line) then line else fallback, name, NameHead(name), v)
  }

  /** The blank text in front of a place on its line, if there is nothing else there. */
  function IndentAt(p: string, fallback: string): string {
    if Blank(LastLine(p)) then LastLine(p) else fallback
  }

  /** The lines the setup adds in front of the closing bracket. */
  function Lines(propertyText: string, closing: string): string {
    "\n" + propertyText + "\n" + closing
  }

  lemma InsertPlain(p: string, rest: string, ps: seq<Property>, propertyText: string, fallback: string)
    requires ps == [] || (ps[|ps| - 1].hasTrailingComma && ps[|ps| - 1].valueEnd <= |p + rest|)
    ensures InsertProperty(p + rest, |p|, ps, propertyText, fallback)
         == p + Lines(propertyText, IndentAt(p, fallback)) + rest
  {
    Cut(p, rest);
  }

  lemma InsertComma(p: string, after: string, rest: string, ps: seq<Property>, propertyText: string, fallback: string)
    requires ps != [] && !ps[|ps| - 1].hasTrailingComma && ps[|ps| - 1].valueEnd == |p|
    ensures InsertProperty((p + after) + rest, |p + after|, ps, propertyText, fallback)
         == p + ("," + after) + Lines(propertyText, IndentAt(p + after, fallback)) + rest
  {
    var source := (p + after) + rest;
    Cut(p + after, rest);
    assert source == p + (after + rest);
    Cut(p, after + rest);
    var text := p + "," + (after + rest);
    assert text == (p + ("," + after)) + rest;
    Cut(p + ("," + after), rest);
  }

  lemma ObjAround(a: string, o: Obj, b: string)
    ensures a + ObjText(o) + b == Inside(a, o) + ("}" + b)
  {
  }

  /** The spliced text is the text of the object with the new entry. */
  lemma AppendText(a: string, o: Obj, b: string, indent: string, fallback: string, name: string, v: string)
    ensures var source := a + ObjText(o) + b;
            var end := |source| - |b| - 1;
            var ps := Locate(o.items, |a| + 1 + |o.lead|);
            && (ps != [] ==> ps[|ps| - 1].valueEnd <= |source|)
            && InsertProperty(source, end, ps, indent + NameHead(name) + v, fallback)
               == a + ObjText(WithEntry(a, o, indent, fallback, name, v)) + b
  {
    var ps := Locate(o.items, |a| + 1 + |o.lead|);
    LocateLength(o.items, |a| + 1 + |o.lead|);
    ObjAround(a, o, b);
    ObjAround(a, WithEntry(a, o, indent, fallback, name, v), b);
    var text := indent + NameHead(name) + v;
    if o.items == [] {
      InsertPlain(Inside(a, o), "}" + b, ps, text, fallback);
      EmptyInside(a, o, indent, fallback, name, v);
    } else {
      var k := |o.items| - 1;
      Spot(a, o, b, k);
      LastInside(a, o, indent, fallback, name, v);
      if o.items[k].comma {
        InsertPlain(Inside(a, o), "}" + b, ps, text, fallback);
      } else {
        InsertComma(ThroughValue(a, o), o.items[k].after, "}" + b, ps, text, fallback);
        ValueEndsAt(a, o, b);
      }
    }
  }

  lemma ItemLines(indent: string, name: string, v: string, closing: string)
    ensures "\n" + indent + ItemText(NewItem(name, NameHead(name), v, closing))
         == Lines(indent + NameHead(name) + v, closing)
  {
  }

  lemma EmptyInside(a: string, o: Obj, indent: string, fallback: string, name: string, v: string)
    requires o.items == []
    ensures Inside(a, WithEntry(a, o, indent, fallback, name, v))
         == Inside(a, o) + Lines(indent + NameHead(name) + v, IndentAt(Inside(a, o), fallback))
  {
    var closing := IndentAt(Inside(a, o), fallback);
    var item := NewItem(name, NameHead(name), v, closing);
    ItemLines(indent, name, v, closing);
    TextOne(item);
    assert Inside(a, o) == a + ("{" + o.lead);
  }

  /** The text up to the end of the last value. */
  function ThroughValue(a: string, o: Obj): string
    requires o.items != []
  {
    var k := |o.items| - 1;
    a + ("{" + o.lead + Before(o.items, k)) + o.items[k].value
  }

  lemma ValueEndsAt(a: string, o: Obj, b: string)
    requires o.items != []
    ensures var ps := Locate(o.items, |a| + 1 + |o.lead|);
            |ps| == |o.items| && ps[|ps| - 1].valueEnd == |ThroughValue(a, o)|
  {
    var k := |o.items| - 1;
    LocateAt(o.items, |a| + 1 + |o.lead|, k);
  }

  lemma LastInside(a: string, o: Obj, indent: string, fallback: string, name: string, v: string)
    requires o.items != []
    ensures var last := o.items[|o.items| - 1];
            var lines := Lines(indent + NameHead(name) + v, IndentAt(Inside(a, o), fallback));
            var inside' := Inside(a, WithEntry(a, o, indent, fallback, name, v));
            && (last.comma ==> inside' == Inside(a, o) + lines)
            && (!last.comma ==>
                  && Inside(a, o) == ThroughValue(a, o) + last.after
                  && inside' == ThroughValue(a, o) + ("," + last.after) + lines)
  {
    var k := |o.items| - 1;
    var last := o.items[k];
    var closing := IndentAt(Inside(a, o), fallback);
    var item := NewItem(name, NameHead(name), v, closing);
    LastAround(o.items);
    ExtendedText(o.items, indent, item);
    ItemLines(indent, name, v, closing);
    InsideParts(a, o.lead, Text(o.items[..k]), last, indent, item);
    assert WithEntry(a, o, indent, fallback, name, v) == Obj(o.lead, Extended(o.items, indent, item));
  }

  lemma InsideParts(a: string, lead: string, t: string, last: Item, indent: string, item: Item)
    ensures var text' := t + ItemText(Continued(last, indent)) + ItemText(item);
            var lines := "\n" + indent + ItemText(item);
            var through := a + ("{" + lead + (t + last.head)) + last.value;
            && (last.comma ==> a + ("{" + lead + text') == a + ("{" + lead + (t + ItemText(last))) + lines)
            && (!last.comma ==>
                  && a + ("{" + lead + (t + ItemText(last))) == through + last.after
                  && a + ("{" + lead + text') == through + ("," + last.after) + lines)
  {
    if !last.comma {
      assert ItemText(last) == last.head + last.value + last.after;
    }
  }

  lemma LastAround(items: seq<Item>)
    requires items != []
    ensures var k := |items| - 1; Text(items) == Text(items[..k]) + ItemText(items[k])
  {
    var k := |items| - 1;
    assert items == items[..k] + [items[k]];
    TextJoin(items[..k], [items[k]]);
    TextOne(items[k]);
  }

  lemma ExtendedText(items: seq<Item>, indent: string, item: Item)
    requires items != []
    ensures var k := |items| - 1;
            Text(Extended(items, indent, item)) == Text(items[..k]) + ItemText(Continued(items[k], indent)) + ItemText(item)
  {
    var k := |items| - 1;
    var last := Continued(items[k], indent);
    assert Extended(items, indent, item) == items[..k] + ([last] + [item]);
    TextJoin(items[..k], [last] + [item]);
    TextJoin([last], [item]);
    TextOne(last);
    TextOne(item);
  }

  /** json5 reads the two quoted names the setup may write. */
  predicate ReadsNames(lex: Lexicon, section: string) {
    && lex.decode(Quoted(section, true)) == Some(section)
    && lex.decode(Quoted("flameox", true)) == Some("flameox")
  }

  /** json5 reads the strings of JSON as JSON does. */
  ghost predicate ReadsJson(lex: Lexicon) {
    forall q, s :: Reads(q, Str(s)) ==> lex.decode(q) == Some(s)
  }

  lemma NamesAreRead(lex: Lexicon, section: string)
    requires ReadsJson(lex)
    ensures ReadsNames(lex, section)
  {
    QuotedReads(section, true);
    QuotedReads("flameox", true);
  }

  /** v is read as the entry; it is what json.dumps writes, every line indented by
      blank text. */
  ghost predicate IsRendering(v: string, entry: Json) {
    Reads(v, entry) && exists indent: string :: Blank(indent) && v == Rendered(entry, indent)
  }

  /** o' is o with the entry under the name flameox: in place of the old value when
      there is one, behind every other property otherwise.  Nothing else differs. */
  ghost predicate EntryWritten(o: Obj, o': Obj, entry: Json) {
    match Find(o.items, "flameox")
    case Some(j) => exists v :: IsRendering(v, entry) && o' == Obj(o.lead, WithValue(o.items, j, v))
    case None => exists v :: IsRendering(v, entry) && EntryAdded(o, o', "flameox", v)
  }

  /** o' is o with one more entry; the old ones keep even their comments. */
  ghost predicate EntryAdded(o: Obj, o': Obj, name: string, v: string) {
    && Entries(o'.items) == Entries(o.items) + [(name, v)]
    && exists indent: string, closing: string ::
         Blank(indent) && Blank(closing) && o' == Appended(o, indent, closing, name, NameHead(name), v)
  }

  /** What a scan of the edited text finds, d being what it found before. */
  ghost predicate Updated(lex: Lexicon, d: Doc, d': Doc, section: string, entry: Json) {
    && d'.start == d.start && d'.rest == d.rest
    && match Find(d.root.items, section)
       case None => exists o' :: SectionAdded(lex, d.root, d'.root, o', section, entry)
       case Some(i) => exists o, o' :: SectionChanged(lex, d.root, d'.root, i, o, o', entry)
  }

  /** A new section that is scanned as o', holding the entry alone. */
  ghost predicate SectionAdded(lex: Lexicon, root: Obj, root': Obj, o': Obj, section: string, entry: Json) {
    && EntryAdded(root, root', section, ObjText(o'))
    && Object(lex, ObjText(o')) == Ok((o', ""))
    && exists v :: IsRendering(v, entry) && Entries(o'.items) == [("flameox", v)]
  }

  /** Section i was scanned as o and is now scanned as o'. */
  ghost predicate SectionChanged(lex: Lexicon, root: Obj, root': Obj, i: nat, o: Obj, o': Obj, entry: Json) {
    && i < |root.items|
    && Object(lex, root.items[i].value) == Ok((o, "")) && Object(lex, ObjText(o')) == Ok((o', ""))
    && EntryWritten(o, o', entry)
    && root' == Obj(root.lead, WithValue(root.items, i, ObjText(o')))
  }

  /** The text from the value of property i on. */
  function FromValue(d: Doc, i: nat): string
    requires i < |d.root.items|
  {
    d.root.items[i].value + (After(d.root.items, i) + ("}" + d.rest))
  }

  /** The edit succeeds exactly when the root object, and the section if there is
      one, can be scanned. */
  function Scans(lex: Lexicon, source: string, section: string): Result<Doc, Failure> {
    var d :- Parse(lex, source);
    match Find(d.root.items, section)
    case None => Ok(d)
    case Some(i) =>
      var _ :- Object(lex, FromValue(d, i));
      Ok(d)
  }

  /** The section holds no bare value that JSON5 forbids (or there is none). */
  predicate SectionPlain(lex: Lexicon, d: Doc, section: string) {
    match Find(d.root.items, section)
    case None => true
    case Some(i) => Object(lex, FromValue(d, i)).Ok? && PlainItems(Object(lex, FromValue(d, i)).value.0.items)
  }

  lemma ParseIsDecomposition(lex: Lexicon, source: string, d: Doc)
    requires Parse(lex, source) == Ok(d)
    ensures source == DocText(d) && ObjOk(lex, d.root, d.rest) && StartTrivia(source) == Ok(|d.start|)
    ensures Object(lex, source[|d.start|..]) == Ok((d.root, d.rest)) && |d.start| < |source|
  {
    hide StartTrivia, Object, ObjOk, ObjText, DocText;
    var n := StartTrivia(source).value;
    assert Object(lex, source[n..]).Ok?;
    var (root, rest) := Object(lex, source[n..]).value;
    assert d == Doc(source[..n], root, rest);
    ObjectIsDecomposition(lex, source[n..], root, rest);
    DocAround(d);
    assert source == source[..n] + source[n..];
  }

  lemma DocAround(d: Doc)
    ensures DocText(d) == d.start + (ObjText(d.root) + d.rest) && ObjText(d.root) + d.rest != []
    ensures (ObjText(d.root) + d.rest)[0] == '{'
  {
    var t := d.root.lead + Text(d.root.items) + "}";
    assert ObjText(d.root) == "{" + t;
  }

  /** An edited root object is found again behind the same start. */
  lemma RootAgain(lex: Lexicon, d: Doc, root': Obj)
    requires Parse(lex, DocText(d)) == Ok(d) && ObjOk(lex, root', d.rest)
    ensures Parse(lex, DocText(d.(root := root'))) == Ok(d.(root := root'))
  {
    var d' := d.(root := root');
    ParseIsDecomposition(lex, DocText(d), d);
    hide *;
    DocAround(d);
    DocAround(d');
    var s' := ObjText(root') + d.rest;
    ObjectIsDecomposition(lex, s', root', d.rest);
    StartAgain(d.start, ObjText(d.root) + d.rest, s');
  }

  lemma StartAgain(start: string, r: string, q: string)
    requires r != [] && q != [] && r[0] == '{' && q[0] == '{' && StartTrivia(start + r) == Ok(|start|)
    ensures StartTrivia(start + q) == Ok(|start|)
  {
    NoTriviaIff(q);
    if start == [] {
      assert start + q == q && start + r == r;
    } else if start[0] == BOM {
      Slices(start, r, 1);
      Slices(start, q, 1);
      TriviaAppend(start[1..], r, q);
    } else {
      TriviaAppend(start, r, q);
    }
  }

  lemma NameHeadOk(lex: Lexicon, name: string)
    requires lex.decode(Quoted(name, true)) == Some(name)
    ensures IsHead(lex, NameHead(name), name) && NameHead(name)[0] != '}'
  {
    var q := Quoted(name, true);
    var sep := ": " + "{";
    QuotedEnclosed(name, true);
    FirstChar(q, "}");
    TokenLocal(q, "}", sep);
    assert NameHead(name) + "{" == q + sep;
    Cut(q, sep);
    Colon();
    HeadOf(lex, q + sep, |q|, 2, name);
  }

  lemma Colon()
    ensures Separator(": " + "{") == Ok(2)
  {
    var s := ": " + "{";
    NoTriviaIff(s);
    assert s[1..] == " {" && " {"[1..] == "{";
    NoTriviaIff("{");
    SeparatorOf(s, 0);
  }

  lemma RenderedEnclosed(entry: Json, indent: string)
    requires entry.Dict? && WellFormed(entry) && Blank(indent)
    ensures Enclosed(Rendered(entry, indent)) && IsRendering(Rendered(entry, indent), entry)
  {
    ContainerEnclosed(entry, 0, indent);
    ReadRendered(entry, 0, indent, "");
    assert Rendered(entry, indent) + "" == Rendered(entry, indent);
    hide Rendered, ReadValue;
  }

  /** A plain object is one value, and is scanned the same standing alone. */
  lemma Alone(lex: Lexicon, o: Obj, rest: string)
    requires ObjOk(lex, o, rest) && PlainItems(o.items)
    ensures Enclosed(ObjText(o)) && Object(lex, ObjText(o)) == Ok((o, ""))
  {
    ObjectIsOneValue(lex, o, rest);
    ItemsMove(lex, o.items, "}" + rest, "}");
    assert ObjText(o) + "" == ObjText(o) && "}" + "" == "}";
    ObjectIsDecomposition(lex, ObjText(o), o, "");
  }

  /** The property loop and the bracket loop cut the same value out of the text. */
  lemma SectionValue(lex: Lexicon, v: string, rest: string, o: Obj, r: string)
    requires Fits(v, rest) && v != [] && v[0] == '{' && Object(lex, v + rest) == Ok((o, r)) && PlainItems(o.items)
    ensures v == ObjText(o) && r == rest
  {
    ObjectIsDecomposition(lex, v + rest, o, r);
    ObjectIsOneValue(lex, o, r);
    EnclosedAnywhere(ObjText(o), "}", r);
    Cut(v, rest);
    Cut(ObjText(o), r);
  }
}
