/**
 The two edits themselves, written as setup.py writes them, and their theorem: a
 second scan of the edited text finds the edited entry and nothing else changed.
 */
module JsoncEditor {
  import opened Results
  import opened JsonText
  import opened JsoncScanner
  import opened JsoncLocality
  import opened JsoncObjects
  import opened JsoncNesting
  import opened JsoncRender
  import opened JsoncEdits
  import opened JsoncLoops
  import opened JsoncUpdate

  lemma IndentBlank(source: string, index: nat, fallback: string)
    requires index <= |source| && Blank(fallback)
    ensures Blank(LineIndent(source, index, fallback))
  {
  }

  /** The section after the edit. */
  function Edited(a: string, o: Obj, indent: string, fallback: string, entry: Json): Obj {
    match Find(o.items, "flameox")
    case Some(j) => Obj(o.lead, WithValue(o.items, j, Rendered(entry, indent)))
    case None => WithEntry(a, o, indent, fallback, "flameox", Rendered(entry, indent))
  }

  lemma WithEntryOk(lex: Lexicon, a: string, o: Obj, b: string, indent: string, fallback: string, name: string, v: string)
    requires ObjOk(lex, o, b) && Blank(indent) && Blank(fallback) && Enclosed(v)
    requires lex.decode(Quoted(name, true)) == Some(name)
    ensures var o' := WithEntry(a, o, indent, fallback, name, v);
            && ObjOk(lex, o', b) && EntryAdded(o, o', name, v)
            && (PlainItems(o.items) ==> PlainItems(o'.items))
  {
    hide ItemsOk, IsTrivia, Enclosed, PlainItems, IsHead, Appended;
    var closing := IndentAt(Inside(a, o), fallback);
    NameHeadOk(lex, name);
    AppendOk(lex, o, b, indent, closing, name, NameHead(name), v);
    AppendEntries(o, indent, closing, name, NameHead(name), v);
    if PlainItems(o.items) {
      AppendPlain(o, indent, closing, name, NameHead(name), v);
    }
  }

  lemma EditedOk(lex: Lexicon, a: string, o: Obj, b: string, indent: string, fallback: string, entry: Json)
    requires ObjOk(lex, o, b) && PlainItems(o.items) && Blank(indent) && Blank(fallback)
    requires entry.Dict? && WellFormed(entry) && lex.decode(Quoted("flameox", true)) == Some("flameox")
    ensures var o' := Edited(a, o, indent, fallback, entry);
            ObjOk(lex, o', b) && PlainItems(o'.items) && EntryWritten(o, o', entry)
  {
    hide ItemsOk, IsTrivia, Enclosed, PlainItems, Rendered, WithEntry;
    var v := Rendered(entry, indent);
    RenderedEnclosed(entry, indent);
    match Find(o.items, "flameox")
    case Some(j) =>
      ReplaceOk(lex, o, b, j, v);
      ReplacePlain(o.items, j, v);
    case None =>
      WithEntryOk(lex, a, o, b, indent, fallback, "flameox", v);
  }

  /** The indentation of the root's first property. */
  function RootIndent(d: Doc): string {
    if d.root.items == [] then "  " else IndentAt(d.start + ("{" + d.root.lead), "  ")
  }

  /** The indentation of the first property of a section. */
  function SectionIndent(d: Doc, i: nat, o: Obj): string
    requires i < |d.root.items|
  {
    if o.items == [] then RootIndent(d) + "  " else IndentAt(Front(d, i) + ("{" + o.lead), RootIndent(d) + "  ")
  }

  /** The text of a document whose section i, scanned as o, gets the entry: it is
      aligned with its neighbours. */
  function TextWithEntry(d: Doc, i: nat, o: Obj, rest: string, entry: Json): string
    requires i < |d.root.items|
  {
    Front(d, i) + ObjText(Edited(Front(d, i), o, SectionIndent(d, i, o), RootIndent(d), entry)) + rest
  }

  /** The text of a document that gets a section for the entry. */
  function TextWithSection(d: Doc, section: string, entry: Json): string {
    var indent := RootIndent(d);
    DocText(d.(root := WithEntry(d.start, d.root, indent, "", section, ObjText(FreshSection(entry, indent + "  ", indent)))))
  }

  lemma RootIndentIs(d: Doc)
    ensures Blank(RootIndent(d))
  {
  }

  /** What LineIndent finds in front of the first key. */
  lemma FirstIndent(a: string, o: Obj, b: string, fallback: string)
    ensures var source := a + ObjText(o) + b;
            var ps := Locate(o.items, |a| + 1 + |o.lead|);
            && (ps == [] <==> o.items == [])
            && (ps != [] ==> ps[0].keyStart <= |source| && LineIndent(source, ps[0].keyStart, fallback) == IndentAt(a + ("{" + o.lead), fallback))
  {
    LocateLength(o.items, |a| + 1 + |o.lead|);
    hide LastLine, ObjText, Locate;
    if o.items != [] {
      Spot(a, o, b, 0);
    }
  }

  /** The section a configuration gets that has none. */
  function FreshSection(entry: Json, entryIndent: string, rootIndent: string): Obj {
    Obj("\n" + entryIndent, [NewItem("flameox", NameHead("flameox"), Rendered(entry, entryIndent), rootIndent)])
  }

  lemma FreshText(entry: Json, entryIndent: string, rootIndent: string)
    ensures ObjText(FreshSection(entry, entryIndent, rootIndent))
         == "{\n" + PropertyText("flameox", entry, entryIndent) + "\n" + rootIndent + "}"
  {
    hide Quoted, Rendered;
    TextOne(FreshSection(entry, entryIndent, rootIndent).items[0]);
    var h, v := NameHead("flameox"), Rendered(entry, entryIndent);
    assert "{" + ("\n" + entryIndent) + (h + v + ("\n" + rootIndent + "")) + "}"
        == "{\n" + (entryIndent + h + v) + "\n" + rootIndent + "}";
  }

  lemma FreshOk(lex: Lexicon, entry: Json, entryIndent: string, rootIndent: string)
    requires Blank(entryIndent) && Blank(rootIndent)
    requires entry.Dict? && WellFormed(entry) && lex.decode(Quoted("flameox", true)) == Some("flameox")
    ensures var o' := FreshSection(entry, entryIndent, rootIndent);
            && Enclosed(ObjText(o')) && Object(lex, ObjText(o')) == Ok((o', ""))
            && exists v :: IsRendering(v, entry) && Entries(o'.items) == [("flameox", v)]
  {
    hide Enclosed, ObjText, Object, Quoted, WellFormed, NameHead, ObjOk, Rendered;
    var o' := FreshSection(entry, entryIndent, rootIndent);
    var v := Rendered(entry, entryIndent);
    RenderedEnclosed(entry, entryIndent);
    NameHeadOk(lex, "flameox");
    FreshParts(lex, entryIndent, rootIndent, v);
    Alone(lex, o', "");
    assert Entries(o'.items) == [("flameox", v)];
  }

  lemma FreshParts(lex: Lexicon, entryIndent: string, rootIndent: string, v: string)
    requires Blank(entryIndent) && Blank(rootIndent) && Enclosed(v)
    requires IsHead(lex, NameHead("flameox"), "flameox") && NameHead("flameox")[0] != '}'
    ensures var o' := Obj("\n" + entryIndent, [NewItem("flameox", NameHead("flameox"), v, rootIndent)]);
            ObjOk(lex, o', "") && PlainItems(o'.items)
  {
    hide IsHead, NameHead, ItemsOk, Fits, Value, Trivia;
    var item := NewItem("flameox", NameHead("flameox"), v, rootIndent);
    NewItemOk(lex, item, "}", rootIndent);
    assert "}" + "" == "}";
    SpacesAreTrivia("\n" + entryIndent);
    assert PlainValue(item.value);
  }

  /** The edit of a section, seen from the whole document. */
  lemma SectionEdited(lex: Lexicon, d: Doc, section: string, entry: Json, i: nat, o: Obj, o': Obj)
    requires Parse(lex, DocText(d)) == Ok(d) && Find(d.root.items, section) == Some(i)
    requires d.root.items[i].value == ObjText(o) && ObjOk(lex, o, After(d.root.items, i) + ("}" + d.rest))
    requires PlainItems(o.items)
    requires ObjOk(lex, o', After(d.root.items, i) + ("}" + d.rest)) && PlainItems(o'.items) && EntryWritten(o, o', entry)
    ensures var d' := d.(root := Obj(d.root.lead, WithValue(d.root.items, i, ObjText(o'))));
            Parse(lex, DocText(d')) == Ok(d') && Updated(lex, d, d', section, entry)
  {
    var r := After(d.root.items, i) + ("}" + d.rest);
    hide *;
    ParseIsDecomposition(lex, DocText(d), d);
    Alone(lex, o, r);
    Alone(lex, o', r);
    var root' := Obj(d.root.lead, WithValue(d.root.items, i, ObjText(o')));
    ReplaceOk(lex, d.root, d.rest, i, ObjText(o'));
    RootAgain(lex, d, root');
    ChangedIntro(lex, d, root', section, entry, i, o, o');
  }

  lemma ChangedIntro(lex: Lexicon, d: Doc, root': Obj, section: string, entry: Json, i: nat, o: Obj, o': Obj)
    requires Find(d.root.items, section) == Some(i) && i < |d.root.items|
    requires Object(lex, d.root.items[i].value) == Ok((o, "")) && Object(lex, ObjText(o')) == Ok((o', ""))
    requires EntryWritten(o, o', entry) && root' == Obj(d.root.lead, WithValue(d.root.items, i, ObjText(o')))
    ensures Updated(lex, d, d.(root := root'), section, entry)
  {
    hide Object, EntryWritten, ObjText, WithValue, Find;
    assert SectionChanged(lex, d.root, root', i, o, o', entry);
  }

  lemma SectionFits(lex: Lexicon, d: Doc, i: nat)
    requires ObjOk(lex, d.root, d.rest) && i < |d.root.items|
    ensures Fits(d.root.items[i].value, After(d.root.items, i) + ("}" + d.rest))
  {
    ItemAt(lex, d.root.items, "}" + d.rest, i);
    assert Tail(d.root.items[i]) + (Text(d.root.items[i + 1..]) + ("}" + d.rest))
        == After(d.root.items, i) + ("}" + d.rest);
  }

  lemma {:induction false} ItemAt(lex: Lexicon, items: seq<Item>, end: string, i: nat)
    requires ItemsOk(lex, items, end) && i < |items|
    ensures ItemOk(lex, items[i], Text(items[i + 1..]) + end)
  {
    if i > 0 {
      ItemAt(lex, items[1..], end, i - 1);
      assert items[1..][i..] == items[i + 1..];
    }
  }

  /** The object in a section's place is what the property loop reads there. */
  lemma SectionRead(lex: Lexicon, d: Doc, i: nat, o: Obj, r: string)
    requires ObjOk(lex, d.root, d.rest) && i < |d.root.items|
    requires Object(lex, FromValue(d, i)) == Ok((o, r)) && PlainItems(o.items)
    ensures d.root.items[i].value == ObjText(o) && r == After(d.root.items, i) + ("}" + d.rest)
    ensures ObjOk(lex, o, r)
  {
    var v, rest := d.root.items[i].value, After(d.root.items, i) + ("}" + d.rest);
    SectionFits(lex, d, i);
    ObjectIsDecomposition(lex, v + rest, o, r);
    if v == [] {
      assert v + rest == rest;
      FitsBare(v, rest);
      assert false;
    }
    assert (v + rest)[0] == v[0];
    SectionValue(lex, v, rest, o, r);
  }

  /** A root object with a fresh section. */
  lemma RootExtended(lex: Lexicon, d: Doc, section: string, entry: Json, rootIndent: string)
    requires Parse(lex, DocText(d)) == Ok(d) && Find(d.root.items, section) == None
    requires Blank(rootIndent) && entry.Dict? && WellFormed(entry) && ReadsNames(lex, section)
    ensures var o' := FreshSection(entry, rootIndent + "  ", rootIndent);
            var d' := d.(root := WithEntry(d.start, d.root, rootIndent, "", section, ObjText(o')));
            Parse(lex, DocText(d')) == Ok(d') && Updated(lex, d, d', section, entry)
  {
    hide *;
    var o' := FreshSection(entry, rootIndent + "  ", rootIndent);
    var v := ObjText(o');
    Blanks(rootIndent);
    Names(lex, section);
    ParseIsDecomposition(lex, DocText(d), d);
    FreshOk(lex, entry, rootIndent + "  ", rootIndent);
    WithEntryOk(lex, d.start, d.root, d.rest, rootIndent, "", section, v);
    var root' := WithEntry(d.start, d.root, rootIndent, "", section, v);
    RootAgain(lex, d, root');
    AddedIntro(lex, d, root', section, entry, o');
  }

  lemma AddedIntro(lex: Lexicon, d: Doc, root': Obj, section: string, entry: Json, o': Obj)
    requires Find(d.root.items, section) == None
    requires EntryAdded(d.root, root', section, ObjText(o')) && Object(lex, ObjText(o')) == Ok((o', ""))
    requires exists v :: IsRendering(v, entry) && Entries(o'.items) == [("flameox", v)]
    ensures Updated(lex, d, d.(root := root'), section, entry)
  {
    hide Object, EntryAdded, ObjText, Find, IsRendering, Entries;
    assert SectionAdded(lex, d.root, root', o', section, entry);
  }

  method FindProperty(properties: seq<Property>, key: string) returns (r: Option<nat>)
    ensures match r
            case None => forall p <- properties :: p.key != key
            case Some(i) => i < |properties| && properties[i].key == key && forall j | 0 <= j < i :: properties[j].key != key
  {
    var i := 0;
    while i < |properties|
      invariant i <= |properties| && forall j | 0 <= j < i :: properties[j].key != key
    {
      if properties[i].key == key {
        return Some(i);
      }
      i := i + 1;
    }
    return None;
  }

  lemma SameFind(items: seq<Item>, base: nat, key: string, r: Option<nat>)
    requires match r
             case None => forall p <- Locate(items, base) :: p.key != key
             case Some(i) =>
               && i < |Locate(items, base)| && Locate(items, base)[i].key == key
               && forall j | 0 <= j < i :: Locate(items, base)[j].key != key
    ensures r == Find(items, key)
  {
    FindLocated(items, base, key);
    var ps := Locate(items, base);
    var f := Find(items, key);
    if r == None && f.Some? {
      assert false;
    } else if r.Some? {
      assert items[r.value] in items;
    }
  }

  /** The text in front of the value of property i. */
  function Front(d: Doc, i: nat): string
    requires i < |d.root.items|
  {
    d.start + ("{" + d.root.lead + Before(d.root.items, i))
  }

  lemma SectionSpot(lex: Lexicon, d: Doc, i: nat)
    requires ObjOk(lex, d.root, d.rest) && i < |d.root.items|
    ensures var source := DocText(d);
            var ps := Locate(d.root.items, |d.start| + 1 + |d.root.lead|);
            && |ps| == |d.root.items| && 0 < ps[i].valueStart <= ps[i].valueEnd <= |source|
            && source[ps[i].valueStart..] == FromValue(d, i) && source[..ps[i].valueStart] == Front(d, i)
            && TriviaFrom(source, ps[i].valueStart) == Ok(ps[i].valueStart)
  {
    hide ItemsOk, Trivia, Text, ItemText;
    Spot(d.start, d.root, d.rest, i);
    SectionFits(lex, d, i);
  }

  /** Both ways of writing the entry give the text of the edited section. */
  lemma SectionText(a: string, o: Obj, r: string, indent: string, fallback: string, entry: Json)
    ensures var source := a + ObjText(o) + r;
            var ps := Locate(o.items, |a| + 1 + |o.lead|);
            var end := |source| - |r| - 1;
            match Find(o.items, "flameox")
            case Some(j) =>
              && j < |ps| && ps[j].valueStart <= ps[j].valueEnd <= |source|
              && source[..ps[j].valueStart] + Rendered(entry, indent) + source[ps[j].valueEnd..]
                 == a + ObjText(Edited(a, o, indent, fallback, entry)) + r
            case None =>
              && (ps != [] ==> ps[|ps| - 1].valueEnd <= |source|)
              && InsertProperty(source, end, ps, PropertyText("flameox", entry, indent), fallback)
                 == a + ObjText(Edited(a, o, indent, fallback, entry)) + r
  {
    hide ObjText, Rendered, Locate, WithEntry, NameHead, InsertProperty;
    var v := Rendered(entry, indent);
    match Find(o.items, "flameox")
    case Some(j) =>
      Spot(a, o, r, j);
      ReplaceText(a, o, r, j, v);
    case None =>
      AppendText(a, o, r, indent, fallback, "flameox", v);
  }

  lemma SectionTheorem(lex: Lexicon, d: Doc, section: string, entry: Json, i: nat, o: Obj, r: string, indent: string, fallback: string)
    requires Parse(lex, DocText(d)) == Ok(d) && Find(d.root.items, section) == Some(i) && i < |d.root.items|
    requires Object(lex, FromValue(d, i)) == Ok((o, r)) && PlainItems(o.items)
    requires Blank(indent) && Blank(fallback)
    requires entry.Dict? && WellFormed(entry) && lex.decode(Quoted("flameox", true)) == Some("flameox")
    ensures var o' := Edited(Front(d, i), o, indent, fallback, entry);
            var d' := d.(root := Obj(d.root.lead, WithValue(d.root.items, i, ObjText(o'))));
            && Parse(lex, DocText(d')) == Ok(d') && Updated(lex, d, d', section, entry)
            && DocText(d') == Front(d, i) + ObjText(o') + r
  {
    ParseIsDecomposition(lex, DocText(d), d);
    var o' := Edited(Front(d, i), o, indent, fallback, entry);
    var d' := d.(root := Obj(d.root.lead, WithValue(d.root.items, i, ObjText(o'))));
    hide ObjOk, PlainItems, Edited, Object, Updated, Parse, ObjText, EntryWritten;
    SectionRead(lex, d, i, o, r);
    EditedOk(lex, Front(d, i), o, r, indent, fallback, entry);
    SectionEdited(lex, d, section, entry, i, o, o');
    ReplaceText(d.start, d.root, d.rest, i, ObjText(o'));
  }

  /** A root object without the section gets one. */
  method AddSection(lex: Lexicon, source: string, ghost d: Doc, section: string, entry: Json,
                    rootProperties: seq<Property>, rootEnd: nat, rootIndent: string) returns (text: string)
    requires Parse(lex, source) == Ok(d) && source == DocText(d) && Find(d.root.items, section) == None
    requires rootProperties == Locate(d.root.items, |d.start| + 1 + |d.root.lead|)
    requires rootEnd == |source| - |d.rest| - 1 && rootIndent == RootIndent(d)
    requires entry.Dict? && WellFormed(entry) && ReadsNames(lex, section)
    ensures EditOf(lex, d, text, section, entry) && text == TextWithSection(d, section, entry)
  {
    hide *;
    RootIndentIs(d);
    var entryIndent := rootIndent + "  ";
    var sectionValue := "{\n" + PropertyText("flameox", entry, entryIndent) + "\n" + rootIndent + "}";
    FreshText(entry, entryIndent, rootIndent);
    DocIs(d);
    AppendText(d.start, d.root, d.rest, rootIndent, "", section, sectionValue);
    RootExtended(lex, d, section, entry, rootIndent);
    text := InsertProperty(source, rootEnd, rootProperties, rootIndent + NameHead(section) + sectionValue, "");
    ghost var d' := d.(root := WithEntry(d.start, d.root, rootIndent, "", section, sectionValue));
    DocIs(d');
    EditIntro(lex, d, d', text, section, entry);
    SectionTextIs(d, section, entry, sectionValue);
  }

  lemma SectionTextIs(d: Doc, section: string, entry: Json, sectionValue: string)
    requires sectionValue == ObjText(FreshSection(entry, RootIndent(d) + "  ", RootIndent(d)))
    ensures TextWithSection(d, section, entry)
         == DocText(d.(root := WithEntry(d.start, d.root, RootIndent(d), "", section, sectionValue)))
  {
  }

  lemma DocIs(d: Doc)
    ensures DocText(d) == d.start + ObjText(d.root) + d.rest
  {
  }

  lemma EditIntro(lex: Lexicon, d: Doc, d': Doc, text: string, section: string, entry: Json)
    requires text == DocText(d') && Parse(lex, text) == Ok(d') && Updated(lex, d, d', section, entry)
    ensures EditOf(lex, d, text, section, entry)
  {
    hide Parse, DocText, Updated;
  }

  /** text is scanned as d with the entry written. */
  ghost predicate EditOf(lex: Lexicon, d: Doc, text: string, section: string, entry: Json) {
    var d' := Parse(lex, text);
    d'.Ok? && text == DocText(d'.value) && Updated(lex, d, d'.value, section, entry)
  }

  lemma Blanks(rootIndent: string)
    requires Blank(rootIndent)
    ensures Blank(rootIndent + "  ") && Blank("")
  {
  }

  /** The section that starts at index at gets the entry. */
  method EditSection(lex: Lexicon, source: string, ghost d: Doc, ghost i: nat, at: nat, section: string, entry: Json,
                     rootIndent: string) returns (r: Result<string, Failure>)
    requires Parse(lex, source) == Ok(d) && source == DocText(d) && ObjOk(lex, d.root, d.rest)
    requires Find(d.root.items, section) == Some(i) && i < |d.root.items|
    requires i < |Locate(d.root.items, |d.start| + 1 + |d.root.lead|)|
    requires at == Locate(d.root.items, |d.start| + 1 + |d.root.lead|)[i].valueStart && rootIndent == RootIndent(d)
    requires entry.Dict? && WellFormed(entry) && ReadsNames(lex, section)
    ensures Object(lex, FromValue(d, i)).Err? ==> r == Err(Object(lex, FromValue(d, i)).error)
    ensures Object(lex, FromValue(d, i)).Ok? ==>
              var (o, rest) := Object(lex, FromValue(d, i)).value; r == Ok(TextWithEntry(d, i, o, rest, entry))
    ensures Object(lex, FromValue(d, i)).Ok? && PlainItems(Object(lex, FromValue(d, i)).value.0.items) ==>
              EditOf(lex, d, r.value, section, entry)
  {
    hide *;
    SectionSpot(lex, d, i);
    var sectionStart := SkipTrivia(source, at);
    var properties := ObjectProperties(lex, source, sectionStart.value);
    if properties.Err? {
      return Err(properties.error);
    }
    var (sectionProperties, sectionEnd) := properties.value;
    ghost var (o, rest) := Object(lex, FromValue(d, i)).value;
    ghost var front := Front(d, i);
    SourceAround(lex, d, i, o, rest);
    var entryIndent := rootIndent + "  ";
    RootIndentIs(d);
    Blanks(rootIndent);
    FirstIndent(front, o, rest, rootIndent + "  ");
    SectionIndentIs(d, i, o);
    if sectionProperties != [] {
      IndentBlank(source, sectionProperties[0].keyStart, rootIndent + "  ");
      entryIndent := LineIndent(source, sectionProperties[0].keyStart, rootIndent + "  ");
    }
    var existing := FindProperty(sectionProperties, "flameox");
    SameFind(o.items, |front| + 1 + |o.lead|, "flameox", existing);
    SectionText(front, o, rest, entryIndent, rootIndent, entry);
    ghost var o' := Edited(front, o, entryIndent, rootIndent, entry);
    if existing.Some? {
      var p := sectionProperties[existing.value];
      r := Ok(source[..p.valueStart] + Rendered(entry, entryIndent) + source[p.valueEnd..]);
    } else {
      r := Ok(InsertProperty(source, sectionEnd, sectionProperties, PropertyText("flameox", entry, entryIndent), rootIndent));
    }
    assert r == Ok(front + ObjText(o') + rest);
    TextIs(d, i, o, rest, entry);
    if PlainItems(o.items) {
      Names(lex, section);
      SectionTheorem(lex, d, section, entry, i, o, rest, entryIndent, rootIndent);
      ghost var d' := d.(root := Obj(d.root.lead, WithValue(d.root.items, i, ObjText(o'))));
      EditIntro(lex, d, d', r.value, section, entry);
    }
  }

  lemma SectionIndentIs(d: Doc, i: nat, o: Obj)
    requires i < |d.root.items|
    ensures SectionIndent(d, i, o)
         == if o.items == [] then RootIndent(d) + "  " else IndentAt(Front(d, i) + ("{" + o.lead), RootIndent(d) + "  ")
  {
  }

  lemma TextIs(d: Doc, i: nat, o: Obj, rest: string, entry: Json)
    requires i < |d.root.items|
    ensures TextWithEntry(d, i, o, rest, entry)
         == Front(d, i) + ObjText(Edited(Front(d, i), o, SectionIndent(d, i, o), RootIndent(d), entry)) + rest
  {
  }

  lemma Names(lex: Lexicon, section: string)
    requires ReadsNames(lex, section)
    ensures lex.decode(Quoted("flameox", true)) == Some("flameox") && lex.decode(Quoted(section, true)) == Some(section)
  {
  }

  lemma SourceAround(lex: Lexicon, d: Doc, i: nat, o: Obj, r: string)
    requires ObjOk(lex, d.root, d.rest) && i < |d.root.items| && Object(lex, FromValue(d, i)) == Ok((o, r))
    ensures DocText(d) == Front(d, i) + ObjText(o) + r
  {
    hide *;
    SectionSpot(lex, d, i);
    ObjectIsDecomposition(lex, FromValue(d, i), o, r);
    var at := Locate(d.root.items, |d.start| + 1 + |d.root.lead|)[i].valueStart;
    var source := DocText(d);
    assert source == source[..at] + source[at..];
    assert Front(d, i) + (ObjText(o) + r) == Front(d, i) + ObjText(o) + r;
  }

  /** setup.py's _jsonc_update_mcp_entry.  The edit fails exactly when the scan
      does; when the section is free of bare values JSON5 forbids, a second scan
      finds the same document with the entry written and nothing else changed. */
  method UpdateMcpEntry(lex: Lexicon, source: string, section: string, entry: Json) returns (r: Result<string, Failure>)
    requires entry.Dict? && WellFormed(entry) && ReadsNames(lex, section)
    ensures Scans(lex, source, section).Err? ==> r == Err(Scans(lex, source, section).error)
    ensures Scans(lex, source, section).Ok? ==>
              var d := Scans(lex, source, section).value;
              r == Ok(match Find(d.root.items, section)
                      case None => TextWithSection(d, section, entry)
                      case Some(i) =>
                        var (o, rest) := Object(lex, FromValue(d, i)).value; TextWithEntry(d, i, o, rest, entry))
    ensures r.Ok? && SectionPlain(lex, Scans(lex, source, section).value, section) ==>
              EditOf(lex, Scans(lex, source, section).value, r.value, section, entry)
  {
    hide *;
    StartFailed(lex, source, section);
    var rootStart := SkipTrivia(source, 0);
    if rootStart.Err? {
      return Err(rootStart.error);
    }
    RootFailed(lex, source, section, rootStart.value);
    var root := ObjectProperties(lex, source, rootStart.value);
    if root.Err? {
      return Err(root.error);
    }
    var (rootProperties, rootEnd) := root.value;
    ghost var d := Parse(lex, source).value;
    RootFacts(lex, source, d, section);
    ghost var base := |d.start| + 1 + |d.root.lead|;
    var rootIndent := "  ";
    DocIs(d);
    FirstIndent(d.start, d.root, d.rest, "  ");
    RootIndentCases(d);
    if rootProperties != [] {
      rootIndent := LineIndent(source, rootProperties[0].keyStart, "  ");
    }
    var found := FindProperty(rootProperties, section);
    SameFind(d.root.items, base, section, found);
    if found == None {
      var text := AddSection(lex, source, d, section, entry, rootProperties, rootEnd, rootIndent);
      r := Ok(text);
    } else {
      r := EditSection(lex, source, d, found.value, rootProperties[found.value].valueStart, section, entry, rootIndent);
    }
  }

  lemma RootIndentCases(d: Doc)
    ensures RootIndent(d) == if d.root.items == [] then "  " else IndentAt(d.start + ("{" + d.root.lead), "  ")
  {
  }

  lemma StartFailed(lex: Lexicon, source: string, section: string)
    ensures TriviaFrom(source, 0) == StartTrivia(source)
    ensures StartTrivia(source).Err? ==> Scans(lex, source, section) == Err(StartTrivia(source).error)
  {
    hide StartTrivia, Object;
  }

  lemma RootFailed(lex: Lexicon, source: string, section: string, n: nat)
    requires StartTrivia(source) == Ok(n)
    ensures n <= |source|
    ensures Object(lex, source[n..]).Err? ==> Scans(lex, source, section) == Err(Object(lex, source[n..]).error)
    ensures Object(lex, source[n..]).Ok? ==>
              var (root, rest) := Object(lex, source[n..]).value;
              Parse(lex, source) == Ok(Doc(source[..n], root, rest))
  {
    hide StartTrivia, Object;
  }

  lemma RootFacts(lex: Lexicon, source: string, d: Doc, section: string)
    requires Parse(lex, source) == Ok(d)
    ensures source == DocText(d) && ObjOk(lex, d.root, d.rest) && |source| - |d.rest| - 1 >= 0
    ensures Find(d.root.items, section) == None ==> Scans(lex, source, section) == Ok(d)
    ensures forall i :: Find(d.root.items, section) == Some(i) ==>
              && i < |d.root.items|
              && (Object(lex, FromValue(d, i)).Err? ==> Scans(lex, source, section) == Err(Object(lex, FromValue(d, i)).error))
              && (Object(lex, FromValue(d, i)).Ok? ==> Scans(lex, source, section) == Ok(d))
              && (SectionPlain(lex, d, section) <==> Object(lex, FromValue(d, i)).Ok? &&
                                                     PlainItems(Object(lex, FromValue(d, i)).value.0.items))
  {
    ParseIsDecomposition(lex, source, d);
    DocAround(d);
    hide Parse, Object, PlainItems, FromValue, DocText, ObjText, ObjOk;
  }
}
