/**
 Edits of a scanned object, and why the edited text is scanned as the edited
 object: every other property keeps its name, its value and its comments.
 */
module JsoncEdits {
  import opened Results
  import opened JsoncScanner
  import opened JsoncLocality
  import opened JsoncObjects
  import opened JsoncNesting

  /** The properties as a reader sees them: names with the texts of their values. */
  function Entries(items: seq<Item>): (r: seq<(string, string)>)
    ensures |r| == |items| && forall i | 0 <= i < |items| :: r[i] == (items[i].key, items[i].value)
  {
    seq(|items|, i requires 0 <= i < |items| => (items[i].key, items[i].value))
  }

  /** The first property of that name. */
  function Find(items: seq<Item>, key: string): (r: Option<nat>)
    ensures match r
            case None => forall it <- items :: it.key != key
            case Some(i) => i < |items| && items[i].key == key && forall j | 0 <= j < i :: items[j].key != key
  {
    if items == [] then None
    else if items[0].key == key then Some(0)
    else match Find(items[1..], key)
         case None => None
         case Some(i) => Some(i + 1)
  }

  function WithValue(items: seq<Item>, i: nat, v: string): seq<Item>
    requires i < |items|
  {
    items[i := items[i].(value := v)]
  }

  /** The last property with a comma behind its value and a new line after it. */
  function Continued(it: Item, indent: string): Item {
    if it.comma then it.(gap := it.gap + ("\n" + indent))
    else it.(after := "", comma := true, gap := it.after + ("\n" + indent))
  }

  function NewItem(name: string, head: string, v: string, closing: string): Item {
    Item(name, head, v, "\n" + closing, false, "")
  }

  /** items with its last property continued by item. */
  function Extended(items: seq<Item>, indent: string, item: Item): seq<Item>
    requires items != []
  {
    var k := |items| - 1;
    items[..k] + [Continued(items[k], indent), item]
  }

  function Appended(o: Obj, indent: string, closing: string, name: string, head: string, v: string): Obj {
    var item := NewItem(name, head, v, closing);
    if o.items == [] then Obj(o.lead + ("\n" + indent), [item])
    else Obj(o.lead, Extended(o.items, indent, item))
  }

  /** The text behind a property may change as long as it still starts the same
      way, or closes the object. */
  predicate Alike(it: Item, r: string, q: string) {
    && q != [] && Trivia(q) == Ok(0)
    && (it.comma || q[0] == '}' || (|r| >= 2 && |q| >= 2 && r[..2] == q[..2]))
  }

  lemma BareStops(v: string, r: string)
    requires Bare(v + r) == |v|
    ensures EndsBare(r)
    decreases |v|
  {
    if v == [] {
      assert v + r == r;
    } else {
      Slices(v, r, 1);
      BareStops(v[1..], r);
    }
  }

  lemma FitsBare(v: string, r: string)
    requires Fits(v, r) && v + r != []
    requires v == [] || (!IsQuote(v[0]) && !IsOpener(v[0]))
    ensures EndsBare(r) && (v == [] ==> r != [] && (r[0] == ',' || r[0] == '}' || r[0] == ']'))
  {
    assert (v + r)[0..] == v + r;
    NoTriviaIff(v + r);
    if v == [] {
      assert v + r == r;
    }
    if !IsQuote((v + r)[0]) && !IsOpener((v + r)[0]) {
      BareStops(v, r);
    }
  }

  /** Texts that start alike end a bare value alike. */
  lemma BareAlike(it: Item, r: string, q: string)
    requires r != [] && EndsBare(r) && Alike(it, r, q) && !it.comma
    ensures BareMayPrecede(r, q)
    ensures r[0] == ',' || r[0] == '}' || r[0] == ']' ==> q[0] == ',' || q[0] == '}' || q[0] == ']'
  {
    if q[0] != '}' {
      assert r[..2][0] == r[0] && q[..2][0] == q[0] && r[..2][1] == r[1] && q[..2][1] == q[1];
    }
  }

  lemma TailMoves(it: Item, r: string, q: string)
    requires r != [] && Fits(it.value, Tail(it) + r) && IsTrivia(it.after)
    requires Alike(it, r, q) && (!it.comma ==> it.gap == [])
    ensures MayFollow(it.value, Tail(it) + r, Tail(it) + q)
  {
    var v, t := it.value, Tail(it);
    if v == [] || (!IsQuote(v[0]) && !IsOpener(v[0])) {
      FitsBare(v, t + r);
      hide Fits, IsTrivia, Trivia;
      if t == [] {
        assert t + r == r && t + q == q;
        BareAlike(it, r, q);
      } else {
        assert (t + q)[0] == (t + r)[0] == t[0];
        if |t| >= 2 {
          assert (t + q)[1] == (t + r)[1] == t[1];
        }
      }
    }
  }

  lemma ItemMoves(lex: Lexicon, it: Item, r: string, q: string)
    requires ItemOk(lex, it, r) && Alike(it, r, q)
    ensures ItemOk(lex, it, q)
  {
    hide Trivia, Value, IsHead, IsTrivia, MayFollow;
    TailMoves(it, r, q);
    ValueLocal(it.value, Tail(it) + r, Tail(it) + q);
  }

  /** A property whose value is replaced by one that shows where it ends. */
  lemma ItemValue(lex: Lexicon, it: Item, r: string, v: string)
    requires ItemOk(lex, it, r) && Enclosed(v)
    ensures ItemOk(lex, it.(value := v), r)
  {
    EnclosedAnywhere(v, "}", Tail(it) + r);
  }

  lemma ItemStart(lex: Lexicon, items: seq<Item>, end: string)
    requires ItemsOk(lex, items, end) && items != []
    ensures var h := items[0].head;
            |h| >= 2 && |Text(items) + end| >= 2 && (Text(items) + end)[..2] == h[..2]
  {
    var it := items[0];
    ItemsCons(lex, it, items[1..], end);
    assert [it] + items[1..] == items;
    Reassoc(it.head, it.value, Tail(it), Text(items[1..]) + end);
  }

  /** Lists that start with the same head look alike to what stands before them. */
  lemma SameStart(lex: Lexicon, it: Item, xs: seq<Item>, end: string, ys: seq<Item>, end': string)
    requires ItemsOk(lex, xs, end) && ItemsOk(lex, ys, end')
    requires ys == [] || (xs != [] && xs[0].head == ys[0].head)
    ensures Alike(it, Text(xs) + end, Text(ys) + end')
  {
    ItemsTrivia(lex, ys, end');
    if ys == [] {
      assert Text(ys) + end' == end';
    } else {
      ItemStart(lex, xs, end);
      ItemStart(lex, ys, end');
    }
  }

  lemma ItemsPush(lex: Lexicon, it: Item, xs: seq<Item>, end: string, ys: seq<Item>, end': string)
    requires ItemOk(lex, it, Text(xs) + end) && it.head[0] != '}'
    requires ItemsOk(lex, xs, end) && ItemsOk(lex, ys, end')
    requires ys == [] || (xs != [] && xs[0].head == ys[0].head)
    ensures ItemsOk(lex, [it] + ys, end')
  {
    SameStart(lex, it, xs, end, ys, end');
    ItemMoves(lex, it, Text(xs) + end, Text(ys) + end');
    ItemsCons(lex, it, ys, end');
  }

  /** What follows the closing bracket does not matter. */
  lemma {:induction false} ItemsMove(lex: Lexicon, items: seq<Item>, end: string, end': string)
    requires ItemsOk(lex, items, end) && end' != [] && end'[0] == '}'
    ensures ItemsOk(lex, items, end')
  {
    if items != [] {
      ItemsMove(lex, items[1..], end, end');
      ItemsPush(lex, items[0], items[1..], end, items[1..], end');
      assert [items[0]] + items[1..] == items;
    }
  }

  lemma WithValueParts(items: seq<Item>, i: nat, v: string)
    requires i < |items|
    ensures items == [items[0]] + items[1..]
    ensures i == 0 ==> WithValue(items, i, v) == [items[0].(value := v)] + items[1..]
    ensures i > 0 ==> WithValue(items, i, v) == [items[0]] + WithValue(items[1..], i - 1, v)
    ensures WithValue(items, i, v)[0].head == items[0].head
  {
  }

  lemma {:induction false} ItemsReplace(lex: Lexicon, items: seq<Item>, end: string, i: nat, v: string)
    requires ItemsOk(lex, items, end) && i < |items| && Enclosed(v)
    ensures ItemsOk(lex, WithValue(items, i, v), end)
  {
    hide *;
    var it, rest := items[0], items[1..];
    WithValueParts(items, i, v);
    ItemsCons(lex, it, rest, end);
    if i == 0 {
      ItemValue(lex, it, Text(rest) + end, v);
      ItemsCons(lex, it.(value := v), rest, end);
    } else {
      ItemsReplace(lex, rest, end, i - 1, v);
      WithValueParts(rest, i - 1, v);
      ItemsPush(lex, it, rest, end, WithValue(rest, i - 1, v), end);
    }
  }

  lemma NewLineTrivia(t: string, indent: string)
    requires IsTrivia(t) && forall c <- indent :: IsSpace(c)
    ensures IsTrivia(t + ("\n" + indent))
  {
    SpacesAreTrivia("\n" + indent);
    TriviaJoin(t, "\n" + indent);
  }

  /** A new last property: its head and value are read in front of its closing line. */
  lemma NewItemOk(lex: Lexicon, item: Item, end: string, closing: string)
    requires IsHead(lex, item.head, item.key) && Enclosed(item.value) && item.head[0] != '}'
    requires item == NewItem(item.key, item.head, item.value, closing)
    requires end != [] && end[0] == '}' && forall c <- closing :: IsSpace(c)
    ensures ItemsOk(lex, [item], end)
  {
    EmptyTrivia();
    NewLineTrivia("", closing);
    assert "" + ("\n" + closing) == "\n" + closing;
    NoTriviaIff(end);
    EnclosedAnywhere(item.value, "}", Tail(item) + end);
    ItemsCons(lex, item, [], end);
    assert [item] + [] == [item] && Text([]) + end == end;
  }

  /** The comma is inserted directly behind the last value. */
  lemma ContinuedOk(lex: Lexicon, it: Item, r: string, indent: string, q: string)
    requires ItemOk(lex, it, r) && (forall c <- indent :: IsSpace(c)) && q != [] && Trivia(q) == Ok(0)
    ensures ItemOk(lex, Continued(it, indent), q)
  {
    var it' := Continued(it, indent);
    if it.comma {
      NewLineTrivia(it.gap, indent);
      TailMoves(it, r, q);
      ContinuedTail(it, r, indent, q);
    } else {
      EmptyTrivia();
      NewLineTrivia(it.after, indent);
      if it.value == [] || (!IsQuote(it.value[0]) && !IsOpener(it.value[0])) {
        FitsBare(it.value, Tail(it) + r);
      }
      assert Tail(it') + q == "," + (it'.gap + q);
    }
    ValueLocal(it.value, Tail(it) + r, Tail(it') + q);
  }

  lemma ContinuedTail(it: Item, r: string, indent: string, q: string)
    requires it.comma && MayFollow(it.value, Tail(it) + r, Tail(it) + q)
    requires IsTrivia(it.after)
    requires Fits(it.value, Tail(it) + r)
    ensures MayFollow(it.value, Tail(it) + r, Tail(Continued(it, indent)) + q)
  {
    var t, t' := Tail(it), Tail(Continued(it, indent));
    assert t' == t + ("\n" + indent);
    assert (t' + q)[0] == (t + q)[0] == t[0];
    if |t| >= 2 {
      assert (t' + q)[1] == (t + q)[1] == t[1];
    }
  }

  lemma AppendToLast(lex: Lexicon, it: Item, end: string, indent: string, item: Item)
    requires ItemsOk(lex, [it], end) && ItemsOk(lex, [item], end) && forall c <- indent :: IsSpace(c)
    ensures ItemsOk(lex, [Continued(it, indent)] + [item], end)
  {
    var q := Text([item]) + end;
    ItemsCons(lex, it, [], end);
    assert [it] + [] == [it];
    ItemsTrivia(lex, [item], end);
    ContinuedOk(lex, it, Text([]) + end, indent, q);
    ItemsCons(lex, Continued(it, indent), [item], end);
  }

  lemma ExtendedParts(items: seq<Item>, indent: string, item: Item)
    requires items != []
    ensures items == [items[0]] + items[1..]
    ensures |items| == 1 ==> items == [items[0]] && Extended(items, indent, item) == [Continued(items[0], indent)] + [item]
    ensures |items| > 1 ==> Extended(items, indent, item) == [items[0]] + Extended(items[1..], indent, item)
    ensures Extended(items, indent, item)[0].head == items[0].head
  {
  }

  lemma {:induction false} ItemsAppend(lex: Lexicon, items: seq<Item>, end: string, indent: string, item: Item)
    requires ItemsOk(lex, items, end) && items != [] && ItemsOk(lex, [item], end)
    requires forall c <- indent :: IsSpace(c)
    ensures ItemsOk(lex, Extended(items, indent, item), end)
  {
    hide *;
    var it, rest := items[0], items[1..];
    ExtendedParts(items, indent, item);
    if |items| == 1 {
      AppendToLast(lex, it, end, indent, item);
    } else {
      ItemsCons(lex, it, rest, end);
      ItemsAppend(lex, rest, end, indent, item);
      ExtendedParts(rest, indent, item);
      ItemsPush(lex, it, rest, end, Extended(rest, indent, item), end);
    }
  }

  lemma ReplaceOk(lex: Lexicon, o: Obj, rest: string, i: nat, v: string)
    requires ObjOk(lex, o, rest) && i < |o.items| && Enclosed(v)
    ensures ObjOk(lex, Obj(o.lead, WithValue(o.items, i, v)), rest)
  {
    ItemsReplace(lex, o.items, "}" + rest, i, v);
  }

  lemma AppendOk(lex: Lexicon, o: Obj, rest: string, indent: string, closing: string, name: string, head: string, v: string)
    requires ObjOk(lex, o, rest) && IsHead(lex, head, name) && head[0] != '}' && Enclosed(v)
    requires (forall c <- indent :: IsSpace(c)) && (forall c <- closing :: IsSpace(c))
    ensures ObjOk(lex, Appended(o, indent, closing, name, head, v), rest)
  {
    hide ItemsOk, IsTrivia, Enclosed;
    var item := NewItem(name, head, v, closing);
    NewItemOk(lex, item, "}" + rest, closing);
    if o.items == [] {
      NewLineTrivia(o.lead, indent);
    } else {
      ItemsAppend(lex, o.items, "}" + rest, indent, item);
    }
  }

  /** Every entry keeps its place and its text; the new one comes last. */
  lemma AppendEntries(o: Obj, indent: string, closing: string, name: string, head: string, v: string)
    ensures Entries(Appended(o, indent, closing, name, head, v).items) == Entries(o.items) + [(name, v)]
  {
    var items' := Appended(o, indent, closing, name, head, v).items;
    if o.items != [] {
      var k := |o.items| - 1;
      forall i | 0 <= i <= k
        ensures items'[i].key == o.items[i].key && items'[i].value == o.items[i].value
      {
      }
    }
  }

  /** A plain object stays plain. */
  lemma ReplacePlain(items: seq<Item>, i: nat, v: string)
    requires PlainItems(items) && i < |items| && Enclosed(v)
    ensures PlainItems(WithValue(items, i, v))
  {
    forall it <- WithValue(items, i, v)
      ensures PlainValue(it.value)
    {
      if it !in items {
        assert it.value == v;
      }
    }
  }

  lemma AppendPlain(o: Obj, indent: string, closing: string, name: string, head: string, v: string)
    requires PlainItems(o.items) && Enclosed(v)
    ensures PlainItems(Appended(o, indent, closing, name, head, v).items)
  {
    var items' := Appended(o, indent, closing, name, head, v).items;
    forall it <- items'
      ensures PlainValue(it.value)
    {
      if it !in o.items && o.items != [] {
        var last := o.items[|o.items| - 1];
        assert last in o.items;
      }
    }
  }
}
