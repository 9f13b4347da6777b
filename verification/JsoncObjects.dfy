/**
 The scan of an object is a unique decomposition of its text: a list of properties
 is what the scanner answers exactly when its pieces are well formed and the text
 is their concatenation.
 */
module JsoncObjects {
  import opened Results
  import opened JsoncScanner
  import opened JsoncLocality

  /** Trivia that is closed: something may follow it. */
  predicate IsTrivia(t: string) {
    Trivia(t + "}") == Ok(|t|)
  }

  predicate IsHead(lex: Lexicon, h: string, key: string) {
    h != [] && Head(lex, h + "{") == Ok((|h|, key))
  }

  predicate ItemOk(lex: Lexicon, it: Item, r: string) {
    && IsHead(lex, it.head, it.key) && IsTrivia(it.after) && IsTrivia(it.gap)
    && Fits(it.value, Tail(it) + r)
    && r != [] && Trivia(r) == Ok(0)
    && (!it.comma ==> it.gap == [] && r[0] != ',')
  }

  predicate ItemsOk(lex: Lexicon, items: seq<Item>, end: string) {
    if items == [] then end != [] && end[0] == '}'
    else
      && ItemOk(lex, items[0], Text(items[1..]) + end) && items[0].head[0] != '}'
      && ItemsOk(lex, items[1..], end)
  }

  lemma TriviaPiece(t: string, r: string)
    requires r != [] && Trivia(t + r) == Ok(|t|)
    ensures IsTrivia(t)
  {
    NoTriviaIff("}");
    TriviaAppend(t, r, "}");
  }

  lemma TriviaThen(t: string, q: string)
    requires IsTrivia(t)
    ensures Trivia(t + q) == Shift(|t|, Trivia(q))
  {
    TriviaAppend(t, "}", q);
  }

  lemma EmptyTrivia()
    ensures IsTrivia("")
  {
    NoTriviaIff("}");
    assert "" + "}" == "}";
  }

  lemma TriviaJoin(a: string, b: string)
    requires IsTrivia(a) && IsTrivia(b)
    ensures IsTrivia(a + b)
  {
    TriviaThen(a, b + "}");
    assert (a + b) + "}" == a + (b + "}");
  }

  lemma {:induction false} SpacesAreTrivia(t: string)
    requires forall c <- t :: IsSpace(c)
    ensures IsTrivia(t)
  {
    if t == [] {
      EmptyTrivia();
    } else {
      SpacesAreTrivia(t[1..]);
      assert (t + "}")[1..] == t[1..] + "}";
    }
  }

  lemma HeadPiece(lex: Lexicon, h: string, r: string, key: string)
    requires h != [] && r != [] && Head(lex, h + r) == Ok((|h|, key))
    ensures IsHead(lex, h, key)
  {
    NoTriviaIff("{");
    HeadLocal(lex, h, r, "{", key);
  }

  lemma HeadThen(lex: Lexicon, h: string, q: string, key: string)
    requires IsHead(lex, h, key) && Trivia(q) == Ok(0)
    ensures Head(lex, h + q) == Ok((|h|, key))
  {
    HeadLocal(lex, h, "{", q, key);
  }

  lemma Cut(a: string, b: string)
    ensures (a + b)[|a|..] == b && (a + b)[..|a|] == a
  {
  }

  lemma BehindComplete(it: Item, r: string)
    requires IsTrivia(it.after) && IsTrivia(it.gap) && r != [] && Trivia(r) == Ok(0)
    requires !it.comma ==> it.gap == [] && r[0] != ','
    ensures Behind(Tail(it) + r) == Ok((it.after, it.comma, it.gap, r))
  {
    hide Trivia, IsTrivia;
    var q := if it.comma then "," + (it.gap + r) else r;
    assert Tail(it) + r == it.after + q;
    NoTriviaIff(q);
    TriviaThen(it.after, q);
    Cut(it.after, q);
    if it.comma {
      TriviaThen(it.gap, r);
      Cut(it.gap, r);
      assert q[1..] == it.gap + r;
    }
  }

  lemma TriviaSplit(s: string)
    requires Trivia(s).Ok?
    ensures var n := Trivia(s).value;
            && s == s[..n] + s[n..] && Trivia(s[n..]) == Ok(0)
            && (s[n..] != [] ==> IsTrivia(s[..n]))
  {
    hide *;
    var n := Trivia(s).value;
    TriviaStops(s);
    assert s == s[..n] + s[n..];
    if s[n..] != [] {
      TriviaPiece(s[..n], s[n..]);
    }
  }

  lemma BehindSound(s: string, it: Item, r: string)
    requires Behind(s) == Ok((it.after, it.comma, it.gap, r)) && r != []
    ensures s == Tail(it) + r && IsTrivia(it.after) && IsTrivia(it.gap) && Trivia(r) == Ok(0)
    ensures !it.comma ==> it.gap == [] && r[0] != ','
  {
    hide Trivia, IsTrivia;
    TriviaSplit(s);
    var rest := s[Trivia(s).value..];
    if it.comma {
      TriviaSplit(rest[1..]);
      assert rest == "," + (it.gap + r);
      CommaParts(it.after, it.gap, r);
    } else {
      EmptyTrivia();
    }
  }

  lemma CommaParts(after: string, gap: string, r: string)
    ensures after + ("," + (gap + r)) == (after + ("," + gap)) + r
  {
  }

  lemma Reassoc(a: string, b: string, c: string, d: string)
    ensures ((a + b) + c) + d == a + (b + (c + d))
  {
  }

  lemma FirstComplete(lex: Lexicon, it: Item, r: string)
    requires ItemOk(lex, it, r)
    ensures First(lex, ItemText(it) + r) == Ok((it, r))
  {
    var rest := Tail(it) + r;
    HeadThen(lex, it.head, it.value + rest, it.key);
    BehindComplete(it, r);
    Reassoc(it.head, it.value, Tail(it), r);
  }

  /** The three pieces of the text a property is read from. */
  lemma FirstSplit(lex: Lexicon, s: string, it: Item, r: string) returns (rest: string)
    requires s != [] && First(lex, s) == Ok((it, r))
    ensures s == it.head + (it.value + rest) && Behind(rest) == Ok((it.after, it.comma, it.gap, r))
    ensures it.head != [] && Head(lex, s) == Ok((|it.head|, it.key))
    ensures Value(it.value + rest) == Ok(|it.value|) && Trivia(it.value + rest) == Ok(0)
  {
    hide Head, Value, Behind, Trivia;
    var h := Head(lex, s).value.0;
    HeadStops(lex, s);
    var body := s[h..];
    var v := Value(body).value;
    rest := body[v..];
    assert s == s[..h] + body && body == body[..v] + rest;
  }

  lemma FirstSound(lex: Lexicon, s: string, it: Item, r: string)
    requires s != [] && First(lex, s) == Ok((it, r)) && r != []
    ensures s == ItemText(it) + r && ItemOk(lex, it, r)
  {
    var rest := FirstSplit(lex, s, it, r);
    BehindSound(rest, it, r);
    ValueNotEmpty(it.value + rest);
    HeadPiece(lex, it.head, it.value + rest, it.key);
    Reassoc(it.head, it.value, Tail(it), r);
  }

  lemma ValueNotEmpty(s: string)
    requires Value(s).Ok?
    ensures s != []
  {
  }

  lemma HeadStops(lex: Lexicon, s: string)
    requires s != [] && Head(lex, s).Ok?
    ensures Trivia(s[Head(lex, s).value.0..]) == Ok(0)
  {
    var k, n, _ := HeadParts(lex, s);
    SeparatorStops(s[k..], n);
    assert s[k..][n..] == s[k + n..];
  }

  lemma SeparatorStops(s: string, n: nat)
    requires Separator(s) == Ok(n)
    ensures Trivia(s[n..]) == Ok(0)
  {
    var a := Trivia(s).value;
    TriviaStops(s[a + 1..]);
    assert s[a + 1..][n - a - 1..] == s[n..];
  }

  /** The scan answers a list of properties exactly when they decompose the text. */
  lemma {:induction false} PropertiesComplete(lex: Lexicon, items: seq<Item>, end: string)
    requires ItemsOk(lex, items, end)
    ensures Properties(lex, Text(items) + end) == Ok((items, end))
  {
    if items == [] {
      assert Text(items) + end == end;
    } else {
      var rest := Text(items[1..]) + end;
      FirstComplete(lex, items[0], rest);
      PropertiesComplete(lex, items[1..], end);
      assert Properties(lex, ItemText(items[0]) + rest) == Ok(([items[0]] + items[1..], end));
      ItemsCons(lex, items[0], items[1..], end);
      assert [items[0]] + items[1..] == items;
    }
  }

  lemma {:induction false} PropertiesSound(lex: Lexicon, s: string, items: seq<Item>, end: string)
    requires Properties(lex, s) == Ok((items, end))
    ensures ItemsOk(lex, items, end) && s == Text(items) + end
    decreases |s|
  {
    if s[0] == '}' {
      assert Text([]) + s == s;
    } else {
      var (it, rest) := First(lex, s).value;
      var (others, _) := Properties(lex, rest).value;
      PropertiesSound(lex, rest, others, end);
      FirstSound(lex, s, it, rest);
      ItemsCons(lex, it, others, end);
      assert s[0] == it.head[0];
    }
  }

  lemma ItemsCons(lex: Lexicon, it: Item, others: seq<Item>, end: string)
    ensures Text([it] + others) + end == ItemText(it) + (Text(others) + end)
    ensures ItemsOk(lex, [it] + others, end) <==>
            ItemOk(lex, it, Text(others) + end) && it.head[0] != '}' && ItemsOk(lex, others, end)
  {
    assert ([it] + others)[1..] == others;
    assert (ItemText(it) + Text(others)) + end == ItemText(it) + (Text(others) + end);
  }

  lemma ScanIsDecomposition(lex: Lexicon, s: string, items: seq<Item>, end: string)
    ensures Properties(lex, s) == Ok((items, end)) <==> ItemsOk(lex, items, end) && s == Text(items) + end
  {
    if Properties(lex, s) == Ok((items, end)) {
      PropertiesSound(lex, s, items, end);
    }
    if ItemsOk(lex, items, end) {
      PropertiesComplete(lex, items, end);
    }
  }

  predicate ObjOk(lex: Lexicon, o: Obj, rest: string) {
    IsTrivia(o.lead) && ItemsOk(lex, o.items, "}" + rest)
  }

  /** The same for a whole object. */
  lemma ObjectIsDecomposition(lex: Lexicon, s: string, o: Obj, rest: string)
    ensures Object(lex, s) == Ok((o, rest)) <==> ObjOk(lex, o, rest) && s == ObjText(o) + rest
  {
    if Object(lex, s) == Ok((o, rest)) {
      ObjectSound(lex, s, o, rest);
    }
    if ObjOk(lex, o, rest) {
      ObjectComplete(lex, o, rest);
    }
  }

  lemma ObjTextParts(o: Obj, rest: string)
    ensures ObjText(o) + rest == "{" + (o.lead + (Text(o.items) + ("}" + rest)))
  {
  }

  lemma ObjectSound(lex: Lexicon, s: string, o: Obj, rest: string)
    requires Object(lex, s) == Ok((o, rest))
    ensures ObjOk(lex, o, rest) && s == ObjText(o) + rest
  {
    hide Trivia, Properties, IsTrivia, ItemsOk;
    var body := s[1..];
    TriviaSplit(body);
    var inner := body[Trivia(body).value..];
    var (items, end) := Properties(lex, inner).value;
    assert end == "}" + rest;
    ScanIsDecomposition(lex, inner, items, end);
    ObjTextParts(o, rest);
    assert s == "{" + body;
  }

  lemma ObjectComplete(lex: Lexicon, o: Obj, rest: string)
    requires ObjOk(lex, o, rest)
    ensures Object(lex, ObjText(o) + rest) == Ok((o, rest))
  {
    var end := "}" + rest;
    var inner := Text(o.items) + end;
    ObjTextParts(o, rest);
    ItemsTrivia(lex, o.items, end);
    TriviaThen(o.lead, inner);
    Cut("{", o.lead + inner);
    Cut(o.lead, inner);
    PropertiesComplete(lex, o.items, end);
    Cut("}", rest);
  }

  /** No trivia is left in front of a property or of the closing bracket. */
  lemma ItemsTrivia(lex: Lexicon, items: seq<Item>, end: string)
    requires ItemsOk(lex, items, end)
    ensures Trivia(Text(items) + end) == Ok(0)
  {
    if items == [] {
      assert Text(items) + end == end;
      NoTriviaIff(end);
    } else {
      var it := items[0];
      var r := Text(items[1..]) + end;
      ItemsCons(lex, it, items[1..], end);
      assert [it] + items[1..] == items;
      NameNoTrivia(lex, ItemText(it) + r);
    }
  }

  lemma NameNoTrivia(lex: Lexicon, s: string)
    requires s != [] && (IsQuote(s[0]) || IsIdent(lex, s[0]))
    ensures Trivia(s) == Ok(0)
  {
    NoTriviaIff(s);
  }
}
