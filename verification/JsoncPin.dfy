/**
 The second edit of setup.py: the release pin, three objects down and six array
 elements along, is replaced where it stands.
 */
module JsoncPin {
  import opened Results
  import opened JsonText
  import opened JsoncScanner
  import opened JsoncLocality
  import opened JsoncObjects
  import opened JsoncNesting
  import opened JsoncRender
  import opened JsoncReading
  import opened JsoncEdits
  import opened JsoncLoops
  import opened JsoncUpdate
  import opened JsoncEditor
  import opened JsoncLauncher

  const PIN: nat := 6
  /** The names that lead from the root object to the command array. */
  function LauncherPath(): seq<string> {
    ["mcp", "flameox", "command"]
  }

  /** The text from the value of property i of an object on. */
  function From(o: Obj, rest: string, i: nat): string
    requires i < |o.items|
  {
    o.items[i].value + (After(o.items, i) + ("}" + rest))
  }

  /** The text from the value found under a chain of names on. */
  function Descend(lex: Lexicon, s: string, names: seq<string>): Result<string, Failure>
    decreases |names|
  {
    if names == [] then Ok(s)
    else
      var (o, rest) :- Object(lex, s);
      match Find(o.items, names[0])
      case None => Err(MissingProperty)
      case Some(i) => Descend(lex, From(o, rest, i), names[1..])
  }

  /** Every object on the way is free of bare values JSON5 forbids, and so are the
      array elements up to the pin. */
  predicate Reaches(lex: Lexicon, s: string, names: seq<string>)
    decreases |names|
  {
    if names == [] then
      var c := CommandOf(s, PIN);
      c.Ok? && PlainElems(c.value.es) && PlainValue(c.value.pin)
    else
      var scan := Object(lex, s);
      scan.Ok? && PlainItems(scan.value.0.items) &&
      match Find(scan.value.0.items, names[0])
      case None => false
      case Some(i) => Reaches(lex, From(scan.value.0, scan.value.1, i), names[1..])
  }

  /** Scanned again, the chain of names leads through the same objects, which differ
      in the one value on the way alone, to the same array with another pin. */
  predicate PinChanged(lex: Lexicon, s: string, s': string, names: seq<string>, pin: string)
    decreases |names|
  {
    if names == [] then
      var c := CommandOf(s, PIN);
      c.Ok? && CommandOf(s', PIN) == Ok(c.value.(pin := pin))
    else
      var scan, scan' := Object(lex, s), Object(lex, s');
      && scan.Ok? && scan'.Ok?
      && var (o, rest) := scan.value;
         var (o', rest') := scan'.value;
         && rest' == rest
         && match Find(o.items, names[0])
            case None => false
            case Some(i) =>
              && i < |o'.items| && o' == Obj(o.lead, WithValue(o.items, i, o'.items[i].value))
              && PinChanged(lex, From(o, rest, i), From(o', rest', i), names[1..], pin)
  }

  /** s with its pin replaced. */
  function NewText(lex: Lexicon, s: string, names: seq<string>, pin: string): string
    decreases |names|
  {
    if names == [] then
      match CommandOf(s, PIN)
      case Err(_) => s
      case Ok(c) => CommandText(c.(pin := pin))
    else
      match Object(lex, s)
      case Err(_) => s
      case Ok((o, rest)) =>
        match Find(o.items, names[0])
        case None => s
        case Some(i) => ("{" + o.lead + Before(o.items, i)) + NewText(lex, From(o, rest, i), names[1..], pin)
  }

  /** One object on the way, with the value on the way replaced. */
  lemma LevelReplaced(lex: Lexicon, o: Obj, rest: string, i: nat, v: string)
    requires ObjOk(lex, o, rest) && PlainItems(o.items) && i < |o.items| && Enclosed(v)
    ensures var o' := Obj(o.lead, WithValue(o.items, i, v));
            && Enclosed(ObjText(o')) && Object(lex, ObjText(o') + rest) == Ok((o', rest))
            && Value(ObjText(o) + rest) == Ok(|ObjText(o)|)
            && ObjText(o') + rest == ("{" + o.lead + Before(o.items, i)) + From(o', rest, i)
            && From(o', rest, i) == v + (After(o.items, i) + ("}" + rest))
  {
    hide *;
    var o' := Obj(o.lead, WithValue(o.items, i, v));
    ReplaceOk(lex, o, rest, i, v);
    ReplacePlain(o.items, i, v);
    ObjectIsOneValue(lex, o, rest);
    ObjectIsOneValue(lex, o', rest);
    ObjectIsDecomposition(lex, ObjText(o') + rest, o', rest);
    OneValue(ObjText(o), rest);
    ReplacedText(o, rest, i, v);
  }

  lemma OneValue(v: string, rest: string)
    requires Enclosed(v)
    ensures Value(v + rest) == Ok(|v|)
  {
    EnclosedAnywhere(v, "}", rest);
  }

  lemma ReplacedText(o: Obj, rest: string, i: nat, v: string)
    requires i < |o.items|
    ensures var o' := Obj(o.lead, WithValue(o.items, i, v));
            && ObjText(o') + rest == ("{" + o.lead + Before(o.items, i)) + From(o', rest, i)
            && From(o', rest, i) == v + (After(o.items, i) + ("}" + rest))
  {
    hide Text, Before, ObjText, ItemText;
    var o' := Obj(o.lead, WithValue(o.items, i, v));
    var a, b, c := "{" + o.lead + Before(o.items, i), v, After(o.items, i) + ("}" + rest);
    ReplaceText("", o, rest, i, v);
    assert o'.items[i + 1..] == o.items[i + 1..];
    assert "" + ObjText(o') + rest == ObjText(o') + rest;
    assert "" + a + b + c == a + (b + c);
  }

  lemma ObjectSplit(lex: Lexicon, s: string, o: Obj, rest: string, i: nat)
    requires Object(lex, s) == Ok((o, rest)) && i < |o.items|
    ensures s == ObjText(o) + rest && ObjOk(lex, o, rest)
    ensures s == ("{" + o.lead + Before(o.items, i)) + From(o, rest, i)
    ensures Fits(o.items[i].value, After(o.items, i) + ("}" + rest))
  {
    hide *;
    ObjectIsDecomposition(lex, s, o, rest);
    var v := o.items[i].value;
    assert WithValue(o.items, i, v) == o.items by {
      SameValue(o.items, i);
    }
    ReplacedText(o, rest, i, v);
    RootFits(lex, o, rest, i);
  }

  lemma SameValue(items: seq<Item>, i: nat)
    requires i < |items|
    ensures WithValue(items, i, items[i].value) == items
  {
  }

  lemma RootFits(lex: Lexicon, o: Obj, rest: string, i: nat)
    requires ObjOk(lex, o, rest) && i < |o.items|
    ensures Fits(o.items[i].value, After(o.items, i) + ("}" + rest))
  {
    SectionFits(lex, Doc("", o, rest), i);
  }

  lemma {:induction false} PathReplaced(lex: Lexicon, s: string, names: seq<string>, pin: string) returns (v: string)
    requires Reaches(lex, s, names) && Enclosed(pin) && Value(s).Ok?
    ensures NewText(lex, s, names, pin) == v + s[Value(s).value..] && Enclosed(v)
    ensures PinChanged(lex, s, NewText(lex, s, names, pin), names, pin)
    decreases |names|
  {
    hide *;
    if names == [] {
      v := AtPin(lex, s, pin);
    } else {
      var o, rest, i := OneLevel(lex, s, names);
      ObjectSplit(lex, s, o, rest, i);
      var inner := From(o, rest, i);
      InnerValue(o, rest, i);
      var v' := PathReplaced(lex, inner, names[1..], pin);
      LevelReplaced(lex, o, rest, i, v');
      Cut(ObjText(o), rest);
      v := ObjText(Obj(o.lead, WithValue(o.items, i, v')));
      LevelText(lex, s, names, pin, o, rest, i);
      LevelChanged(lex, s, v + rest, names, pin, o, rest, i, v');
    }
  }

  lemma InnerValue(o: Obj, rest: string, i: nat)
    requires i < |o.items| && Fits(o.items[i].value, After(o.items, i) + ("}" + rest))
    ensures Value(From(o, rest, i)) == Ok(|o.items[i].value|)
    ensures From(o, rest, i)[|o.items[i].value|..] == After(o.items, i) + ("}" + rest)
  {
    hide Value, Trivia, After;
  }

  lemma AtPin(lex: Lexicon, s: string, pin: string) returns (v: string)
    requires Reaches(lex, s, []) && Enclosed(pin) && Value(s).Ok?
    ensures NewText(lex, s, [], pin) == v + s[Value(s).value..] && Enclosed(v)
    ensures PinChanged(lex, s, NewText(lex, s, [], pin), [], pin)
  {
    hide CommandOf, CommandOk, CommandText, PlainElems, PlainValue, Enclosed, Value;
    var c := CommandOf(s, PIN).value;
    CommandSound(s, PIN, c);
    v := PinReplaced(c, pin);
    NewPin(c, pin);
  }

  lemma OneLevel(lex: Lexicon, s: string, names: seq<string>) returns (o: Obj, rest: string, i: nat)
    requires Reaches(lex, s, names) && names != []
    ensures Object(lex, s) == Ok((o, rest)) && PlainItems(o.items) && Find(o.items, names[0]) == Some(i)
    ensures i < |o.items| && Reaches(lex, From(o, rest, i), names[1..])
  {
    hide Object, PlainItems, From;
    o, rest := Object(lex, s).value.0, Object(lex, s).value.1;
    i := Find(o.items, names[0]).value;
  }

  lemma LevelText(lex: Lexicon, s: string, names: seq<string>, pin: string, o: Obj, rest: string, i: nat)
    requires names != [] && Object(lex, s) == Ok((o, rest)) && Find(o.items, names[0]) == Some(i) && i < |o.items|
    ensures NewText(lex, s, names, pin)
         == ("{" + o.lead + Before(o.items, i)) + NewText(lex, From(o, rest, i), names[1..], pin)
  {
    hide Object, From, Before, Find;
  }

  lemma LevelChanged(lex: Lexicon, s: string, s': string, names: seq<string>, pin: string, o: Obj, rest: string, i: nat, v: string)
    requires names != [] && Object(lex, s) == Ok((o, rest)) && Find(o.items, names[0]) == Some(i) && i < |o.items|
    requires Object(lex, s') == Ok((Obj(o.lead, WithValue(o.items, i, v)), rest))
    requires PinChanged(lex, From(o, rest, i), From(Obj(o.lead, WithValue(o.items, i, v)), rest, i), names[1..], pin)
    ensures PinChanged(lex, s, s', names, pin)
  {
    hide Object, From, Find;
  }

  /** The chain of names ends at a piece of the text, and so does the edit. */
  lemma {:induction false} NewTextAt(lex: Lexicon, s: string, names: seq<string>, t: string, pin: string)
    requires Descend(lex, s, names) == Ok(t)
    ensures |t| <= |s| && s[|s| - |t|..] == t
    ensures NewText(lex, s, names, pin) == s[..|s| - |t|] + NewText(lex, t, [], pin)
    decreases |names|
  {
    hide *;
    if names == [] {
      DescendEnd(lex, s);
      assert s[|s| - |t|..] == t && s[..0] + NewText(lex, t, [], pin) == NewText(lex, t, [], pin);
    } else {
      var o, rest, i := DescendStep(lex, s, names);
      var front, inner := "{" + o.lead + Before(o.items, i), From(o, rest, i);
      ObjectSplit(lex, s, o, rest, i);
      NewTextAt(lex, inner, names[1..], t, pin);
      LevelText(lex, s, names, pin, o, rest, i);
      assert front + (inner[..|inner| - |t|] + NewText(lex, t, [], pin))
          == (front + inner[..|inner| - |t|]) + NewText(lex, t, [], pin);
    }
  }

  lemma DescendEnd(lex: Lexicon, s: string)
    ensures Descend(lex, s, []) == Ok(s)
  {
  }

  lemma DescendStep(lex: Lexicon, s: string, names: seq<string>) returns (o: Obj, rest: string, i: nat)
    requires names != [] && Descend(lex, s, names).Ok?
    ensures Object(lex, s) == Ok((o, rest)) && Find(o.items, names[0]) == Some(i) && i < |o.items|
    ensures Descend(lex, s, names) == Descend(lex, From(o, rest, i), names[1..])
  {
    hide Object, From;
    o, rest := Object(lex, s).value.0, Object(lex, s).value.1;
    i := Find(o.items, names[0]).value;
  }

  lemma DescendCases(lex: Lexicon, s: string, names: seq<string>)
    requires names != []
    ensures Object(lex, s).Err? ==> Descend(lex, s, names) == Err(Object(lex, s).error)
    ensures Object(lex, s).Ok? && Find(Object(lex, s).value.0.items, names[0]).None? ==>
              Descend(lex, s, names) == Err(MissingProperty)
    ensures Object(lex, s).Ok? ==>
              forall i :: Find(Object(lex, s).value.0.items, names[0]) == Some(i) ==>
                i < |Object(lex, s).value.0.items| &&
                Descend(lex, s, names) == Descend(lex, From(Object(lex, s).value.0, Object(lex, s).value.1, i), names[1..])
  {
    hide Object, From;
  }

  /** Where the value of property i of an object in the middle of a text starts. */
  lemma LevelSpot(lex: Lexicon, source: string, start: nat, o: Obj, rest: string, i: nat)
    requires start <= |source| && Object(lex, source[start..]) == Ok((o, rest)) && i < |o.items|
    ensures var ps := Locate(o.items, start + 1 + |o.lead|);
            && |ps| == |o.items| && 0 < ps[i].valueStart <= |source|
            && source[ps[i].valueStart..] == From(o, rest, i)
            && TriviaFrom(source, ps[i].valueStart) == Ok(ps[i].valueStart)
  {
    hide *;
    ObjectSplit(lex, source[start..], o, rest, i);
    assert source == source[..start] + ObjText(o) + rest by {
      assert source == source[..start] + source[start..];
    }
    Spot(source[..start], o, rest, i);
    ValueStartsHere(source, start, o, rest, i);
  }

  lemma ValueStartsHere(source: string, start: nat, o: Obj, rest: string, i: nat)
    requires i < |o.items| && start <= |source| && source == source[..start] + ObjText(o) + rest
    requires Fits(o.items[i].value, After(o.items, i) + ("}" + rest))
    requires var ps := Locate(o.items, start + 1 + |o.lead|);
             && |ps| == |o.items| && ps[i].valueStart <= |source|
             && source[..ps[i].valueStart] == source[..start] + ("{" + o.lead + Before(o.items, i))
             && source[ps[i].valueStart..] == o.items[i].value + (After(o.items, i) + ("}" + rest))
    ensures var ps := Locate(o.items, start + 1 + |o.lead|);
            && 0 < ps[i].valueStart && source[ps[i].valueStart..] == From(o, rest, i)
            && TriviaFrom(source, ps[i].valueStart) == Ok(ps[i].valueStart)
  {
    hide Trivia, Value, After, Before, Locate, StartTrivia;
    var at := Locate(o.items, start + 1 + |o.lead|)[i].valueStart;
    assert |source[..at]| > 0;
  }

  lemma WalkHead(s: string, n: nat) returns (t: string, u: string, w: string)
    requires n > 0 && Walk(s, n).Ok?
    ensures Value(s).Ok? && t == s[Value(s).value..]
    ensures Trivia(t).Ok? && Trivia(t).value < |t| && u == t[Trivia(t).value..][1..]
    ensures Trivia(u).Ok? && w == u[Trivia(u).value..]
    ensures Walk(w, n - 1).Ok? && Walk(w, n - 1).value.1 == Walk(s, n).value.1
  {
    hide Trivia, Value;
    t := s[Value(s).value..];
    u := t[Trivia(t).value..][1..];
    w := u[Trivia(u).value..];
  }

  /** What Walk reads behind index: an element, a comma, and what follows. */
  lemma Passed(source: string, index: nat, n: nat) returns (end: nat, comma: nat, next: nat)
    requires 0 < index <= |source| && n > 0 && Walk(source[index..], n).Ok?
    ensures index <= end <= comma < next <= |source|
    ensures Value(source[index..]) == Ok(end - index)
    ensures Trivia(source[end..]) == Ok(comma - end) && Trivia(source[comma + 1..]) == Ok(next - comma - 1)
    ensures Walk(source[next..], n - 1).Ok? && Walk(source[next..], n - 1).value.1 == Walk(source[index..], n).value.1
  {
    hide *;
    var s := source[index..];
    var t, u, w := WalkHead(s, n);
    var v, a, g: nat := Value(s).value, Trivia(t).value, Trivia(u).value;
    end, comma, next := index + v, index + v + a, index + v + a + 1 + g;
  }

  lemma TriviaWithin(source: string, index: nat)
    requires 0 < index <= |source|
    ensures TriviaFrom(source, index).Ok? ==> index <= TriviaFrom(source, index).value <= |source|
  {
  }

  lemma ValueWithin(source: string, index: nat, r: Scan)
    requires index <= |source| && r == Shift(index, Value(source[index..]))
    ensures r.Ok? ==> index <= r.value <= |source|
    ensures Value(source[index..]).Ok? ==> r == Ok(index + Value(source[index..]).value)
  {
    hide Value;
  }

  /** One element of the command array and the comma behind it are passed over. */
  method NextElement(source: string, index: nat, ghost n: nat) returns (r: Result<nat, Failure>)
    requires 0 < index <= |source| && n > 0
    ensures Walk(source[index..], n).Ok? ==>
              && r.Ok? && index < r.value <= |source| && Walk(source[r.value..], n - 1).Ok?
              && Walk(source[r.value..], n - 1).value.1 == Walk(source[index..], n).value.1
    ensures r.Ok? ==> index < r.value <= |source|
  {
    hide *;
    ghost var there := Walk(source[index..], n).Ok?;
    ghost var e, c, f: nat;
    if there {
      e, c, f := Passed(source, index, n);
    }
    var end := ValueEnd(source, index);
    ValueWithin(source, index, end);
    if end.Err? {
      return Err(end.error);
    }
    TriviaBehind(source, end.value);
    TriviaWithin(source, end.value);
    var comma := SkipTrivia(source, end.value);
    if comma.Err? {
      return Err(comma.error);
    }
    if comma.value == |source| {
      return Err(MissingReleasePin);
    }
    TriviaBehind(source, comma.value + 1);
    TriviaWithin(source, comma.value + 1);
    r := SkipTrivia(source, comma.value + 1);
  }

  lemma CommandParts(s: string, c: Command)
    requires CommandOf(s, PIN) == Ok(c)
    ensures s != [] && s[0] == '[' && Trivia(s[1..]) == Ok(|c.lead|) && |c.lead| < |s|
    ensures Walk(s[1..][|c.lead|..], PIN) == Ok((c.es, c.pin + c.tail))
    ensures Value(c.pin + c.tail) == Ok(|c.pin|)
    ensures s == CommandText(c)
  {
    hide *;
    CommandSound(s, PIN, c);
    var rest := CommandRead(s, c);
    Rejoin(rest, |c.pin|);
  }

  lemma Rejoin(s: string, n: nat)
    requires n <= |s|
    ensures s[..n] + s[n..] == s
  {
  }

  lemma CommandRead(s: string, c: Command) returns (rest: string)
    requires CommandOf(s, PIN) == Ok(c)
    ensures s != [] && s[0] == '[' && Trivia(s[1..]) == Ok(|c.lead|) && |c.lead| < |s|
    ensures Walk(s[1..][|c.lead|..], PIN) == Ok((c.es, rest)) && Value(rest) == Ok(|c.pin|)
    ensures |c.pin| <= |rest| && c.pin == rest[..|c.pin|] && c.tail == rest[|c.pin|..]
  {
    hide Trivia, Value, Walk;
    rest := Walk(s[1..][Trivia(s[1..]).value..], PIN).value.1;
  }

  lemma PinText(front: string, c: Command, pin: string)
    ensures var source := front + CommandText(c);
            var at := |source| - |c.pin + c.tail|;
            && 0 < at && at + |c.pin| <= |source|
            && source[at..] == c.pin + c.tail
            && source[..at] + pin + source[at + |c.pin|..] == front + CommandText(c.(pin := pin))
  {
    hide ElemsText;
    var head := front + ("[" + (c.lead + ElemsText(c.es)));
    Cut(head, c.pin + c.tail);
    Cut(head + c.pin, c.tail);
    assert head + (c.pin + c.tail) == (head + c.pin) + c.tail;
  }

  /** Where the pin stands in a text that has a command array at start. */
  lemma PinHere(source: string, start: nat, c: Command, pin: string)
    requires start <= |source| && CommandOf(source[start..], PIN) == Ok(c)
    ensures var at, first := |source| - |c.pin + c.tail|, start + 1 + |c.lead|;
            && start < |source| && first <= |source| && TriviaFrom(source, start + 1) == Ok(first)
            && Walk(source[first..], PIN) == Ok((c.es, c.pin + c.tail))
            && 0 < at <= at + |c.pin| <= |source|
            && source[at..] == c.pin + c.tail && Value(source[at..]) == Ok(|c.pin|)
            && source[..at] + pin + source[at + |c.pin|..] == source[..start] + CommandText(c.(pin := pin))
  {
    hide *;
    var s := source[start..];
    CommandParts(s, c);
    SliceOf(source, start, 1);
    SliceOf(source, start + 1, |c.lead|);
    TriviaBehind(source, start + 1);
    PinText(source[..start], c, pin);
    assert source == source[..start] + s;
  }

  /** The six turns of the loop in front of the pin. */
  method PinIndex(source: string, first: nat) returns (r: Result<nat, Failure>)
    requires 0 < first <= |source|
    ensures r.Ok? ==> 0 < r.value <= |source|
    ensures Walk(source[first..], PIN).Ok? ==> r.Ok? && source[r.value..] == Walk(source[first..], PIN).value.1
  {
    hide *;
    ghost var walk := Walk(source[first..], PIN);
    var index := first;
    for position := 0 to PIN
      invariant 0 < index <= |source|
      invariant walk.Ok? ==> Walk(source[index..], PIN - position).Ok? && Walk(source[index..], PIN - position).value.1 == walk.value.1
    {
      var next := NextElement(source, index, PIN - position);
      if next.Err? {
        return Err(next.error);
      }
      index := next.value;
    }
    WalkDone(source[index..]);
    return Ok(index);
  }

  /** From the start of the command array to the finished text. */
  method ReplacePin(source: string, start: nat, requirement: string) returns (r: Result<string, Failure>)
    requires start <= |source|
    ensures CommandOf(source[start..], PIN).Ok? ==>
              r == Ok(source[..start] + CommandText(CommandOf(source[start..], PIN).value.(pin := Quoted(requirement, true))))
  {
    hide *;
    if CommandOf(source[start..], PIN).Ok? {
      PinHere(source, start, CommandOf(source[start..], PIN).value, Quoted(requirement, true));
    }
    if start == |source| {
      return Err(MissingReleasePin);
    }
    TriviaWithin(source, start + 1);
    var first := SkipTrivia(source, start + 1);
    if first.Err? {
      return Err(first.error);
    }
    var found := PinIndex(source, first.value);
    if found.Err? {
      return Err(found.error);
    }
    var index := found.value;
    var end := ValueEnd(source, index);
    ValueWithin(source, index, end);
    if end.Err? {
      return Err(end.error);
    }
    return Ok(source[..index] + Quoted(requirement, true) + source[end.value..]);
  }

  /** The text from the command array on, or why the chain of names breaks. */
  function Launcher(lex: Lexicon, source: string): Result<string, Failure> {
    var n :- StartTrivia(source);
    Descend(lex, source[n..], LauncherPath())
  }

  /** The launcher section is there, free of bare values JSON5 forbids. */
  predicate LauncherThere(lex: Lexicon, d: Doc) {
    match Find(d.root.items, "mcp")
    case None => false
    case Some(i) => Reaches(lex, From(d.root, d.rest, i), ["flameox", "command"])
  }

  /** text is scanned as d with another pin: everything around the section is what
      it was, and inside it only the pin differs. */
  ghost predicate LauncherUpdated(lex: Lexicon, d: Doc, text: string, pin: string) {
    var scan := Parse(lex, text);
    && scan.Ok? && text == DocText(scan.value)
    && match Find(d.root.items, "mcp")
       case None => false
       case Some(i) =>
         && i < |scan.value.root.items|
         && scan.value == d.(root := Obj(d.root.lead, WithValue(d.root.items, i, scan.value.root.items[i].value)))
         && PinChanged(lex, From(d.root, d.rest, i), From(scan.value.root, d.rest, i), ["flameox", "command"], pin)
  }

  /** The pin that text is scanned with is a JSON string of the requirement. */
  ghost predicate RequirementWritten(lex: Lexicon, d: Doc, text: string, requirement: string) {
    exists pin :: Reads(pin, Str(requirement)) && LauncherUpdated(lex, d, text, pin)
  }

  lemma WrittenIntro(lex: Lexicon, d: Doc, text: string, requirement: string, pin: string)
    requires Reads(pin, Str(requirement)) && LauncherUpdated(lex, d, text, pin)
    ensures RequirementWritten(lex, d, text, requirement)
  {
    hide Reads, LauncherUpdated;
  }

  lemma PathNames()
    ensures LauncherPath()[0] == "mcp" && LauncherPath()[1..] == ["flameox", "command"] && LauncherPath() != []
    ensures |LauncherPath()| == 3
  {
  }

  /** The whole document with the pin replaced. */
  lemma DocReplaced(lex: Lexicon, d: Doc, pin: string)
    requires Parse(lex, DocText(d)) == Ok(d) && LauncherThere(lex, d) && Enclosed(pin)
    ensures LauncherUpdated(lex, d, d.start + NewText(lex, ObjText(d.root) + d.rest, LauncherPath(), pin), pin)
  {
    hide *;
    PathNames();
    var i := McpIndex(lex, d);
    ParseIsDecomposition(lex, DocText(d), d);
    DocIs(d);
    var s := ObjText(d.root) + d.rest;
    assert DocText(d)[|d.start|..] == s by {
      assert DocText(d) == d.start + s;
      Cut(d.start, s);
    }
    ObjectSplit(lex, s, d.root, d.rest, i);
    InnerValue(d.root, d.rest, i);
    var v := PathReplaced(lex, From(d.root, d.rest, i), ["flameox", "command"], pin);
    LevelText(lex, s, LauncherPath(), pin, d.root, d.rest, i);
    ReplaceOk(lex, d.root, d.rest, i, v);
    ReplacedText(d.root, d.rest, i, v);
    var d' := d.(root := Obj(d.root.lead, WithValue(d.root.items, i, v)));
    RootAgain(lex, d, d'.root);
    DocIs(d');
    assert DocText(d') == d.start + (ObjText(d'.root) + d.rest);
    UpdatedIntro(lex, d, d', i, v, pin);
  }

  lemma McpIndex(lex: Lexicon, d: Doc) returns (i: nat)
    requires LauncherThere(lex, d)
    ensures Find(d.root.items, "mcp") == Some(i) && i < |d.root.items|
    ensures Reaches(lex, From(d.root, d.rest, i), ["flameox", "command"])
  {
    hide Reaches, From;
    i := Find(d.root.items, "mcp").value;
  }

  lemma UpdatedIntro(lex: Lexicon, d: Doc, d': Doc, i: nat, v: string, pin: string)
    requires Parse(lex, DocText(d')) == Ok(d') && Find(d.root.items, "mcp") == Some(i) && i < |d.root.items|
    requires d' == d.(root := Obj(d.root.lead, WithValue(d.root.items, i, v)))
    requires PinChanged(lex, From(d.root, d.rest, i), From(d'.root, d.rest, i), ["flameox", "command"], pin)
    ensures LauncherUpdated(lex, d, DocText(d'), pin)
  {
    hide Parse, DocText, From, PinChanged, Find;
  }

  lemma FromStart(lex: Lexicon, source: string)
    ensures TriviaFrom(source, 0) == StartTrivia(source)
    ensures StartTrivia(source).Err? ==> Launcher(lex, source) == Err(StartTrivia(source).error)
    ensures StartTrivia(source).Ok? ==>
              && StartTrivia(source).value <= |source|
              && Launcher(lex, source) == Descend(lex, source[StartTrivia(source).value..], LauncherPath())
  {
    hide StartTrivia, Descend;
  }

  lemma {:induction false} ReachesDescends(lex: Lexicon, s: string, names: seq<string>)
    requires Reaches(lex, s, names)
    ensures Descend(lex, s, names).Ok? && CommandOf(Descend(lex, s, names).value, PIN).Ok?
    decreases |names|
  {
    if names == [] {
      DescendEnd(lex, s);
    } else {
      hide *;
      var o, rest, i := OneLevel(lex, s, names);
      DescendCases(lex, s, names);
      ReachesDescends(lex, From(o, rest, i), names[1..]);
    }
  }

  lemma ThereDescends(lex: Lexicon, source: string)
    requires Parse(lex, source).Ok? && LauncherThere(lex, Parse(lex, source).value)
    ensures Launcher(lex, source).Ok? && CommandOf(Launcher(lex, source).value, PIN).Ok?
  {
    hide *;
    PathNames();
    var d := Parse(lex, source).value;
    var i := McpIndex(lex, d);
    ParseIsDecomposition(lex, source, d);
    FromStart(lex, source);
    var s := source[|d.start|..];
    DescendCases(lex, s, LauncherPath());
    ReachesDescends(lex, From(d.root, d.rest, i), ["flameox", "command"]);
  }

  /** The text the loops leave is the one the scan of the chain of names gives. */
  lemma Composed(lex: Lexicon, source: string, d: Doc, start: nat, pin: string)
    requires Parse(lex, source) == Ok(d) && start <= |source| && Launcher(lex, source) == Ok(source[start..])
    requires CommandOf(source[start..], PIN).Ok?
    ensures source == DocText(d)
    ensures d.start + NewText(lex, ObjText(d.root) + d.rest, LauncherPath(), pin)
         == source[..start] + CommandText(CommandOf(source[start..], PIN).value.(pin := pin))
  {
    hide *;
    var t := source[start..];
    ParseIsDecomposition(lex, source, d);
    FromStart(lex, source);
    DocIs(d);
    var n := |d.start|;
    var s := ObjText(d.root) + d.rest;
    assert source == d.start + s;
    Cut(d.start, s);
    NewTextAt(lex, s, LauncherPath(), t, pin);
    AtCommand(lex, t, pin);
    assert d.start + s[..start - n] == source[..start];
  }

  lemma AtCommand(lex: Lexicon, t: string, pin: string)
    requires CommandOf(t, PIN).Ok?
    ensures NewText(lex, t, [], pin) == CommandText(CommandOf(t, PIN).value.(pin := pin))
  {
    hide CommandOf, CommandText;
  }

  /** setup.py's _jsonc_update_launcher: it fails as the scan of the chain of names
      does; where the array is there, only its seventh element is another one. */
  method UpdateLauncher(lex: Lexicon, source: string, requirement: string) returns (r: Result<string, Failure>)
    ensures Launcher(lex, source).Err? ==> r == Err(Launcher(lex, source).error)
    ensures Launcher(lex, source).Ok? && CommandOf(Launcher(lex, source).value, PIN).Ok? ==> r.Ok?
    ensures Parse(lex, source).Ok? && LauncherThere(lex, Parse(lex, source).value) ==>
              r.Ok? && RequirementWritten(lex, Parse(lex, source).value, r.value, requirement)
  {
    hide *;
    PathNames();
    var names: seq<string> := LauncherPath();
    FromStart(lex, source);
    if Parse(lex, source).Ok? && LauncherThere(lex, Parse(lex, source).value) {
      ThereDescends(lex, source);
    }
    var first := SkipTrivia(source, 0);
    if first.Err? {
      return Err(first.error);
    }
    var start: nat := first.value;
    ghost var s := source[start..];
    ghost var goal := Descend(lex, s, names);
    for k := 0 to 3
      invariant start <= |source| && goal == Descend(lex, source[start..], names[k..])
    {
      DescendCases(lex, source[start..], names[k..]);
      var scan := ObjectProperties(lex, source, start);
      if scan.Err? {
        return Err(scan.error);
      }
      ghost var (o, rest) := Object(lex, source[start..]).value;
      var found := FindProperty(scan.value.0, names[k]);
      SameFind(o.items, start + 1 + |o.lead|, names[k], found);
      if found == None {
        return Err(MissingProperty);
      }
      LevelSpot(lex, source, start, o, rest, found.value);
      assert names[k..][1..] == names[k + 1..];
      var at := SkipTrivia(source, scan.value.0[found.value].valueStart);
      start := at.value;
    }
    assert names[3..] == [];
    DescendEnd(lex, source[start..]);
    r := ReplacePin(source, start, requirement);
    if Parse(lex, source).Ok? && LauncherThere(lex, Parse(lex, source).value) {
      ghost var d := Parse(lex, source).value;
      Composed(lex, source, d, start, Quoted(requirement, true));
      QuotedEnclosed(requirement, true);
      DocReplaced(lex, d, Quoted(requirement, true));
      QuotedReads(requirement, true);
      WrittenIntro(lex, d, r.value, requirement, Quoted(requirement, true));
    }
  }
}
