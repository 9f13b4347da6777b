/**
 The scanner of setup.py in its own form: loops over an index into the whole
 text, each proved to do what the scanner functions say.
 */
module JsoncLoops {
  import opened Results
  import opened JsoncScanner
  import opened JsoncLocality
  import opened JsoncObjects

  datatype Property = Property(key: string, keyStart: nat, valueStart: nat, valueEnd: nat, hasTrailingComma: bool)

  function PropertyOf(it: Item, base: nat): Property {
    var v := base + |it.head|;
    Property(it.key, base, v, v + |it.value|, it.comma)
  }

  /** Where the properties of a scanned object stand when the first starts at base. */
  function Locate(items: seq<Item>, base: nat): seq<Property> {
    if items == [] then []
    else [PropertyOf(items[0], base)] + Locate(items[1..], base + |ItemText(items[0])|)
  }

  function TriviaFrom(source: string, index: nat): Scan
    requires index <= |source|
  {
    if index == 0 then StartTrivia(source) else Shift(index, Trivia(source[index..]))
  }

  lemma SliceOf(s: string, i: nat, n: nat)
    requires i + n <= |s|
    ensures s[i..][n..] == s[i + n..]
    ensures n < |s| - i ==> s[i..][n] == s[i + n]
  {
  }

  /** The scan of trivia seen from index i. */
  function TriviaAt(source: string, i: nat): Scan
    requires i <= |source|
  {
    Shift(i, Trivia(source[i..]))
  }

  lemma OverSpace(source: string, i: nat)
    requires i < |source| && IsSpace(source[i])
    ensures TriviaAt(source, i) == TriviaAt(source, i + 1)
  {
    SliceOf(source, i, 1);
    ShiftShift(i, 1, Trivia(source[i + 1..]));
  }

  lemma OverComment(source: string, i: nat)
    requires i < |source| && !IsSpace(source[i]) && StartsComment(source[i..])
    ensures match CommentLen(source[i..])
            case Err(e) => TriviaAt(source, i) == Err(e)
            case Ok(n) => TriviaAt(source, i) == TriviaAt(source, i + n)
  {
    var c := CommentLen(source[i..]);
    if c.Ok? {
      SliceOf(source, i, c.value);
      ShiftShift(i, c.value, Trivia(source[i + c.value..]));
    }
  }

  lemma AtEndOfTrivia(source: string, i: nat)
    requires i <= |source| && (i < |source| ==> !IsSpace(source[i])) && !StartsComment(source[i..])
    ensures TriviaAt(source, i) == Ok(i)
  {
  }

  lemma FirstTrivia(source: string)
    ensures StartTrivia(source) == TriviaAt(source, if source != [] && source[0] == BOM then 1 else 0)
  {
    assert source[0..] == source;
    ShiftShift(0, 0, Trivia(source));
  }

  method SkipTrivia(source: string, index: nat) returns (r: Scan)
    requires index <= |source|
    ensures r == TriviaFrom(source, index)
  {
    hide Trivia, StartTrivia, TriviaAt;
    FirstTrivia(source);
    var i := index;
    if i == 0 && source != [] && source[0] == BOM {
      i := 1;
    }
    ghost var goal := TriviaAt(source, i);
    assert goal == TriviaFrom(source, index) by {
      TriviaFromAt(source, index);
    }
    while true
      invariant i <= |source| && goal == TriviaAt(source, i)
      decreases |source| - i
    {
      while i < |source| && IsSpace(source[i])
        invariant i <= |source| && goal == TriviaAt(source, i)
      {
        OverSpace(source, i);
        i := i + 1;
      }
      if StartsComment(source[i..]) {
        OverComment(source, i);
        match CommentLen(source[i..]) {
          case Err(e) => return Err(e);
          case Ok(n) => i := i + n;
        }
      } else {
        AtEndOfTrivia(source, i);
        return Ok(i);
      }
    }
  }

  lemma TriviaFromAt(source: string, index: nat)
    requires index <= |source|
    ensures index > 0 ==> TriviaFrom(source, index) == TriviaAt(source, index)
    ensures index == 0 ==> TriviaFrom(source, index) == StartTrivia(source)
  {
  }

  /** The scan of a string's rest seen from index i. */
  function StringAt(source: string, i: nat, quote: char): Scan
  {
    if i <= |source| then Shift(i, StringRest(source[i..], quote)) else Err(UnterminatedString)
  }

  method StringEnd(source: string, index: nat) returns (r: Scan)
    requires index < |source|
    ensures r == Shift(index + 1, StringRest(source[index + 1..], source[index]))
  {
    var quote := source[index];
    var i := index + 1;
    ghost var goal := StringAt(source, i, quote);
    while i < |source|
      invariant goal == StringAt(source, i, quote)
    {
      hide StringAt;
      if source[i] == '\\' {
        i := i + 2;
      } else if source[i] == quote {
        return Ok(i + 1);
      } else {
        i := i + 1;
      }
    }
    return Err(UnterminatedString);
  }

  /** One turn of the bracket loop. */
  method Turn(source: string, index: nat, stack: seq<char>) returns (r: Result<(nat, seq<char>), Failure>)
    requires 0 < index <= |source| && stack != []
    ensures r == match Step(source[index..], stack)
                 case Err(e) => Err(e)
                 case Ok((n, next)) => Ok((index + n, next))
  {
    hide Trivia, StringRest;
    var t := SkipTrivia(source, index);
    if t.Err? {
      return Err(t.error);
    }
    var i := t.value;
    if i == |source| {
      return Err(ValueIncomplete);
    }
    SliceOf(source, index, i - index);
    SliceOf(source, index, i - index + 1);
    var c := source[i];
    if IsQuote(c) {
      var e := StringEnd(source, i);
      if e.Err? {
        return Err(e.error);
      }
      return Ok((e.value, stack));
    } else if IsOpener(c) {
      return Ok((i + 1, stack + [Closing(c)]));
    } else if c == stack[|stack| - 1] {
      return Ok((i + 1, stack[..|stack| - 1]));
    } else {
      return Ok((i + 1, stack));
    }
  }

  /** The bracket loop, from behind the first opening bracket. */
  method CloseEnd(source: string, index: nat, first: char) returns (r: Scan)
    requires 0 < index <= |source|
    ensures r == Shift(index, Close(source[index..], [first]))
  {
    var stack := [first];
    var i := index;
    ghost var goal := Shift(index, Close(source[index..], [first]));
    while stack != []
      invariant 0 < i <= |source|
      invariant goal == Shift(i, Close(source[i..], stack))
      decreases |source| - i
    {
      hide Step;
      var turn := Turn(source, i, stack);
      if turn.Err? {
        return Err(turn.error);
      }
      TurnDone(source, i, stack, turn.value.0, turn.value.1);
      i, stack := turn.value.0, turn.value.1;
    }
    return Ok(i);
  }

  lemma TurnDone(source: string, before: nat, awaited: seq<char>, i: nat, stack: seq<char>)
    requires before <= i <= |source| && awaited != []
    requires Step(source[before..], awaited) == Ok((i - before, stack))
    ensures Shift(before, Close(source[before..], awaited)) == Shift(i, Close(source[i..], stack))
  {
    hide Step;
    SliceOf(source, before, i - before);
    ShiftShift(before, i - before, Close(source[i..], stack));
  }

  method BareEnd(source: string, index: nat) returns (i: nat)
    requires index <= |source|
    ensures i == index + Bare(source[index..])
  {
    i := index;
    while i < |source| && source[i] != ',' && source[i] != '}' && source[i] != ']' && !IsSpace(source[i])
      invariant i <= |source| && index + Bare(source[index..]) == i + Bare(source[i..])
    {
      if StartsComment(source[i..]) {
        break;
      }
      SliceOf(source, i, 1);
      i := i + 1;
    }
  }

  method TokenEnd(source: string, index: nat) returns (r: Scan)
    requires index < |source|
    ensures r == Shift(index, Token(source[index..]))
  {
    hide StringRest, Close, Bare;
    SliceOf(source, index, 1);
    var c := source[index];
    assert source[index..][0] == c;
    if IsQuote(c) {
      r := StringEnd(source, index);
      ShiftShift(index, 1, StringRest(source[index + 1..], c));
    } else if IsOpener(c) {
      r := CloseEnd(source, index + 1, Closing(c));
      ShiftShift(index, 1, Close(source[index + 1..], [Closing(c)]));
    } else {
      var e := BareEnd(source, index);
      r := Ok(e);
    }
  }

  method ValueEnd(source: string, index: nat) returns (r: Scan)
    requires 0 < index <= |source|
    ensures r == Shift(index, Value(source[index..]))
  {
    hide Trivia, Token;
    var t := SkipTrivia(source, index);
    if t.Err? {
      return t;
    }
    var i := t.value;
    SliceOf(source, index, i - index);
    if i == |source| {
      return Err(EndsBeforeValue);
    }
    r := TokenEnd(source, i);
    ShiftShift(index, i - index, Token(source[i..]));
  }

  /** The run of an unquoted name. */
  method IdentEnd(lex: Lexicon, source: string, index: nat) returns (end: nat)
    requires index <= |source|
    ensures end <= |source| && end == index + IdentLen(lex, source[index..])
  {
    hide IsIdent;
    end := index;
    while end < |source| && IsIdent(lex, source[end])
      invariant index <= end <= |source|
      invariant IdentLen(lex, source[index..]) == end - index + IdentLen(lex, source[end..])
    {
      SliceOf(source, end, 1);
      end := end + 1;
    }
  }

  method NameEnd(lex: Lexicon, source: string, index: nat) returns (r: Result<(nat, string), Failure>)
    requires index < |source|
    ensures r == match Name(lex, source[index..])
                 case Err(e) => Err(e)
                 case Ok((k, key)) => Ok((index + k, key))
  {
    hide IdentLen, StringRest;
    SliceOf(source, index, 1);
    if IsQuote(source[index]) {
      var e := StringEnd(source, index);
      if e.Err? {
        return Err(e.error);
      }
      assert source[index..e.value] == source[index..][..e.value - index];
      match lex.decode(source[index..e.value]) {
        case None => return Err(UndecodableName);
        case Some(key) => return Ok((e.value, key));
      }
    } else {
      var end := IdentEnd(lex, source, index);
      assert source[index..end] == source[index..][..end - index];
      if end == index {
        return Err(InvalidPropertyName);
      }
      return Ok((end, source[index..end]));
    }
  }

  method SeparatorEnd(source: string, index: nat) returns (r: Scan)
    requires 0 < index <= |source|
    ensures r == Shift(index, Separator(source[index..]))
  {
    hide Trivia;
    var a := SkipTrivia(source, index);
    if a.Err? {
      return a;
    }
    var n := a.value - index;
    SliceOf(source, index, n);
    if a.value == |source| || source[a.value] != ':' {
      return Err(MissingSeparator);
    }
    SliceOf(source, index, n + 1);
    r := SkipTrivia(source, a.value + 1);
    ShiftShift(index, n + 1, Trivia(source[a.value + 1..]));
  }

  /** From a property name to the start of its value. */
  method HeadEnd(lex: Lexicon, source: string, index: nat) returns (r: Result<(nat, string), Failure>)
    requires index < |source|
    ensures r == match Head(lex, source[index..])
                 case Err(e) => Err(e)
                 case Ok((n, key)) => Ok((index + n, key))
  {
    hide Name, Separator;
    var name := NameEnd(lex, source, index);
    if name.Err? {
      return Err(name.error);
    }
    var (k, key) := name.value;
    SliceOf(source, index, k - index);
    var e := SeparatorEnd(source, k);
    if e.Err? {
      return Err(e.error);
    }
    return Ok((e.value, key));
  }

  lemma BehindComma(s: string, a: nat, g: nat)
    requires Trivia(s) == Ok(a) && a < |s| && s[a] == ',' && Trivia(s[a + 1..]) == Ok(g)
    ensures a + 1 + g <= |s| && Behind(s).Ok? && Behind(s).value.1 && Behind(s).value.3 == s[a + 1 + g..]
  {
    hide Trivia;
    SliceOf(s, a, 1);
    SliceOf(s, a + 1, g);
  }

  lemma BehindBroken(s: string, a: nat)
    requires Trivia(s) == Ok(a) && a < |s| && s[a] == ',' && Trivia(s[a + 1..]).Err?
    ensures Behind(s) == Err(Trivia(s[a + 1..]).error)
  {
    hide Trivia;
    SliceOf(s, a, 1);
  }

  lemma BehindBare(s: string, a: nat)
    requires Trivia(s) == Ok(a) && (a < |s| ==> s[a] != ',')
    ensures Behind(s).Ok? && !Behind(s).value.1 && Behind(s).value.3 == s[a..]
  {
    hide Trivia;
  }

  lemma TriviaBehind(source: string, index: nat)
    requires 0 < index <= |source|
    ensures Trivia(source[index..]).Err? ==> TriviaFrom(source, index) == Err(Trivia(source[index..]).error)
    ensures Trivia(source[index..]).Ok? ==> TriviaFrom(source, index) == Ok(index + Trivia(source[index..]).value)
  {
    hide Trivia;
  }

  lemma BehindError(s: string)
    requires Trivia(s).Err?
    ensures Behind(s) == Err(Trivia(s).error)
  {
    hide Trivia;
  }

  /** The trivia and the comma behind a value. */
  method BehindEnd(source: string, index: nat) returns (r: Result<(bool, nat), Failure>)
    requires 0 < index <= |source|
    ensures Behind(source[index..]).Err? ==> r == Err(Behind(source[index..]).error)
    ensures Behind(source[index..]).Ok? ==>
              && r.Ok? && r.value.0 == Behind(source[index..]).value.1
              && r.value.1 <= |source| && source[r.value.1..] == Behind(source[index..]).value.3
  {
    hide *;
    ghost var s := source[index..];
    TriviaBehind(source, index);
    var a := SkipTrivia(source, index);
    if a.Err? {
      BehindError(s);
      return Err(a.error);
    }
    var i := a.value;
    ghost var n := i - index;
    SliceOf(source, index, n);
    if i < |source| && source[i] == ',' {
      SliceOf(source, index, n + 1);
      TriviaBehind(source, i + 1);
      var g := SkipTrivia(source, i + 1);
      if g.Err? {
        BehindBroken(s, n);
        return Err(g.error);
      }
      ghost var m := g.value - i - 1;
      BehindComma(s, n, m);
      SliceOf(source, index, n + 1 + m);
      return Ok((true, g.value));
    }
    BehindBare(s, n);
    return Ok((false, i));
  }

  /** One turn of the property loop. */
  /** A property is its head, its value and what stands behind it. */
  lemma FirstIs(lex: Lexicon, s: string)
    requires s != []
    ensures var head := Head(lex, s);
            if head.Err? then First(lex, s) == Err(head.error)
            else
              var (h, key) := head.value;
              var v := Value(s[h..]);
              if v.Err? then First(lex, s) == Err(v.error)
              else
                var b := Behind(s[h..][v.value..]);
                if b.Err? then First(lex, s) == Err(b.error)
                else First(lex, s)
                     == Ok((Item(key, s[..h], s[h..][..v.value], b.value.0, b.value.1, b.value.2), b.value.3))
  {
    hide Head, Value, Behind;
  }

  /** Where the parts of a property end, as offsets. */
  lemma PropertyParts(lex: Lexicon, source: string, keyStart: nat, valueStart: nat, valueEnd: nat, key: string)
    requires keyStart <= valueStart <= valueEnd <= |source| && keyStart < |source|
    requires Head(lex, source[keyStart..]) == Ok((valueStart - keyStart, key))
    requires Value(source[valueStart..]) == Ok(valueEnd - valueStart)
    ensures var first, b := First(lex, source[keyStart..]), Behind(source[valueEnd..]);
            && (b.Err? ==> first == Err(b.error))
            && (b.Ok? ==>
                  && first.Ok? && first.value.1 == b.value.3
                  && PropertyOf(first.value.0, keyStart) == Property(key, keyStart, valueStart, valueEnd, b.value.1))
  {
    hide Head, Value, Behind, First;
    FirstIs(lex, source[keyStart..]);
    assert source[keyStart..][valueStart - keyStart..] == source[valueStart..];
    assert source[valueStart..][valueEnd - valueStart..] == source[valueEnd..];
  }

  lemma PropertyFails(lex: Lexicon, source: string, keyStart: nat)
    requires keyStart < |source|
    ensures Head(lex, source[keyStart..]).Err? ==>
              First(lex, source[keyStart..]) == Err(Head(lex, source[keyStart..]).error)
    ensures Head(lex, source[keyStart..]).Ok? ==>
              var valueStart := keyStart + Head(lex, source[keyStart..]).value.0;
              && valueStart <= |source|
              && (Value(source[valueStart..]).Err? ==>
                    First(lex, source[keyStart..]) == Err(Value(source[valueStart..]).error))
  {
    hide Head, Value, Behind, First;
    FirstIs(lex, source[keyStart..]);
    if Head(lex, source[keyStart..]).Ok? {
      var h := Head(lex, source[keyStart..]).value.0;
      assert source[keyStart..][h..] == source[keyStart + h..];
    }
  }

  method PropertyAt(lex: Lexicon, source: string, keyStart: nat) returns (r: Result<(Property, nat), Failure>)
    requires 0 < keyStart < |source|
    ensures First(lex, source[keyStart..]).Err? ==> r == Err(First(lex, source[keyStart..]).error)
    ensures First(lex, source[keyStart..]).Ok? ==>
              && r.Ok? && r.value.0 == PropertyOf(First(lex, source[keyStart..]).value.0, keyStart)
              && r.value.1 <= |source| && source[r.value.1..] == First(lex, source[keyStart..]).value.1
  {
    hide Head, Value, Behind, First, PropertyOf;
    PropertyFails(lex, source, keyStart);
    var head := HeadEnd(lex, source, keyStart);
    if head.Err? {
      return Err(head.error);
    }
    var (valueStart, key) := head.value;
    var v := ValueEnd(source, valueStart);
    if v.Err? {
      return Err(v.error);
    }
    PropertyParts(lex, source, keyStart, valueStart, v.value, key);
    var b := BehindEnd(source, v.value);
    if b.Err? {
      return Err(b.error);
    }
    return Ok((Property(key, keyStart, valueStart, v.value, b.value.0), b.value.1));
  }

  /** The rest of a scan, seen from the properties already found. */
  function Continue(found: seq<Property>, index: nat, length: nat, rest: Result<(seq<Item>, string), Failure>)
    : Result<(seq<Property>, int), Failure>
  {
    match rest
    case Err(e) => Err(e)
    case Ok((items, end)) => Ok((found + Locate(items, index), length - |end|))
  }

  /** The loop over the properties, from the first one on. */
  method PropertyLoop(lex: Lexicon, source: string, start: nat) returns (r: Result<(seq<Property>, int), Failure>)
    requires 0 < start <= |source|
    ensures r == match Properties(lex, source[start..])
                 case Err(e) => Err(e)
                 case Ok((items, end)) => Ok((Locate(items, start), |source| - |end|))
  {
    hide First, Properties, Locate, Continue, PropertyOf;
    var index := start;
    var properties: seq<Property> := [];
    ghost var goal := Continue([], index, |source|, Properties(lex, source[index..]));
    while index < |source| && source[index] != '}'
      invariant 0 < index <= |source|
      invariant goal == Continue(properties, index, |source|, Properties(lex, source[index..]))
      decreases |source| - index
    {
      var p := PropertyAt(lex, source, index);
      if p.Err? {
        LoopFailed(lex, source, start, properties, index, p.error);
        return Err(p.error);
      }
      TurnFound(lex, source, properties, index, p.value.1);
      properties, index := properties + [p.value.0], p.value.1;
      if index == |source| || source[index] == '}' {
        break;
      }
    }
    if index == |source| || source[index] != '}' {
      LoopFailed(lex, source, start, properties, index, IncompleteObject);
      return Err(IncompleteObject);
    }
    LoopDone(lex, source, start, properties, index);
    return Ok((properties, index));
  }

  /** An object is its bracket, its first trivia and its properties. */
  lemma ObjectIs(lex: Lexicon, s: string)
    ensures s == [] || s[0] != '{' ==> Object(lex, s) == Err(NotAnObject)
    ensures s != [] && s[0] == '{' ==>
              var n := Trivia(s[1..]);
              if n.Err? then Object(lex, s) == Err(n.error)
              else
                var p := Properties(lex, s[1..][n.value..]);
                if p.Err? then Object(lex, s) == Err(p.error)
                else Object(lex, s) == Ok((Obj(s[1..][..n.value], p.value.0), p.value.1[1..]))
  {
    hide Trivia, Properties;
  }

  lemma NoObject(lex: Lexicon, source: string, objectStart: nat)
    requires objectStart <= |source| && (objectStart == |source| || source[objectStart] != '{')
    ensures Object(lex, source[objectStart..]) == Err(NotAnObject)
  {
    ObjectIs(lex, source[objectStart..]);
  }

  /** The parts of an object, as offsets. */
  lemma ObjectParts(lex: Lexicon, source: string, objectStart: nat)
    requires objectStart < |source| && source[objectStart] == '{'
    ensures var whole, t := Object(lex, source[objectStart..]), Trivia(source[objectStart + 1..]);
            && (t.Err? ==> whole == Err(t.error))
            && (t.Ok? ==>
                  && objectStart + 1 + t.value <= |source|
                  && var p := Properties(lex, source[objectStart + 1 + t.value..]);
                     && (p.Err? ==> whole == Err(p.error))
                     && (p.Ok? ==>
                           && whole.Ok? && whole.value.0.items == p.value.0 && |whole.value.0.lead| == t.value
                           && |whole.value.1| == |p.value.1| - 1))
  {
    hide Trivia, Properties, Object;
    ObjectIs(lex, source[objectStart..]);
    assert source[objectStart..][1..] == source[objectStart + 1..];
    var t := Trivia(source[objectStart + 1..]);
    if t.Ok? {
      assert source[objectStart + 1..][t.value..] == source[objectStart + 1 + t.value..];
    }
  }

  method ObjectProperties(lex: Lexicon, source: string, objectStart: nat)
    returns (r: Result<(seq<Property>, int), Failure>)
    requires objectStart <= |source|
    ensures r == match Object(lex, source[objectStart..])
                 case Err(e) => Err(e)
                 case Ok((o, rest)) => Ok((Locate(o.items, objectStart + 1 + |o.lead|), |source| - |rest| - 1))
  {
    hide First, Trivia, Properties, Locate, Continue, Object;
    if objectStart == |source| || source[objectStart] != '{' {
      NoObject(lex, source, objectStart);
      return Err(NotAnObject);
    }
    ObjectParts(lex, source, objectStart);
    TriviaBehind(source, objectStart + 1);
    var t := SkipTrivia(source, objectStart + 1);
    if t.Err? {
      return Err(t.error);
    }
    r := PropertyLoop(lex, source, t.value);
  }

  lemma PropertiesStep(lex: Lexicon, s: string, it: Item, rest: string)
    requires s != [] && s[0] != '}' && First(lex, s) == Ok((it, rest))
    ensures Properties(lex, s) == match Properties(lex, rest)
                                  case Err(e) => Err(e)
                                  case Ok((items, end)) => Ok(([it] + items, end))
  {
  }

  lemma LocateStep(found: seq<Property>, it: Item, items: seq<Item>, base: nat)
    ensures found + Locate([it] + items, base)
         == (found + [PropertyOf(it, base)]) + Locate(items, base + |ItemText(it)|)
  {
    assert ([it] + items)[1..] == items;
  }

  lemma TurnFound(lex: Lexicon, source: string, found: seq<Property>, keyStart: nat, index: nat)
    requires keyStart < |source| && source[keyStart] != '}' && index <= |source|
    requires First(lex, source[keyStart..]).Ok? && First(lex, source[keyStart..]).value.1 == source[index..]
    ensures var it := First(lex, source[keyStart..]).value.0;
            && keyStart < index
            && Continue(found, keyStart, |source|, Properties(lex, source[keyStart..]))
               == Continue(found + [PropertyOf(it, keyStart)], index, |source|, Properties(lex, source[index..]))
  {
    hide First, Properties, Locate, PropertyOf;
    var s := source[keyStart..];
    var it := First(lex, s).value.0;
    PropertiesStep(lex, s, it, source[index..]);
    var rest := Properties(lex, source[index..]);
    if rest.Ok? {
      var (items, end) := rest.value;
      ItemLength(lex, s, it, source[index..], items, end);
      LocateStep(found, it, items, keyStart);
    }
  }

  lemma LoopFailed(lex: Lexicon, source: string, start: nat, found: seq<Property>, index: nat, e: Failure)
    requires start <= |source| && index <= |source|
    requires index == |source| ==> e == IncompleteObject
    requires index < |source| ==> source[index] != '}' && First(lex, source[index..]) == Err(e)
    requires Continue([], start, |source|, Properties(lex, source[start..]))
          == Continue(found, index, |source|, Properties(lex, source[index..]))
    ensures Properties(lex, source[start..]) == Err(e)
  {
    hide First;
    assert Properties(lex, source[index..]) == Err(e);
  }

  lemma LoopDone(lex: Lexicon, source: string, start: nat, found: seq<Property>, index: nat)
    requires start <= |source| && index < |source| && source[index] == '}'
    requires Continue([], start, |source|, Properties(lex, source[start..]))
          == Continue(found, index, |source|, Properties(lex, source[index..]))
    ensures var rest := Properties(lex, source[start..]);
            rest.Ok? && found == Locate(rest.value.0, start) && index == |source| - |rest.value.1|
  {
    assert Properties(lex, source[index..]) == Ok(([], source[index..]));
    assert found + Locate([], index) == found;
    if Properties(lex, source[start..]).Ok? {
      var (items, end) := Properties(lex, source[start..]).value;
      assert [] + Locate(items, start) == Locate(items, start);
    }
  }

  lemma ItemLength(lex: Lexicon, s: string, it: Item, rest: string, items: seq<Item>, end: string)
    requires s != [] && First(lex, s) == Ok((it, rest)) && Properties(lex, rest) == Ok((items, end))
    ensures |s| == |ItemText(it)| + |rest|
  {
    FirstSound(lex, s, it, rest);
  }
}
