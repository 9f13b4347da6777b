/**
 Pieces of text that the bracket loop passes over without changing what it
 awaits, and why a scanned object is one bracketed value.
 */
module JsoncNesting {
  import opened Results
  import opened JsoncScanner
  import opened JsoncLocality
  import opened JsoncObjects

  predicate Awaiting(st: seq<char>) {
    st != [] && forall c <- st :: c == '}' || c == ']'
  }

  ghost predicate Neutral(p: string) {
    forall r: string, st: seq<char> | Awaiting(st) :: Close(p + r, st) == Shift(|p|, Close(r, st))
  }

  /** A character that stands for itself wherever a value may be. */
  predicate Plain(c: char) {
    !IsSpace(c) && c != '/' && !IsQuote(c) && !IsOpener(c) && c != '}' && c != ']' && c != ','
  }

  lemma NeutralEmpty()
    ensures Neutral("")
  {
    forall r: string, st: seq<char> | Awaiting(st)
      ensures Close("" + r, st) == Shift(0, Close(r, st))
    {
      assert "" + r == r;
    }
  }

  lemma NeutralJoin(p: string, q: string)
    requires Neutral(p) && Neutral(q)
    ensures Neutral(p + q)
  {
    hide Close;
    forall r: string, st: seq<char> | Awaiting(st)
      ensures Close((p + q) + r, st) == Shift(|p + q|, Close(r, st))
    {
      assert (p + q) + r == p + (q + r);
      ShiftShift(|p|, |q|, Close(r, st));
    }
  }

  /** One character that opens and closes nothing. */
  lemma NeutralChar(c: char)
    requires Plain(c) || c == ','
    ensures Neutral([c])
  {
    forall r: string, st: seq<char> | Awaiting(st)
      ensures Close([c] + r, st) == Shift(1, Close(r, st))
    {
      var s := [c] + r;
      NoTriviaIff(s);
      assert s[1..] == r;
      assert st[|st| - 1] in st;
    }
  }

  lemma {:induction false} NeutralPlain(p: string)
    requires forall c <- p :: Plain(c) || c == ','
    ensures Neutral(p)
  {
    if p == [] {
      NeutralEmpty();
    } else {
      NeutralChar(p[0]);
      NeutralPlain(p[1..]);
      NeutralJoin([p[0]], p[1..]);
      assert [p[0]] + p[1..] == p;
    }
  }

  /** Trivia in front moves a turn of the bracket loop and nothing else. */
  lemma StepAfterTrivia(t: string, r: string, st: seq<char>)
    requires IsTrivia(t) && st != []
    ensures Step(t + r, st) == match Step(r, st)
                               case Err(e) => Err(e)
                               case Ok((n, next)) => Ok((|t| + n, next))
  {
    hide Trivia;
    hide StringRest;
    TriviaThen(t, r);
    if Trivia(r).Ok? && Trivia(r).value < |r| {
      Beyond(t, r, Trivia(r).value);
      Beyond(t, r, Trivia(r).value + 1);
    }
  }

  lemma Beyond(t: string, r: string, n: nat)
    requires n <= |r|
    ensures (t + r)[|t| + n..] == r[n..]
    ensures n < |r| ==> (t + r)[|t| + n] == r[n]
  {
  }

  lemma NeutralTrivia(t: string)
    requires IsTrivia(t)
    ensures Neutral(t)
  {
    forall r: string, st: seq<char> | Awaiting(st)
      ensures Close(t + r, st) == Shift(|t|, Close(r, st))
    {
      StepAfterTrivia(t, r, st);
      CloseShifted(t, r, st);
    }
  }

  lemma CloseShifted(t: string, r: string, st: seq<char>)
    requires st != []
    requires Step(t + r, st) == match Step(r, st)
                                case Err(e) => Err(e)
                                case Ok((n, next)) => Ok((|t| + n, next))
    ensures Close(t + r, st) == Shift(|t|, Close(r, st))
  {
    hide Step;
    if Step(r, st).Ok? {
      var (n, next) := Step(r, st).value;
      assert (t + r)[|t| + n..] == r[n..];
      ShiftShift(|t|, n, Close(r[n..], next));
    }
  }

  lemma NeutralString(v: string)
    requires Enclosed(v) && IsQuote(v[0])
    ensures Neutral(v)
  {
    FirstChar(v, "}");
    forall r: string, st: seq<char> | Awaiting(st)
      ensures Close(v + r, st) == Shift(|v|, Close(r, st))
    {
      StringStep(v, r, st);
      Slices(v, r, |v|);
    }
  }

  lemma StringStep(v: string, r: string, st: seq<char>)
    requires v != [] && IsQuote(v[0]) && st != [] && Token(v + "}") == Ok(|v|)
    ensures Step(v + r, st) == Ok((|v|, st))
  {
    FirstChar(v, r);
    TokenLocal(v, "}", r);
  }

  lemma OpenerStep(c: char, r: string, st: seq<char>)
    requires IsOpener(c) && st != []
    ensures Close([c] + r, st) == Shift(1, Close(r, st + [Closing(c)]))
  {
    var s := [c] + r;
    NoTriviaIff(s);
    assert s[1..] == r;
  }

  lemma NeutralBracket(v: string)
    requires Enclosed(v) && IsOpener(v[0])
    ensures Neutral(v)
  {
    FirstChar(v, "}");
    BracketBody(v);
    forall r: string, st: seq<char> | Awaiting(st)
      ensures Close(v + r, st) == Shift(|v|, Close(r, st))
    {
      BracketThen(v, r, st);
    }
  }

  lemma BracketThen(v: string, r: string, st: seq<char>)
    requires v != [] && IsOpener(v[0]) && st != []
    requires Close(v[1..] + "}", [Closing(v[0])]) == Ok(|v| - 1)
    ensures Close(v + r, st) == Shift(|v|, Close(r, st))
  {
    hide Close, Shift;
    var c, body := Closing(v[0]), v[1..];
    CloseFrame(body, "}", [c], st, r);
    OpenerStep(v[0], body + r, st);
    assert v + r == [v[0]] + (body + r);
    ShiftShift(1, |body|, Close(r, st));
  }

  lemma BracketBody(v: string)
    requires v != [] && IsOpener(v[0]) && Token(v + "}") == Ok(|v|)
    ensures Close(v[1..] + "}", [Closing(v[0])]) == Ok(|v| - 1)
  {
    Slices(v, "}", 1);
  }

  lemma NeutralEnclosed(v: string)
    requires Enclosed(v)
    ensures Neutral(v)
  {
    if IsQuote(v[0]) {
      NeutralString(v);
    } else {
      NeutralBracket(v);
    }
  }

  lemma BracketToken(c: char, rest: string)
    requires IsOpener(c)
    ensures Token([c] + rest) == Shift(1, Close(rest, [Closing(c)]))
  {
    assert ([c] + rest)[1..] == rest;
  }

  /** Brackets around a neutral text make it one value. */
  lemma Brackets(c: char, body: string)
    requires IsOpener(c) && Neutral(body)
    ensures Enclosed([c] + body + [Closing(c)])
  {
    var d := Closing(c);
    var v := [c] + body + [d];
    FirstChar(v, "}");
    OneClosed(d);
    hide Value, Token, Trivia, Close, Neutral;
    var rest := [d] + "}";
    assert v + "}" == [c] + (body + rest);
    BracketToken(c, body + rest);
    NeutralAt(body, rest, [d]);
  }

  /** A closing bracket closes itself. */
  lemma OneClosed(d: char)
    requires d == '}' || d == ']'
    ensures Close([d] + "}", [d]) == Ok(1) && Awaiting([d])
  {
    var rest := [d] + "}";
    NoTriviaIff(rest);
    assert Step(rest, [d]) == Ok((1, [d][..0]));
    assert [d][..0] == [];
  }

  lemma NeutralAt(p: string, r: string, st: seq<char>)
    requires Neutral(p) && Awaiting(st)
    ensures Close(p + r, st) == Shift(|p|, Close(r, st))
  {
  }

  /** The bare values of well-formed JSON5, numbers and literals, consist of
      characters that stand for themselves. */
  predicate PlainItems(items: seq<Item>) {
    forall it <- items :: PlainValue(it.value)
  }

  predicate PlainValue(v: string) {
    v != [] && !IsQuote(v[0]) && !IsOpener(v[0]) ==> forall c <- v :: Plain(c)
  }

  lemma FitsEnclosed(v: string, r: string)
    requires Fits(v, r) && v != [] && (IsQuote(v[0]) || IsOpener(v[0]))
    ensures Enclosed(v)
  {
    EnclosedAnywhere(v, r, "}");
  }

  lemma NeutralValue(v: string, r: string)
    requires Fits(v, r) && PlainValue(v)
    ensures Neutral(v)
  {
    if v != [] && (IsQuote(v[0]) || IsOpener(v[0])) {
      FitsEnclosed(v, r);
      NeutralEnclosed(v);
    } else {
      NeutralPlain(v);
    }
  }

  lemma {:induction false} IdentPlain(lex: Lexicon, s: string)
    ensures forall c <- s[..IdentLen(lex, s)] :: Plain(c)
  {
    if s != [] && IsIdent(lex, s[0]) {
      IdentPlain(lex, s[1..]);
      var n := IdentLen(lex, s);
      assert s[..n] == [s[0]] + s[1..][..n - 1];
    }
  }

  lemma NeutralName(lex: Lexicon, s: string, k: nat, key: string)
    requires 0 < k < |s| && Name(lex, s) == Ok((k, key))
    ensures Neutral(s[..k])
  {
    if IsQuote(s[0]) {
      var v := s[..k];
      assert s == v + s[k..];
      FirstChar(v, s[k..]);
      assert (v + s[k..])[0] == v[0];
      EnclosedAnywhere(v, s[k..], "}");
      NeutralString(v);
    } else {
      IdentPlain(lex, s);
      NeutralPlain(s[..k]);
    }
  }

  lemma SeparatorParts(s: string, n: nat) returns (a: nat, b: nat)
    requires Separator(s) == Ok(n)
    ensures Trivia(s) == Ok(a) && a < |s| && s[a] == ':' && Trivia(s[a + 1..]) == Ok(b) && n == a + 1 + b
  {
    a := Trivia(s).value;
    b := Trivia(s[a + 1..]).value;
  }

  lemma NeutralColon()
    ensures Neutral(":")
  {
    NeutralChar(':');
  }

  lemma SeparatorPieces(s: string, n: nat)
    requires Separator(s) == Ok(n) && n < |s|
    ensures Neutral(s[..n])
  {
    hide *;
    var a, b := SeparatorParts(s, n);
    var front, behind := s[..a], s[a + 1..];
    assert behind[b..] == s[n..];
    TriviaSplit(s);
    TriviaSplit(behind);
    NeutralTrivia(front);
    NeutralColon();
    NeutralTrivia(behind[..b]);
    NeutralJoin(front, ":");
    NeutralJoin(front + ":", behind[..b]);
    assert s[..n] == front + ":" + behind[..b];
  }

  lemma NeutralHead(lex: Lexicon, h: string, key: string)
    requires IsHead(lex, h, key)
    ensures Neutral(h)
  {
    var s := h + "{";
    var k, n, key' := HeadParts(lex, s);
    NeutralName(lex, s, k, key');
    SeparatorPieces(s[k..], n);
    NeutralJoin(s[..k], s[k..][..n]);
    assert h == s[..k] + s[k..][..n];
  }

  lemma NeutralItem(lex: Lexicon, it: Item, r: string)
    requires ItemOk(lex, it, r) && PlainValue(it.value)
    ensures Neutral(ItemText(it))
  {
    NeutralHead(lex, it.head, it.key);
    NeutralValue(it.value, Tail(it) + r);
    NeutralTrivia(it.after);
    if it.comma {
      NeutralChar(',');
      NeutralTrivia(it.gap);
      NeutralJoin(",", it.gap);
      NeutralJoin(it.after, "," + it.gap);
    } else {
      assert it.after + "" == it.after;
    }
    NeutralJoin(it.head, it.value);
    NeutralJoin(it.head + it.value, Tail(it));
  }

  lemma {:induction false} NeutralItems(lex: Lexicon, items: seq<Item>, end: string)
    requires ItemsOk(lex, items, end) && PlainItems(items)
    ensures Neutral(Text(items))
  {
    if items == [] {
      NeutralEmpty();
    } else {
      NeutralItem(lex, items[0], Text(items[1..]) + end);
      NeutralItems(lex, items[1..], end);
      NeutralJoin(ItemText(items[0]), Text(items[1..]));
    }
  }

  /** The bracket loop and the property loop agree on where an object ends. */
  lemma ObjectIsOneValue(lex: Lexicon, o: Obj, rest: string)
    requires ObjOk(lex, o, rest) && PlainItems(o.items)
    ensures Enclosed(ObjText(o))
  {
    hide Trivia, Value, Close, Neutral, Text;
    NeutralTrivia(o.lead);
    NeutralItems(lex, o.items, "}" + rest);
    NeutralJoin(o.lead, Text(o.items));
    Brackets('{', o.lead + Text(o.items));
    assert "{" + o.lead + Text(o.items) + "}" == ['{'] + (o.lead + Text(o.items)) + ['}'];
  }
}
