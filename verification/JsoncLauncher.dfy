/**
 The release pin inside the launcher: the seventh element of the command array of
 the flameox entry, replaced without touching any other token or comment.
 */
module JsoncLauncher {
  import opened Results
  import opened JsoncScanner
  import opened JsoncLocality
  import opened JsoncObjects
  import opened JsoncNesting
  import opened JsoncEdits

  /** An array element with the comma behind it and the trivia around the comma. */
  datatype Elem = Elem(value: string, after: string, gap: string)

  function ElemTail(e: Elem): string {
    e.after + ("," + e.gap)
  }

  function ElemsText(es: seq<Elem>): string {
    if es == [] then "" else es[0].value + ElemTail(es[0]) + ElemsText(es[1..])
  }

  /** A command array cut around its pin, the element behind es. */
  datatype Command = Command(lead: string, es: seq<Elem>, pin: string, tail: string)

  function CommandText(c: Command): string {
    "[" + (c.lead + (ElemsText(c.es) + (c.pin + c.tail)))
  }

  /** Reads n elements, each with its comma. */
  function Walk(s: string, n: nat): (r: Result<(seq<Elem>, string), Failure>)
    ensures r.Ok? ==> |r.value.0| == n && |r.value.1| <= |s|
    decreases n
  {
    if n == 0 then Ok(([], s))
    else
      var v :- Value(s);
      var (after, comma, gap, rest) :- Behind(s[v..]);
      if !comma then Err(MissingReleasePin)
      else
        var (es, end) :- Walk(rest, n - 1);
        Ok(([Elem(s[..v], after, gap)] + es, end))
  }

  function CommandOf(s: string, position: nat): Result<Command, Failure> {
    if s == [] || s[0] != '[' then Err(MissingReleasePin)
    else
      var body := s[1..];
      var n :- Trivia(body);
      var (es, rest) :- Walk(body[n..], position);
      var v :- Value(rest);
      Ok(Command(body[..n], es, rest[..v], rest[v..]))
  }

  predicate ElemOk(e: Elem, r: string) {
    IsTrivia(e.after) && IsTrivia(e.gap) && Fits(e.value, ElemTail(e) + r) && Trivia(r) == Ok(0)
  }

  predicate ElemsOk(es: seq<Elem>, r: string) {
    es == [] || (ElemOk(es[0], ElemsText(es[1..]) + r) && ElemsOk(es[1..], r))
  }

  predicate CommandOk(c: Command) {
    IsTrivia(c.lead) && ElemsOk(c.es, c.pin + c.tail) && Fits(c.pin, c.tail) && c.pin + c.tail != []
  }

  lemma ElemBehind(e: Elem, r: string)
    requires ElemOk(e, r) && r != []
    ensures Behind(ElemTail(e) + r) == Ok((e.after, true, e.gap, r)) && Value(e.value + (ElemTail(e) + r)) == Ok(|e.value|)
  {
    hide Trivia, Value, IsTrivia, Behind;
    BehindComplete(Item("", "", e.value, e.after, true, e.gap), r);
  }

  lemma ElemsCons(e: Elem, es: seq<Elem>, r: string)
    ensures ElemsText([e] + es) + r == e.value + (ElemTail(e) + (ElemsText(es) + r))
    ensures ElemsText([]) + r == r
    ensures ElemsOk([e] + es, r) <==> ElemOk(e, ElemsText(es) + r) && ElemsOk(es, r)
  {
    hide ElemOk, ElemTail;
    assert ([e] + es)[1..] == es;
  }

  lemma {:induction false} WalkComplete(es: seq<Elem>, r: string)
    requires ElemsOk(es, r) && r != []
    ensures Walk(ElemsText(es) + r, |es|) == Ok((es, r))
  {
    if es == [] {
      assert ElemsText(es) + r == r;
    } else {
      hide *;
      var e, others := es[0], es[1..];
      assert es == [e] + others;
      ElemsCons(e, others, r);
      WalkComplete(others, r);
      var q := ElemsText(others) + r;
      ElemBehind(e, q);
      Cut(e.value, ElemTail(e) + q);
    }
  }

  lemma WalkSplit(s: string, n: nat) returns (e: Elem, rest: string)
    requires n > 0 && Walk(s, n).Ok? && Trivia(s) == Ok(0)
    ensures Walk(rest, n - 1).Ok? && Walk(s, n) == Ok(([e] + Walk(rest, n - 1).value.0, Walk(rest, n - 1).value.1))
    ensures s == (e.value + ElemTail(e)) + rest && Trivia(rest) == Ok(0) && (rest != [] ==> ElemOk(e, rest))
  {
    var v, after, gap, r := WalkTurn(s, n);
    hide Trivia, Value, Behind, Walk, IsTrivia;
    e, rest := Elem(s[..v], after, gap), r;
    var it := Item("", "", e.value, e.after, true, e.gap);
    BehindText(s[v..], it, rest);
    assert s == e.value + s[v..];
    if rest != [] {
      BehindSound(s[v..], it, rest);
    }
  }

  lemma WalkTurn(s: string, n: nat) returns (v: nat, after: string, gap: string, rest: string)
    requires n > 0 && Walk(s, n).Ok?
    ensures v <= |s| && Value(s) == Ok(v) && Behind(s[v..]) == Ok((after, true, gap, rest)) && Walk(rest, n - 1).Ok?
    ensures Walk(s, n) == Ok(([Elem(s[..v], after, gap)] + Walk(rest, n - 1).value.0, Walk(rest, n - 1).value.1))
  {
    hide Value, Behind;
    v := Value(s).value;
    var (a, comma, g, r) := Behind(s[v..]).value;
    after, gap, rest := a, g, r;
  }

  lemma BehindText(s: string, it: Item, r: string)
    requires Behind(s) == Ok((it.after, true, it.gap, r)) && it.comma
    ensures s == Tail(it) + r && Trivia(r) == Ok(0)
  {
    hide Trivia, IsTrivia;
    TriviaSplit(s);
    var rest := s[Trivia(s).value..];
    TriviaSplit(rest[1..]);
    assert rest == "," + (it.gap + r);
    CommaParts(it.after, it.gap, r);
  }

  lemma WalkDone(s: string)
    ensures Walk(s, 0) == Ok(([], s))
  {
  }

  lemma NoElems(r: string)
    ensures ElemsText([]) + r == r && ElemsOk([], r)
  {
  }

  lemma {:induction false} WalkSound(s: string, n: nat, es: seq<Elem>, r: string)
    requires Walk(s, n) == Ok((es, r)) && Trivia(s) == Ok(0) && r != []
    ensures s == ElemsText(es) + r && ElemsOk(es, r) && Trivia(r) == Ok(0) && |es| == n
    decreases n
  {
    hide *;
    if n == 0 {
      WalkDone(s);
      NoElems(r);
    } else {
      var e, rest := WalkSplit(s, n);
      var (others, end) := Walk(rest, n - 1).value;
      assert es == [e] + others && end == r;
      WalkSound(rest, n - 1, others, r);
      ElemsCons(e, others, r);
      assert s == e.value + (ElemTail(e) + rest);
    }
  }

  lemma {:induction false} ElemsTrivia(es: seq<Elem>, r: string)
    requires ElemsOk(es, r) && Trivia(r) == Ok(0)
    ensures Trivia(ElemsText(es) + r) == Ok(0)
  {
    hide Trivia, Value, IsTrivia;
    if es == [] {
      assert ElemsText(es) + r == r;
    } else {
      var e := es[0];
      assert ElemsText(es) + r == e.value + (ElemTail(e) + (ElemsText(es[1..]) + r));
    }
  }

  lemma CommandComplete(c: Command)
    requires CommandOk(c)
    ensures CommandOf(CommandText(c), |c.es|) == Ok(c)
  {
    hide Trivia, Value, Walk, ElemsOk, IsTrivia, ElemsText;
    var rest := c.pin + c.tail;
    var walked := ElemsText(c.es) + rest;
    ElemsTrivia(c.es, rest);
    TriviaThen(c.lead, walked);
    WalkComplete(c.es, rest);
    Cut("[", c.lead + walked);
    Cut(c.lead, walked);
    Cut(c.pin, c.tail);
  }

  lemma CommandSound(s: string, n: nat, c: Command)
    requires CommandOf(s, n) == Ok(c)
    ensures s == CommandText(c) && CommandOk(c) && |c.es| == n
  {
    hide Trivia, Value, Walk, ElemsOk, IsTrivia, ElemsText;
    var body := s[1..];
    TriviaSplit(body);
    var inner := body[Trivia(body).value..];
    var (es, rest) := Walk(inner, n).value;
    ValueNotEmpty(rest);
    WalkSound(inner, n, es, rest);
    var v := Value(rest).value;
    assert rest == rest[..v] + rest[v..];
    assert s == "[" + body;
  }

  /** The elements in front of the pin do not see the pin. */
  lemma {:induction false} ElemsMove(es: seq<Elem>, r: string, q: string)
    requires ElemsOk(es, r) && r != [] && q != [] && Trivia(q) == Ok(0)
    ensures ElemsOk(es, q)
  {
    if es != [] {
      ElemsMove(es[1..], r, q);
      ElemsTrivia(es[1..], q);
      ElemMoves(es[0], ElemsText(es[1..]) + r, ElemsText(es[1..]) + q);
    }
  }

  lemma ElemMoves(e: Elem, r: string, q: string)
    requires ElemOk(e, r) && r != [] && q != [] && Trivia(q) == Ok(0)
    ensures ElemOk(e, q)
  {
    var it := Item("", "", e.value, e.after, true, e.gap);
    TailMoves(it, r, q);
    ValueLocal(e.value, ElemTail(e) + r, ElemTail(e) + q);
  }

  predicate PlainElems(es: seq<Elem>) {
    forall e <- es :: PlainValue(e.value)
  }

  lemma {:induction false} NeutralElems(es: seq<Elem>, r: string)
    requires ElemsOk(es, r) && PlainElems(es)
    ensures Neutral(ElemsText(es))
  {
    if es == [] {
      NeutralEmpty();
    } else {
      var e := es[0];
      NeutralElem(e, ElemsText(es[1..]) + r);
      NeutralElems(es[1..], r);
      NeutralJoin(e.value + ElemTail(e), ElemsText(es[1..]));
    }
  }

  lemma NeutralElem(e: Elem, r: string)
    requires ElemOk(e, r) && PlainValue(e.value)
    ensures Neutral(e.value + ElemTail(e))
  {
    hide Neutral, Fits, IsTrivia, PlainValue;
    NeutralValue(e.value, ElemTail(e) + r);
    NeutralTrivia(e.after);
    NeutralComma();
    NeutralTrivia(e.gap);
    NeutralJoin(",", e.gap);
    NeutralJoin(e.after, "," + e.gap);
    NeutralJoin(e.value, ElemTail(e));
  }

  lemma NeutralComma()
    ensures Neutral(",")
  {
    NeutralChar(',');
  }

  lemma BracketedThrough(front: string, pin: string, tail: string)
    requires Neutral(front) && Neutral(pin)
    ensures Value("[" + (front + (pin + tail))) == Shift(1 + |front| + |pin|, Close(tail, [']']))
  {
    hide *;
    var body := front + (pin + tail);
    assert "[" + body == ['['] + body;
    OneBracket(body);
    NeutralAt(front, pin + tail, [']']);
    NeutralAt(pin, tail, [']']);
    ShiftShift(|front|, |pin|, Close(tail, [']']));
    ShiftShift(1, |front| + |pin|, Close(tail, [']']));
  }

  lemma OneBracket(body: string)
    ensures Value(['['] + body) == Shift(1, Close(body, [']']))
  {
    var s := ['['] + body;
    assert s + "" == s;
    FirstChar(['['], body);
    BracketToken('[', body);
  }

  lemma CommandAround(c: Command)
    ensures CommandText(c) == "[" + ((c.lead + ElemsText(c.es)) + (c.pin + c.tail))
  {
  }

  /** With its pin replaced by another string the array is still one value, and
      what stands behind the array is what stood there before. */
  lemma PinReplaced(c: Command, pin: string) returns (v: string)
    requires CommandOk(c) && PlainElems(c.es) && PlainValue(c.pin) && Enclosed(pin)
    requires Value(CommandText(c)).Ok?
    ensures Enclosed(v) && CommandText(c.(pin := pin)) == v + CommandText(c)[Value(CommandText(c)).value..]
  {
    hide *;
    var front := c.lead + ElemsText(c.es);
    NeutralFront(c);
    NeutralEnclosed(pin);
    CommandAround(c);
    CommandAround(c.(pin := pin));
    BracketedThrough(front, c.pin, c.tail);
    var k := Inner(c.tail, 1 + |front| + |c.pin|, CommandText(c));
    v := "[" + (front + (pin + c.tail[..k]));
    Bracketed(front, pin, c.tail, k);
  }

  lemma Inner(tail: string, n: nat, s: string) returns (k: nat)
    requires Value(s).Ok? && Value(s) == Shift(n, Close(tail, [']']))
    ensures k <= |tail| && Close(tail, [']']) == Ok(k) && Value(s) == Ok(n + k)
  {
    k := Close(tail, [']']).value;
  }

  lemma NeutralFront(c: Command)
    requires CommandOk(c) && PlainElems(c.es) && PlainValue(c.pin)
    ensures Neutral(c.lead + ElemsText(c.es)) && Neutral(c.pin)
  {
    hide ElemsOk, Fits, IsTrivia, PlainValue, Neutral, PlainElems;
    NeutralTrivia(c.lead);
    NeutralElems(c.es, c.pin + c.tail);
    NeutralJoin(c.lead, ElemsText(c.es));
    NeutralValue(c.pin, c.tail);
  }

  lemma Bracketed(front: string, pin: string, tail: string, k: nat)
    requires Neutral(front) && Neutral(pin) && Close(tail, [']']) == Ok(k) && k <= |tail|
    ensures Enclosed("[" + (front + (pin + tail[..k])))
  {
    hide *;
    var t := tail[..k];
    var v := "[" + (front + (pin + t));
    assert tail == t + tail[k..];
    CloseFrame(t, tail[k..], [']'], [], "}");
    assert [] + [']'] == [']'];
    NothingAwaited("}");
    BracketedThrough(front, pin, t + "}");
    assert v + "}" == "[" + (front + (pin + (t + "}")));
    StartsOpen(v);
  }

  lemma NothingAwaited(s: string)
    ensures Close(s, []) == Ok(0) && forall k: nat :: Shift(k, Close(s, [])) == Ok(k)
    ensures forall n: nat, k: nat :: Shift(n, Ok(k)) == Ok(n + k)
  {
  }

  lemma StartsOpen(v: string)
    requires v != [] && v[0] == '[' && Value(v + "}") == Ok(|v|)
    ensures Enclosed(v)
  {
  }

  /** The command array after the update is scanned as the old one with a new pin. */
  lemma NewPin(c: Command, pin: string)
    requires CommandOk(c) && Enclosed(pin)
    ensures CommandOk(c.(pin := pin)) && CommandOf(CommandText(c.(pin := pin)), |c.es|) == Ok(c.(pin := pin))
  {
    hide ElemsOk, ElemsText, IsTrivia, Walk;
    EnclosedAnywhere(pin, "}", c.tail);
    ElemsMove(c.es, c.pin + c.tail, pin + c.tail);
    CommandComplete(c.(pin := pin));
  }
}
