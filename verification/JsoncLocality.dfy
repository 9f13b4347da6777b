/**
 Locality of the scanner: what it answers depends on the text it consumes and at
 most one more character.  p is always the consumed piece, r the text that
 followed it and q another text put in its place.
 */
module JsoncLocality {
  import opened Results
  import opened JsoncScanner

  /** A piece p was consumed in front of r, and what q has is another continuation. */
  lemma Slices(p: string, q: string, n: nat)
    requires n <= |p|
    ensures (p + q)[n..] == p[n..] + q
    ensures (p + q)[..n] == p[..n]
  {
  }

  lemma Regroup(p: string, n: nat, q: string)
    requires n <= |p|
    ensures p + q == p[..n] + (p[n..] + q)
  {
  }

  lemma ShiftShift(a: nat, b: nat, r: Scan)
    ensures Shift(a, Shift(b, r)) == Shift(a + b, r)
  {
  }

  lemma {:induction false} LineLocal(p: string, r: string, q: string)
    requires r != [] && LineLen(p + r) <= |p|
    ensures LineLen(p + q) == LineLen(p + r)
  {
    if p != [] && p[0] != '\n' {
      Slices(p, r, 1);
      Slices(p, q, 1);
      LineLocal(p[1..], r, q);
    }
  }

  lemma {:induction false} BlockLocal(p: string, r: string, q: string)
    requires BlockLen(p + r).Ok? && BlockLen(p + r).value <= |p|
    ensures BlockLen(p + q) == BlockLen(p + r)
  {
    if !(p[0] == '*' && p[1] == '/') {
      Slices(p, r, 1);
      Slices(p, q, 1);
      BlockLocal(p[1..], r, q);
    }
  }

  lemma CommentLocal(p: string, r: string, q: string)
    requires r != [] && StartsComment(p + r) && CommentLen(p + r).Ok? && CommentLen(p + r).value <= |p|
    ensures StartsComment(p + q) && CommentLen(p + q) == CommentLen(p + r)
  {
    Slices(p, r, 2);
    Slices(p, q, 2);
    if p[1] == '/' {
      LineLocal(p[2..], r, q);
    } else {
      BlockLocal(p[2..], r, q);
    }
  }

  lemma TriviaFirst(s: string)
    requires s != []
    ensures IsSpace(s[0]) ==> Trivia(s) == Shift(1, Trivia(s[1..]))
    ensures !IsSpace(s[0]) && StartsComment(s) && CommentLen(s).Ok? ==>
              Trivia(s) == Shift(CommentLen(s).value, Trivia(s[CommentLen(s).value..]))
    ensures !IsSpace(s[0]) && StartsComment(s) && CommentLen(s).Err? ==> Trivia(s).Err?
    ensures !IsSpace(s[0]) && !StartsComment(s) ==> Trivia(s) == Ok(0)
  {
  }

  /** Closed trivia can be put in front of anything. */
  lemma {:induction false} TriviaAppend(p: string, r: string, q: string)
    requires r != [] && Trivia(p + r) == Ok(|p|)
    ensures Trivia(p + q) == Shift(|p|, Trivia(q))
    decreases |p|
  {
    if p == [] {
      assert p + q == q;
    } else {
      hide Trivia, CommentLen, StartsComment, IsSpace;
      TriviaFirst(p + r);
      TriviaFirst(p + q);
      var n := 1;
      if !IsSpace(p[0]) {
        n := CommentLen(p + r).value;
        CommentLocal(p, r, q);
      }
      Slices(p, r, n);
      Slices(p, q, n);
      TriviaAppend(p[n..], r, q);
      ShiftShift(n, |p| - n, Trivia(q));
    }
  }

  /** Trivia stops where no trivia starts. */
  lemma {:induction false} TriviaStops(s: string)
    requires Trivia(s).Ok?
    ensures Trivia(s[Trivia(s).value..]) == Ok(0)
    decreases |s|
  {
    var n := Trivia(s).value;
    if s != [] && IsSpace(s[0]) {
      TriviaStops(s[1..]);
      assert s[1..][n - 1..] == s[n..];
    } else if StartsComment(s) {
      var m := CommentLen(s).value;
      TriviaStops(s[m..]);
      assert s[m..][n - m..] == s[n..];
    } else {
      assert s[0..] == s;
    }
  }

  predicate NoTrivia(s: string) {
    s == [] || (!IsSpace(s[0]) && !StartsComment(s))
  }

  lemma NoTriviaIff(s: string)
    ensures Trivia(s) == Ok(0) <==> NoTrivia(s)
  {
    if s != [] && !IsSpace(s[0]) && StartsComment(s) && Trivia(s).Ok? {
      assert Trivia(s).value >= 2;
    }
  }

  lemma {:induction false} StringLocal(p: string, r: string, q: string, quote: char)
    requires StringRest(p + r, quote) == Ok(|p|)
    ensures StringRest(p + q, quote) == Ok(|p|)
    decreases |p|
  {
    assert p != [];
    if p[0] == '\\' {
      assert |p| >= 2;
      Slices(p, r, 2);
      Slices(p, q, 2);
      StringLocal(p[2..], r, q, quote);
    } else if p[0] != quote {
      Slices(p, r, 1);
      Slices(p, q, 1);
      StringLocal(p[1..], r, q, quote);
    }
  }

  /** A bare scalar may be followed by anything that ends it without turning its
      last character into the start of a comment. */
  predicate BareMayPrecede(r: string, q: string) {
    EndsBare(q) && (q == [] || (q[0] != '/' && q[0] != '*') || (r != [] && r[0] == q[0]))
  }

  lemma {:induction false} BareLocal(p: string, r: string, q: string)
    requires Bare(p + r) == |p| && BareMayPrecede(r, q)
    ensures Bare(p + q) == |p|
    decreases |p|
  {
    if p == [] {
      assert p + q == q;
    } else {
      Slices(p, r, 1);
      Slices(p, q, 1);
      assert !EndsBare(p + r);
      assert !EndsBare(p + q);
      BareLocal(p[1..], r, q);
    }
  }

  /** Trivia in front of a character that is consumed for itself. */
  lemma TriviaLocal(p: string, r: string, q: string, n: nat)
    requires Trivia(p + r) == Ok(n) && n < |p| && (n + 1 < |p| || p[n] != '/')
    ensures Trivia(p + q) == Ok(n)
  {
    Slices(p, r, n);
    Slices(p, q, n);
    TriviaStops(p + r);
    NoTriviaIff(p[n..] + r);
    NoTriviaIff(p[n..] + q);
    assert p + r == p[..n] + (p[n..] + r) && p + q == p[..n] + (p[n..] + q);
    TriviaAppend(p[..n], p[n..] + r, p[n..] + q);
  }

  lemma StringInside(p: string, r: string, q: string, t: nat, n: nat)
    requires t < n <= |p| && StringRest((p + r)[t + 1..], p[t]) == Ok(n - t - 1)
    ensures StringRest((p + q)[t + 1..], p[t]) == Ok(n - t - 1)
  {
    var a, b := p[t + 1..n], p[n..];
    assert (p + r)[t + 1..] == a + (b + r) && (p + q)[t + 1..] == a + (b + q);
    StringLocal(a, b + r, b + q, p[t]);
  }

  /** One turn of the bracket loop works on the innermost brackets only. */
  lemma StepLocal(p: string, r: string, upper: seq<char>, lower: seq<char>, q: string, n: nat, next: seq<char>)
    requires upper != [] && '/' !in upper && Step(p + r, upper) == Ok((n, next)) && n <= |p| && (n < |p| || next == [])
    ensures Step(p + q, lower + upper) == Ok((n, lower + next))
  {
    hide Trivia, StringRest;
    var s := p + r;
    var t := Trivia(s).value;
    TriviaLocal(p, r, q, t);
    if IsQuote(p[t]) {
      StringInside(p, r, q, t, n);
    } else if IsOpener(p[t]) {
      assert lower + upper + [Closing(p[t])] == lower + next;
    } else {
      var all, top := lower + upper, |upper| - 1;
      assert all[|all| - 1] == upper[top] && all[..|all| - 1] == lower + upper[..top];
    }
  }

  lemma StepNext(s: string, awaited: seq<char>, n: nat, next: seq<char>)
    requires awaited != [] && '/' !in awaited && Step(s, awaited) == Ok((n, next))
    ensures '/' !in next
  {
  }

  /** The first turn of a bracket loop that consumes m characters. */
  lemma CloseTurn(s: string, upper: seq<char>, m: nat) returns (n: nat, next: seq<char>)
    requires upper != [] && '/' !in upper && Close(s, upper) == Ok(m)
    ensures Step(s, upper) == Ok((n, next)) && 0 < n <= m <= |s| && (n < m || next == []) && '/' !in next
    ensures Close(s[n..], next) == Ok(m - n)
  {
    hide Step;
    var turn := Step(s, upper);
    n, next := turn.value.0, turn.value.1;
    StepNext(s, upper, n, next);
  }

  /** A piece that closes its own brackets leaves the outer ones as they were. */
  lemma {:induction false} CloseFrame(p: string, r: string, upper: seq<char>, lower: seq<char>, q: string)
    requires Close(p + r, upper) == Ok(|p|) && '/' !in upper
    ensures Close(p + q, lower + upper) == Shift(|p|, Close(q, lower))
    decreases |p|
  {
    hide *;
    if upper == [] {
      Nothing(p, r, q, upper, lower);
    } else {
      var n, next := CloseTurn(p + r, upper, |p|);
      StepLocal(p, r, upper, lower, q, n, next);
      Slices(p, r, n);
      CloseFrame(p[n..], r, next, lower, q);
      CloseOfPiece(p, q, lower + upper, n, lower + next);
      ShiftShift(n, |p| - n, Close(q, lower));
    }
  }

  lemma Nothing(p: string, r: string, q: string, upper: seq<char>, lower: seq<char>)
    requires upper == [] && Close(p + r, upper) == Ok(|p|)
    ensures Close(p + q, lower + upper) == Shift(|p|, Close(q, lower))
  {
    assert p == [] && p + q == q && lower + upper == lower;
  }

  lemma CloseOfPiece(p: string, q: string, awaited: seq<char>, n: nat, next: seq<char>)
    requires awaited != [] && n <= |p| && Step(p + q, awaited) == Ok((n, next))
    ensures Close(p + q, awaited) == Shift(n, Close(p[n..] + q, next))
  {
    Slices(p, q, n);
  }

  /** A string or a bracketed value: it shows where it ends. */
  predicate Enclosed(v: string) {
    v != [] && (IsQuote(v[0]) || IsOpener(v[0])) && Value(v + "}") == Ok(|v|)
  }

  lemma FirstChar(v: string, r: string)
    requires v != [] && (IsQuote(v[0]) || IsOpener(v[0]))
    ensures Trivia(v + r) == Ok(0) && Value(v + r) == Token(v + r)
  {
    NoTriviaIff(v + r);
    assert (v + r)[0..] == v + r;
  }

  lemma EnclosedAnywhere(v: string, r: string, q: string)
    requires v != [] && (IsQuote(v[0]) || IsOpener(v[0])) && Value(v + r) == Ok(|v|)
    ensures Value(v + q) == Ok(|v|) && Trivia(v + q) == Ok(0)
  {
    FirstChar(v, r);
    FirstChar(v, q);
    TokenLocal(v, r, q);
  }

  lemma TokenLocal(v: string, r: string, q: string)
    requires v != [] && (IsQuote(v[0]) || IsOpener(v[0])) && Token(v + r) == Ok(|v|)
    ensures Token(v + q) == Ok(|v|)
  {
    Slices(v, r, 1);
    Slices(v, q, 1);
    assert (v + r)[0] == (v + q)[0] == v[0];
    var body := v[1..];
    if IsQuote(v[0]) {
      StringLocal(body, r, q, v[0]);
    } else {
      var closing := [Closing(v[0])];
      CloseFrame(body, r, closing, [], q);
      assert [] + closing == closing;
    }
  }

  /** v is read as one value in front of r. */
  predicate Fits(v: string, r: string) {
    Value(v + r) == Ok(|v|) && Trivia(v + r) == Ok(0)
  }

  /** When a value read in front of r is also read in front of q. */
  predicate MayFollow(v: string, r: string, q: string) {
    || (v != [] && (IsQuote(v[0]) || IsOpener(v[0])))
    || (v != [] && BareMayPrecede(r, q))
    || (v == [] && q != [] && (q[0] == ',' || q[0] == '}' || q[0] == ']'))
  }

  lemma ValueLocal(v: string, r: string, q: string)
    requires Fits(v, r) && v + r != [] && MayFollow(v, r, q)
    ensures Fits(v, q)
  {
    if v == [] {
      assert v + q == q;
      NoTriviaIff(q);
      assert q[0..] == q;
    } else if IsQuote(v[0]) || IsOpener(v[0]) {
      EnclosedAnywhere(v, r, q);
    } else {
      NoTriviaIff(v + r);
      assert (v + r)[0..] == v + r && (v + q)[0..] == v + q;
      BareLocal(v, r, q);
      assert !EndsBare(v + q);
      NoTriviaIff(v + q);
    }
  }

  lemma {:induction false} IdentLocal(lex: Lexicon, p: string, r: string, q: string)
    requires IdentLen(lex, p + r) == |p|
    requires q != [] && !IsIdent(lex, q[0])
    ensures IdentLen(lex, p + q) == |p|
  {
    if p != [] {
      Slices(p, r, 1);
      Slices(p, q, 1);
      IdentLocal(lex, p[1..], r, q);
    }
  }

  lemma NameLocal(lex: Lexicon, p: string, r: string, q: string, key: string)
    requires p != [] && Name(lex, p + r) == Ok((|p|, key))
    requires IsQuote(p[0]) || (q != [] && !IsIdent(lex, q[0]))
    ensures Name(lex, p + q) == Ok((|p|, key))
  {
    Slices(p, r, 1);
    Slices(p, q, 1);
    assert (p + r)[..|p|] == p == (p + q)[..|p|];
    if IsQuote(p[0]) {
      StringLocal(p[1..], r, q, p[0]);
    } else {
      IdentLocal(lex, p, r, q);
    }
  }

  lemma {:induction false} IdentStops(lex: Lexicon, s: string)
    ensures IdentLen(lex, s) < |s| ==> !IsIdent(lex, s[IdentLen(lex, s)])
  {
    if s != [] && IsIdent(lex, s[0]) {
      IdentStops(lex, s[1..]);
    }
  }

  lemma SeparatorOf(s: string, a: nat)
    requires Trivia(s) == Ok(a) && a < |s| && s[a] == ':'
    ensures Separator(s) == Shift(a + 1, Trivia(s[a + 1..]))
  {
  }

  lemma SeparatorLocal(p: string, r: string, q: string)
    requires r != [] && Separator(p + r) == Ok(|p|) && Trivia(q) == Ok(0)
    ensures Separator(p + q) == Ok(|p|)
  {
    var a := Trivia(p + r).value;
    SeparatorOf(p + r, a);
    TriviaLocal(p, r, q, a);
    SeparatorOf(p + q, a);
    Slices(p, r, a + 1);
    Slices(p, q, a + 1);
    TriviaAppend(p[a + 1..], r, q);
  }

  /** What Head does, given where the name ends. */
  lemma HeadOf(lex: Lexicon, s: string, k: nat, n: nat, key: string)
    requires 0 < k <= |s| && Name(lex, s) == Ok((k, key)) && Separator(s[k..]) == Ok(n)
    ensures Head(lex, s) == Ok((k + n, key))
  {
  }

  lemma HeadParts(lex: Lexicon, s: string) returns (k: nat, n: nat, key: string)
    requires s != [] && Head(lex, s).Ok?
    ensures 0 < k < |s| && Name(lex, s) == Ok((k, key)) && Separator(s[k..]) == Ok(n)
    ensures Head(lex, s) == Ok((k + n, key))
  {
    k, key := Name(lex, s).value.0, Name(lex, s).value.1;
    n := Separator(s[k..]).value;
  }

  lemma NameEnds(lex: Lexicon, s: string, k: nat, key: string)
    requires 0 < k < |s| && Name(lex, s) == Ok((k, key))
    ensures IsQuote(s[0]) || !IsIdent(lex, s[k])
  {
    if !IsQuote(s[0]) {
      IdentStops(lex, s);
    }
  }

  /** A name in front of another separator. */
  lemma NameMoves(lex: Lexicon, p: string, r: string, q: string, k: nat, key: string)
    requires 0 < k < |p| && Name(lex, p + r) == Ok((k, key))
    ensures Name(lex, p + q) == Ok((k, key))
  {
    hide *;
    NameEnds(lex, p + r, k, key);
    Regroup(p, k, r);
    Regroup(p, k, q);
    NameLocal(lex, p[..k], p[k..] + r, p[k..] + q, key);
  }

  lemma SeparatorMoves(p: string, r: string, q: string, k: nat)
    requires k < |p| && r != [] && Separator((p + r)[k..]) == Ok(|p| - k) && Trivia(q) == Ok(0)
    ensures Separator((p + q)[k..]) == Ok(|p| - k)
  {
    hide *;
    Slices(p, r, k);
    Slices(p, q, k);
    SeparatorLocal(p[k..], r, q);
  }

  /** A head is read in front of any value. */
  lemma HeadLocal(lex: Lexicon, p: string, r: string, q: string, key: string)
    requires p != [] && r != [] && Head(lex, p + r) == Ok((|p|, key)) && Trivia(q) == Ok(0)
    ensures Head(lex, p + q) == Ok((|p|, key))
  {
    hide *;
    var k, n, key' := HeadParts(lex, p + r);
    NameMoves(lex, p, r, q, k, key);
    SeparatorMoves(p, r, q, k);
    HeadOf(lex, p + q, k, n, key);
  }
}
