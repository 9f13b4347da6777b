/**
 What the scanner passes over, told by the shape of the text: blanks, comments to the
 end of a line, comments up to their end mark, and nothing else.
 */
module JsoncTrivia {
  import opened Results
  import opened JsoncScanner

  lemma {:induction false} LineFound(line: string, r: string)
    requires '\n' !in line
    ensures LineLen(line + ("\n" + r)) == |line| + 1 && LineLen(line) == |line|
  {
    if line == "" {
      assert "" + ("\n" + r) == "\n" + r;
    } else {
      assert line[0] in line;
      forall c <- line[1..]
        ensures c in line
      {
      }
      LineFound(line[1..], r);
      assert (line + ("\n" + r))[1..] == line[1..] + ("\n" + r);
    }
  }

  /** An end mark stands at a place of a text. */
  predicate EndMarkAt(s: string, i: nat) {
    i + 2 <= |s| && s[i] == '*' && s[i + 1] == '/'
  }

  lemma {:induction false} BlockFound(s: string, n: nat)
    requires EndMarkAt(s, n) && forall i: nat | i < n :: !EndMarkAt(s, i)
    ensures BlockLen(s) == Ok(n + 2)
  {
    if n > 0 {
      assert !EndMarkAt(s, 0);
      forall i: nat | i < n - 1
        ensures !EndMarkAt(s[1..], i)
      {
        assert !EndMarkAt(s, i + 1);
      }
      BlockFound(s[1..], n - 1);
    }
  }

  lemma {:induction false} BlockMissing(s: string)
    requires forall i: nat :: !EndMarkAt(s, i)
    ensures BlockLen(s) == Err(UnterminatedComment)
  {
    if |s| >= 2 {
      assert !EndMarkAt(s, 0);
      forall i: nat
        ensures !EndMarkAt(s[1..], i)
      {
        assert !EndMarkAt(s, i + 1);
      }
      BlockMissing(s[1..]);
    }
  }

  /** A blank is passed over. */
  lemma BlankPassed(c: char, r: string)
    requires IsSpace(c)
    ensures Trivia([c] + r) == Shift(1, Trivia(r))
  {
    assert ([c] + r)[1..] == r;
  }

  /** Two slashes are passed over with the rest of their line. */
  lemma LinePassed(line: string, r: string)
    requires '\n' !in line
    ensures Trivia("//" + (line + ("\n" + r))) == Shift(|line| + 3, Trivia(r))
    ensures Trivia("//" + line) == Ok(|line| + 2)
  {
    LineFound(line, r);
    LineEnds(line, r);
    SlashesPassed(line + ("\n" + r));
    SlashesPassed(line);
    EndOfText();
    hide *;
    AtTheEnd(|line| + 2);
  }

  lemma EndOfText()
    ensures Trivia("") == Ok(0)
  {
  }

  lemma AtTheEnd(n: nat)
    ensures Shift(n, Ok(0)) == Ok(n)
  {
  }

  lemma SlashesPassed(s: string)
    ensures LineLen(s) + 2 <= |"//" + s|
    ensures Trivia("//" + s) == Shift(LineLen(s) + 2, Trivia(("//" + s)[LineLen(s) + 2..]))
  {
    hide LineLen, Trivia;
    var t := "//" + s;
    assert t[0] == '/' && t[1] == '/' && t[2..] == s;
    Passed(t, LineLen(s) + 2);
  }

  lemma LineEnds(line: string, r: string)
    ensures ("//" + (line + ("\n" + r)))[2..] == line + ("\n" + r) && ("//" + (line + ("\n" + r)))[|line| + 3..] == r
    ensures ("//" + line)[2..] == line && ("//" + line)[|line| + 2..] == ""
  {
  }

  lemma Passed(s: string, n: nat)
    requires StartsComment(s) && CommentLen(s) == Ok(n)
    ensures Trivia(s) == Shift(n, Trivia(s[n..]))
  {
    hide CommentLen;
  }

  /** A slash and a star are passed over up to the first end mark behind them, and are
      an error without one. */
  lemma BlockPassed(s: string)
    ensures forall n: nat :: EndMarkAt(s, n) && (forall i: nat | i < n :: !EndMarkAt(s, i)) ==>
              Trivia("/*" + s) == Shift(n + 4, Trivia(s[n + 2..]))
    ensures (forall i: nat :: !EndMarkAt(s, i)) ==> Trivia("/*" + s) == Err(UnterminatedComment)
  {
    assert ("/*" + s)[2..] == s;
    forall n: nat | EndMarkAt(s, n) && forall i: nat | i < n :: !EndMarkAt(s, i)
      ensures Trivia("/*" + s) == Shift(n + 4, Trivia(s[n + 2..]))
    {
      BlockFound(s, n);
      assert ("/*" + s)[n + 4..] == s[n + 2..];
    }
    if forall i: nat :: !EndMarkAt(s, i) {
      BlockMissing(s);
    }
  }

  /** Nothing else is passed over. */
  lemma NothingPassed(s: string)
    requires s == "" || !IsSpace(s[0])
    requires |s| < 2 || (s[..2] != "//" && s[..2] != "/*")
    ensures Trivia(s) == Ok(0)
  {
    assert |s| >= 2 ==> s[..2] == [s[0], s[1]];
    assert "//" == ['/', '/'] && "/*" == ['/', '*'];
  }
}
