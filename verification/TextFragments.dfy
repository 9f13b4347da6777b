/**
 Bounded fragments of a decoded text, as artifact previews show it.
 */
module TextFragments {
  import opened Results

  datatype Fragment = Fragment(line: nat, fragment: nat, text: string, terminated: bool)

  /** The length readline answers with: up to and including the first newline, and at
      most n characters. */
  function LineLength(s: string, n: nat): (k: nat)
    ensures k <= n && k <= |s|
    ensures n > 0 && s != "" ==> k > 0
    ensures forall i | 0 <= i < k - 1 :: s[i] != '\n'
    ensures k < n && k < |s| ==> k > 0 && s[k - 1] == '\n'
  {
    if s == "" || n == 0 then 0
    else if s[0] == '\n' then 1
    else 1 + LineLength(s[1..], n - 1)
  }

  function Joined(fragments: seq<Fragment>): string {
    if fragments == [] then "" else fragments[0].text + Joined(fragments[1..])
  }

  lemma {:induction false} JoinedMore(fragments: seq<Fragment>, f: Fragment)
    ensures Joined(fragments + [f]) == Joined(fragments) + f.text
  {
    if fragments == [] {
      assert fragments + [f] == [f] && [f][1..] == [];
      assert f.text + "" == f.text;
    } else {
      JoinedMore(fragments[1..], f);
      assert (fragments + [f])[1..] == fragments[1..] + [f];
    }
  }

  function Newlines(s: string): nat {
    if s == "" then 0 else Newlines(s[..|s| - 1]) + if s[|s| - 1] == '\n' then 1 else 0
  }

  lemma {:induction false} NewlinesJoin(a: string, b: string)
    ensures Newlines(a + b) == Newlines(a) + Newlines(b)
    decreases |b|
  {
    if b == "" {
      assert a + b == a;
    } else {
      NewlinesJoin(a, b[..|b| - 1]);
      assert (a + b)[..|a + b| - 1] == a + b[..|b| - 1];
    }
  }

  lemma {:induction false} NoNewline(s: string)
    requires forall i | 0 <= i < |s| :: s[i] != '\n'
    ensures Newlines(s) == 0
    decreases |s|
  {
    if s != "" {
      NoNewline(s[..|s| - 1]);
    }
  }

  /** One line's worth of text has at most one newline, its last character. */
  predicate FragmentOk(f: Fragment, chars: nat) {
    && 1 <= |f.text| <= chars && (f.terminated <==> f.text[|f.text| - 1] == '\n')
    && forall i | 0 <= i < |f.text| - 1 :: f.text[i] != '\n'
  }

  /** f is followed by g: the next line behind a newline, the next fragment of the same
      line behind a full fragment. */
  predicate Follows(f: Fragment, g: Fragment, chars: nat) {
    if f.terminated then g.line == f.line + 1 && g.fragment == 0
    else g.line == f.line && g.fragment == f.fragment + 1 && |f.text| == chars
  }

  lemma FragmentNewlines(f: Fragment, chars: nat)
    requires FragmentOk(f, chars)
    ensures Newlines(f.text) == if f.terminated then 1 else 0
  {
    var n := |f.text| - 1;
    NoNewline(f.text[..n]);
  }

  /** Consecutive fragments from the first line on, each numbered by the newlines in
      front of it. */
  ghost predicate Numbered(fragments: seq<Fragment>, chars: nat) {
    && (forall f <- fragments :: FragmentOk(f, chars))
    && (forall i | 0 <= i < |fragments| - 1 :: Follows(fragments[i], fragments[i + 1], chars))
    && (fragments != [] ==> fragments[0].line == 1 && fragments[0].fragment == 0)
    && (forall i | 0 <= i < |fragments| :: fragments[i].line == 1 + Newlines(Joined(fragments[..i])))
  }

  /** What a further fragment must be. */
  ghost predicate Next(fragments: seq<Fragment>, line: nat, fragment: nat, chars: nat) {
    && line == 1 + Newlines(Joined(fragments))
    && (fragments == [] ==> line == 1 && fragment == 0)
    && (fragments != [] ==> Follows(fragments[|fragments| - 1], Fragment(line, fragment, "", false), chars))
  }

  lemma NumberedMore(fragments: seq<Fragment>, f: Fragment, chars: nat)
    requires Numbered(fragments, chars) && Next(fragments, f.line, f.fragment, chars) && FragmentOk(f, chars)
    ensures Numbered(fragments + [f], chars)
    ensures f.terminated ==> Next(fragments + [f], f.line + 1, 0, chars)
    ensures !f.terminated && |f.text| == chars ==> Next(fragments + [f], f.line, f.fragment + 1, chars)
    ensures Joined(fragments + [f]) == Joined(fragments) + f.text
  {
    hide Newlines, Joined, FragmentOk;
    JoinedMore(fragments, f);
    NewlinesJoin(Joined(fragments), f.text);
    FragmentNewlines(f, chars);
    var more := fragments + [f];
    forall i | 0 <= i < |more|
      ensures more[i].line == 1 + Newlines(Joined(more[..i]))
    {
      assert more[..i] == fragments[..i];
      assert fragments[..|fragments|] == fragments;
    }
  }

  /** The generator of text fragments, collected. */
  method Fragments(text: string, chars: int) returns (r: Result<seq<Fragment>, string>)
    ensures chars < 1 <==> r.Err?
    ensures r.Ok? ==> Joined(r.value) == text && Numbered(r.value, chars)
  {
    if chars < 1 {
      return Err("text_fragment_chars must be positive");
    }
    hide Numbered, Next, FragmentOk, Newlines;
    var line: nat, fragment: nat := 1, 0;
    var found: seq<Fragment> := [];
    var at: nat := 0;
    NothingYet(chars);
    assert text[..0] == "";
    while at < |text|
      invariant at <= |text| && Joined(found) == text[..at] && Numbered(found, chars)
      invariant at < |text| ==> Next(found, line, fragment, chars)
    {
      var rest := text[at..];
      var k := LineLength(rest, chars);
      var piece := rest[..k];
      var terminated := piece[k - 1] == '\n';
      NumberedMore(found, Fragment(line, fragment, piece, terminated), chars);
      assert text[..at] + piece == text[..at + k];
      found := found + [Fragment(line, fragment, piece, terminated)];
      at := at + k;
      if terminated {
        line := line + 1;
        fragment := 0;
      } else {
        fragment := fragment + 1;
      }
    }
    assert text[..at] == text;
    return Ok(found);
  }

  lemma NothingYet(chars: nat)
    ensures Numbered([], chars) && Next([], 1, 0, chars) && Joined([]) == ""
  {
  }
  lemma {:induction false} StrictlyIncreasing(fragments: seq<Fragment>, chars: nat, i: nat, j: nat)
    requires Numbered(fragments, chars)
    requires i < j < |fragments|
    ensures var f, g := fragments[i], fragments[j];
            f.line < g.line || (f.line == g.line && f.fragment < g.fragment)
    decreases j - i
  {
    assert Follows(fragments[j - 1], fragments[j], chars);
    if i < j - 1 {
      StrictlyIncreasing(fragments, chars, i, j - 1);
    }
  }

  /** Only the last fragment of a text can be both short and unterminated. */
  lemma ShortIsLast(fragments: seq<Fragment>, chars: nat, i: nat)
    requires Numbered(fragments, chars)
    requires i < |fragments| && !fragments[i].terminated && |fragments[i].text| < chars
    ensures i == |fragments| - 1
  {
    assert i < |fragments| - 1 ==> Follows(fragments[i], fragments[i + 1], chars);
  }
}
