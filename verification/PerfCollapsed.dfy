/**
 The reader of collapsed perf stacks, and the round trip: for which scripts the
 samples of every leaf symbol are read back as they were written.
 */
module PerfCollapsed {
  import opened Results
  import opened Decimals
  import opened PerfScript

  function JoinFrames(s: Stack): string {
    if s == [] then "" else if |s| == 1 then s[0] else s[0] + (";" + JoinFrames(s[1..]))
  }

  /** A line as the writer writes it, without its newline. */
  function StackLine(s: Stack, count: nat): string {
    JoinFrames(s) + (" " + Digits(count))
  }

  /** The pieces between semicolons. */
  function Split(s: string): (r: seq<string>)
    ensures r != []
  {
    if s == "" then [""]
    else if s[0] == ';' then [""] + Split(s[1..])
    else
      var rest := Split(s[1..]);
      [[s[0]] + rest[0]] + rest[1..]
  }

  /** The pieces are what stands between semicolons, and together the text. */
  lemma {:induction false} SplitIs(s: string)
    ensures JoinFrames(Split(s)) == s && forall piece <- Split(s) :: ';' !in piece
  {
    if s != "" {
      SplitIs(s[1..]);
      var rest := Split(s[1..]);
      assert s == [s[0]] + s[1..];
      if s[0] == ';' {
        assert ([""] + rest)[1..] == rest;
      } else {
        var pieces := [[s[0]] + rest[0]] + rest[1..];
        assert pieces[1..] == rest[1..] && rest[0] in rest && forall piece <- rest[1..] :: piece in rest;
        if |rest| == 1 {
          assert JoinFrames(rest) == rest[0];
        } else {
          assert [s[0]] + (rest[0] + (";" + JoinFrames(rest[1..]))) == ([s[0]] + rest[0]) + (";" + JoinFrames(rest[1..]));
        }
      }
    }
  }

  function NonEmpty(pieces: seq<string>): seq<string> {
    if pieces == [] then []
    else NonEmpty(pieces[..|pieces| - 1]) + if pieces[|pieces| - 1] == "" then [] else [pieces[|pieces| - 1]]
  }

  datatype Entry = Entry(leaf: string, count: nat)

  /** One line of the reader: nothing for a blank line, else a leaf with its count. */
  function ReadLine(raw: string): Result<Option<Entry>, string> {
    var line := Strip(raw);
    if line == "" then Ok(None)
    else
      match LastPlace(line, " ")
      case None => Err("Collapsed perf stack is invalid")
      case Some(i) =>
        var stack, count := line[..i], line[i + 1..];
        if stack == "" || !AllDigits(count) then Err("Collapsed perf stack is invalid")
        else
          var frames := NonEmpty(Split(stack));
          if frames == [] then Err("Collapsed perf stack has no frames")
          else Ok(Some(Entry(frames[|frames| - 1], NumberOf(count))))
  }

  function NumberOf(s: string): nat
    requires AllDigits(s)
  {
    NumberPositive(s);
    Number(s)
  }

  lemma {:induction false} LastPlaceBefore(a: string, b: string)
    requires ' ' !in b
    ensures LastPlace(a + (" " + b), " ") == Some(|a|)
    decreases |b|
  {
    var s := a + (" " + b);
    if b == "" {
      assert s[|s| - 1..] == " ";
    } else {
      var k := |b| - 1;
      assert b == b[..k] + [b[k]];
      LastPlaceBefore(a, b[..k]);
      assert s[..|s| - 1] == a + (" " + b[..k]);
      assert s[|s| - 1] == b[k];
      assert s[|s| - 1..] == [b[k]];
      assert b[k] in b;
    }
  }

  lemma {:induction false} SplitOne(s: string)
    requires ';' !in s
    ensures Split(s) == [s]
  {
    if s != "" {
      assert s == [s[0]] + s[1..];
      SplitOne(s[1..]);
    }
  }

  /** The last piece is what stands behind the last semicolon. */
  lemma {:induction false} SplitLast(a: string, b: string)
    requires ';' !in b
    ensures var r := Split(a + (";" + b)); r[|r| - 1] == b && |r| > 1
  {
    var s := a + (";" + b);
    if a == "" {
      assert s == ";" + b && s[1..] == b;
      SplitOne(b);
    } else {
      assert s[1..] == a[1..] + (";" + b);
      SplitLast(a[1..], b);
    }
  }

  lemma LastNonEmpty(pieces: seq<string>)
    requires pieces != [] && pieces[|pieces| - 1] != ""
    ensures var frames := NonEmpty(pieces); frames != [] && frames[|frames| - 1] == pieces[|pieces| - 1]
  {
  }

  function Leaf(s: Stack): string
    requires s != []
  {
    s[|s| - 1]
  }

  /** A joined stack is a text, a semicolon and its leaf, or the leaf alone. */
  lemma {:induction false} JoinParts(s: Stack) returns (front: string)
    requires |s| > 1
    ensures JoinFrames(s) == s[0] + (";" + JoinFrames(s[1..]))
    ensures JoinFrames(s) == s[0] + ((";" + front) + Leaf(s)) && (front == "" || front[|front| - 1] == ';')
  {
    if |s| == 2 {
      front := "";
      assert JoinFrames(s[1..]) == s[1];
      assert s[0] + (";" + s[1]) == s[0] + ((";" + "") + s[1]);
    } else {
      var inner := JoinParts(s[1..]);
      front := s[1] + (";" + inner);
      assert s[1] + ((";" + inner) + Leaf(s)) == front + Leaf(s);
      assert s[0] + (";" + (front + Leaf(s))) == s[0] + ((";" + front) + Leaf(s));
    }
  }

  /** Stripping a text that starts with a given piece touches that piece alone, as long
      as something visible follows. */
  lemma {:induction false} StripLeftFront(a: string, b: string)
    requires b != "" && !IsSpace(b[0])
    ensures StripLeft(a + b) == StripLeft(a) + b
  {
    if a == "" {
      assert a + b == b;
      assert "" + b == b;
    } else {
      assert (a + b)[1..] == a[1..] + b && (a + b)[0] == a[0];
      if IsSpace(a[0]) {
        StripLeftFront(a[1..], b);
      }
    }
  }

  lemma CountVisible(count: nat)
    ensures var d := Digits(count);
            && ' ' !in d && AllDigits(d) && !IsSpace(d[|d| - 1]) && NumberOf(d) == count
  {
    var d := Digits(count);
    NumberOfDigits(count);
    assert IsDigit(d[|d| - 1]);
  }

  /** What is left of a line of one frame, or of several, when it is stripped. */
  lemma StripLine(front: string, visible: string, count: nat)
    requires visible != "" && !IsSpace(visible[0])
    ensures Strip(front + (visible + (" " + Digits(count)))) == (StripLeft(front) + visible) + (" " + Digits(count))
  {
    var d := Digits(count);
    CountVisible(count);
    var tail := visible + (" " + d);
    var line := front + tail;
    assert line[|line| - 1] == d[|d| - 1];
    StripLeftFront(front, tail);
  }

  /** A line that has been stripped to a text and a count. */
  lemma ReadStripped(raw: string, stack: string, count: nat, leaf: string)
    requires Strip(raw) == stack + (" " + Digits(count)) && stack != ""
    requires Split(stack)[|Split(stack)| - 1] == leaf != ""
    ensures ReadLine(raw) == Ok(Some(Entry(leaf, count)))
  {
    var d := Digits(count);
    CountVisible(count);
    hide *;
    LastPlaceBefore(stack, d);
    LastNonEmpty(Split(stack));
    ReadParts(raw, stack, d);
  }

  /** What the reader does with a line, given its parts. */
  lemma ReadParts(raw: string, stack: string, count: string)
    requires Strip(raw) != "" && LastPlace(Strip(raw), " ") == Some(|stack|) && |stack| < |Strip(raw)|
    requires Strip(raw)[..|stack|] == stack && Strip(raw)[|stack| + 1..] == count
    requires stack != "" && AllDigits(count) && NonEmpty(Split(stack)) != []
    ensures var frames := NonEmpty(Split(stack));
            ReadLine(raw) == Ok(Some(Entry(frames[|frames| - 1], NumberOf(count))))
  {
    hide Strip, LastPlace, AllDigits, NonEmpty, Split, NumberOf;
  }

  /** Two or more frames: the leaf is read back whatever the root looks like. */
  lemma ReadDeep(s: Stack, count: nat)
    requires CleanStack(s) && |s| > 1
    ensures ReadLine(StackLine(s, count)) == Ok(Some(Entry(Leaf(s), count)))
  {
    hide StripLeft, StripRight, Split, ReadLine, JoinFrames, CleanFrame, Strip;
    var front := JoinParts(s);
    var rest := (";" + front) + Leaf(s);
    assert CleanFrame(Leaf(s));
    assert rest[0] == ';';
    StripLine(s[0], rest, count);
    assert StackLine(s, count) == s[0] + (rest + (" " + Digits(count)));
    var stack := StripLeft(s[0]) + rest;
    CleanLeaf(Leaf(s));
    DeepSplit(StripLeft(s[0]), front, Leaf(s));
    ReadStripped(StackLine(s, count), stack, count, Leaf(s));
  }

  lemma CleanLeaf(f: string)
    requires CleanFrame(f)
    ensures f != "" && ';' !in f
  {
  }

  lemma DeepSplit(root: string, front: string, leaf: string)
    requires ';' !in leaf && (front == "" || front[|front| - 1] == ';')
    ensures var r := Split(root + ((";" + front) + leaf)); r[|r| - 1] == leaf
  {
    if front == "" {
      assert root + ((";" + front) + leaf) == root + (";" + leaf);
      SplitLast(root, leaf);
    } else {
      var k := |front| - 1;
      assert front == front[..k] + ";";
      assert root + ((";" + front) + leaf) == (root + (";" + front[..k])) + (";" + leaf);
      SplitLast(root + (";" + front[..k]), leaf);
    }
  }

  /** One frame: its own leading blanks are lost, and with them perhaps all of it. */
  lemma ReadSingle(f: string, count: nat)
    requires CleanFrame(f)
    ensures !IsSpace(f[0]) ==> ReadLine(StackLine([f], count)) == Ok(Some(Entry(f, count)))
    ensures IsSpace(f[0]) ==>
              (ReadLine(StackLine([f], count)).Err? ||
               (ReadLine(StackLine([f], count)).value.Some? && !IsSpace(FirstOf(ReadLine(StackLine([f], count)).value.value.leaf))))
  {
    var line := StackLine([f], count);
    CountVisible(count);
    if !IsSpace(f[0]) {
      assert line == "" + (f + (" " + Digits(count)));
      StripLine("", f, count);
      assert (StripLeft("") + f) + (" " + Digits(count)) == f + (" " + Digits(count));
      SplitOne(f);
      ReadStripped(line, f, count, f);
    } else {
      SingleBlank(f, count);
    }
  }

  /** The first character of a leaf; the blank of an empty one never counts. */
  function FirstOf(leaf: string): char {
    if leaf == "" then '?' else leaf[0]
  }

  lemma {:induction false} StripLeftPart(s: string)
    ensures exists k: nat :: k <= |s| && StripLeft(s) == s[k..]
  {
    if s != "" && IsSpace(s[0]) {
      StripLeftPart(s[1..]);
      var k: nat :| k <= |s[1..]| && StripLeft(s[1..]) == s[1..][k..];
      assert StripLeft(s) == s[k + 1..];
    } else {
      assert s[0..] == s;
    }
  }

  lemma SingleBlank(f: string, count: nat)
    requires CleanFrame(f) && IsSpace(f[0])
    ensures var r := ReadLine(StackLine([f], count));
            r.Err? || (r.value.Some? && !IsSpace(FirstOf(r.value.value.leaf)))
  {
    var d := Digits(count);
    var trimmed := StripLeft(f);
    NumberOfDigits(count);
    assert IsDigit(d[0]);
    if trimmed == "" {
      AllBlank(f, d);
    } else {
      StripLeftPart(f);
      var k: nat :| k <= |f| && trimmed == f[k..];
      PartHasNoSemicolon(f, k);
      BlankPrefix(f, k);
      assert f == f[..k] + trimmed;
      hide *;
      Trimmed(f[..k], trimmed, count);
    }
  }

  lemma PartHasNoSemicolon(f: string, k: nat)
    requires k <= |f| && ';' !in f
    ensures ';' !in f[k..]
  {
  }

  /** A single frame is read without the blanks in front of it. */
  lemma Trimmed(front: string, trimmed: string, count: nat)
    requires StripLeft(front) == "" && trimmed != "" && !IsSpace(trimmed[0]) && ';' !in trimmed
    ensures ReadLine(StackLine([front + trimmed], count)) == Ok(Some(Entry(trimmed, count)))
  {
    LineOf(front, trimmed, count);
    hide *;
    StripLine(front, trimmed, count);
    assert "" + trimmed == trimmed;
    SplitOne(trimmed);
    ReadStripped(StackLine([front + trimmed], count), trimmed, count, trimmed);
  }

  lemma LineOf(front: string, trimmed: string, count: nat)
    ensures StackLine([front + trimmed], count) == front + (trimmed + (" " + Digits(count)))
  {
    hide Digits;
    var d := " " + Digits(count);
    assert (front + trimmed) + d == front + (trimmed + d);
  }

  lemma {:induction false} BlankPrefix(f: string, k: nat)
    requires k <= |f| && StripLeft(f) == f[k..] && StripLeft(f) != ""
    ensures StripLeft(f[..k]) == ""
  {
    if k > 0 {
      assert |f[k..]| == |f| - k;
      assert IsSpace(f[0]);
      assert f[k..] == f[1..][k - 1..] && f[..k][1..] == f[1..][..k - 1];
      BlankPrefix(f[1..], k - 1);
    }
  }

  lemma {:induction false} BlankAll(s: string)
    requires StripLeft(s) == ""
    ensures forall i | 0 <= i < |s| :: IsSpace(s[i])
  {
    if s != "" {
      BlankAll(s[1..]);
    }
  }

  /** Nothing but blanks in front of the count: the line has no stack. */
  lemma AllBlank(f: string, d: string)
    requires f != "" && StripLeft(f) == "" && AllDigits(d) && !IsSpace(d[|d| - 1]) && !IsSpace(d[0]) && ' ' !in d
    ensures Strip(f + (" " + d)) == d && ReadLine(f + (" " + d)).Err?
  {
    var line := f + (" " + d);
    assert line[|line| - 1] == d[|d| - 1];
    assert line == (f + " ") + d;
    StripLeftFront(f + " ", d);
    BlankAll(f);
    BlankJoin(f);
    assert "" + d == d;
    NoSpace(d);
  }

  lemma {:induction false} BlankJoin(f: string)
    requires forall i | 0 <= i < |f| :: IsSpace(f[i])
    ensures StripLeft(f + " ") == ""
  {
    if f == "" {
      assert f + " " == " " && " "[1..] == "";
    } else {
      BlankJoin(f[1..]);
      assert (f + " ")[1..] == f[1..] + " ";
    }
  }

  lemma {:induction false} NoSpace(d: string)
    requires ' ' !in d
    ensures LastPlace(d, " ") == None
    decreases |d|
  {
    if d != "" {
      assert d[|d| - 1] in d;
      assert d[|d| - 1..] == [d[|d| - 1]];
      assert d == d[..|d| - 1] + [d[|d| - 1]];
      NoSpace(d[..|d| - 1]);
    }
  }

  /** The reader gives back the leaf of a stack. */
  predicate Survives(s: Stack)
    requires s != []
  {
    |s| > 1 || s[0] == "" || !IsSpace(s[0][0])
  }

  lemma ReadStack(s: Stack, count: nat)
    requires CleanStack(s)
    ensures Survives(s) ==> ReadLine(StackLine(s, count)) == Ok(Some(Entry(Leaf(s), count)))
    ensures !Survives(s) ==>
              (ReadLine(StackLine(s, count)).Err? ||
               (ReadLine(StackLine(s, count)).value.Some? && !IsSpace(FirstOf(ReadLine(StackLine(s, count)).value.value.leaf))))
  {
    hide ReadLine, StackLine, CleanFrame;
    assert CleanFrame(s[0]);
    if |s| > 1 {
      ReadDeep(s, count);
    } else {
      assert s == [s[0]];
      CleanLeaf(s[0]);
      ReadSingle(s[0], count);
    }
  }
}
