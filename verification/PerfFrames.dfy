/**
 What the lines of a perf script say: the shape of a frame line and of a sample, told
 without the steps that take them apart.
 */
module PerfFrames {
  import opened Results
  import opened PerfScript

  predicate AllBlank(s: string) {
    forall c <- s :: IsSpace(c)
  }

  /** The text without the blanks around it. */
  ghost predicate IsStripped(s: string, t: string) {
    && (t != "" ==> !IsSpace(t[0]) && !IsSpace(t[|t| - 1]))
    && exists a, b :: AllBlank(a) && AllBlank(b) && s == a + t + b
  }

  lemma {:induction false} StripLeftIs(s: string) returns (a: string)
    ensures AllBlank(a) && s == a + StripLeft(s)
  {
    if s != "" && IsSpace(s[0]) {
      var rest := StripLeftIs(s[1..]);
      a := [s[0]] + rest;
    } else {
      a := "";
    }
  }

  lemma {:induction false} StripRightIs(s: string) returns (b: string)
    ensures AllBlank(b) && s == StripRight(s) + b
    ensures StripRight(s) != "" ==> !IsSpace(StripRight(s)[|StripRight(s)| - 1])
  {
    if s != "" && IsSpace(s[|s| - 1]) {
      var rest := StripRightIs(s[..|s| - 1]);
      b := rest + [s[|s| - 1]];
    } else {
      b := "";
    }
  }

  lemma StripIs(s: string)
    ensures IsStripped(s, Strip(s))
  {
    var b := StripRightIs(s);
    var a := StripLeftIs(StripRight(s));
    assert s == a + Strip(s) + b;
  }

  /** Hexadecimal digits, at least one. */
  predicate Hexadecimal(s: string) {
    s != "" && forall c <- s :: '0' <= c <= '9' || 'a' <= c <= 'f' || 'A' <= c <= 'F'
  }

  lemma HexIs(s: string)
    ensures AllHex(s) <==> Hexadecimal(s)
  {
    if Hexadecimal(s) {
      forall i | 0 <= i < |s|
        ensures IsHex(s[i])
      {
        assert s[i] in s;
      }
    }
  }

  predicate Address(s: string) {
    Hexadecimal(s) || (|s| > 2 && s == "0x" + s[2..] && Hexadecimal(s[2..]))
  }

  lemma AddressIs(s: string)
    ensures IsAddress(s) <==> Address(s)
  {
    HexIs(s);
    if |s| > 2 {
      HexIs(s[2..]);
      assert s == s[..2] + s[2..];
      assert ("0x" + s[2..])[..2] == "0x";
    }
  }

  lemma {:induction false} HexRunIs(s: string)
    ensures (HexRun(s) > 0 ==> Hexadecimal(s[..HexRun(s)])) && (HexRun(s) < |s| ==> !IsHex(s[HexRun(s)]))
  {
    if s != "" && IsHex(s[0]) {
      HexRunIs(s[1..]);
      assert s[..HexRun(s)] == [s[0]] + s[1..][..HexRun(s[1..])];
    }
  }

  lemma {:induction false} HexRunOf(h: string, rest: string)
    requires Hexadecimal(h) && (rest == "" || !IsHex(rest[0]))
    ensures HexRun(h + rest) == |h|
  {
    assert h[0] in h;
    assert (h + rest)[1..] == h[1..] + rest;
    if |h| > 1 {
      forall c <- h[1..]
        ensures c in h
      {
      }
      HexRunOf(h[1..], rest);
    } else {
      assert h[1..] + rest == rest;
    }
  }

  /** "+0x1f" or "+0x1f/0x2a". */
  ghost predicate OffsetText(s: string) {
    || (exists h :: Hexadecimal(h) && s == "+0x" + h)
    || (exists h, size :: Hexadecimal(h) && Hexadecimal(size) && s == "+0x" + h + "/0x" + size)
  }

  lemma OffsetIs(s: string)
    ensures IsOffset(s) <==> OffsetText(s)
  {
    hide Hexadecimal;
    if IsOffset(s) {
      OffsetParts(s);
    }
    if h :| Hexadecimal(h) && s == "+0x" + h {
      ShortOffset(h);
    }
    if h, size :| Hexadecimal(h) && Hexadecimal(size) && s == "+0x" + h + "/0x" + size {
      LongOffset(h, size);
    }
  }

  lemma OffsetParts(s: string)
    requires IsOffset(s)
    ensures OffsetText(s)
  {
    hide Hexadecimal, HexRun, AllHex;
    var n := HexRun(s[3..]);
    HexRunIs(s[3..]);
    var h, rest := s[3..][..n], s[3 + n..];
    assert s == "+0x" + h + rest by {
      assert s == s[..3] + s[3..] && s[3..] == h + rest;
    }
    if rest != "" {
      HexIs(rest[3..]);
      assert rest == "/0x" + rest[3..] by {
        assert rest == rest[..3] + rest[3..];
      }
      assert s == "+0x" + h + "/0x" + rest[3..];
    } else {
      assert s == "+0x" + h;
    }
  }

  lemma ShortOffset(h: string)
    requires Hexadecimal(h)
    ensures IsOffset("+0x" + h)
  {
    var s := "+0x" + h;
    assert s[3..] == h + "" && s[..3] == "+0x" && s[3 + |h|..] == "";
    HexRunOf(h, "");
  }

  lemma LongOffset(h: string, size: string)
    requires Hexadecimal(h) && Hexadecimal(size)
    ensures IsOffset("+0x" + h + "/0x" + size)
  {
    var s, rest := "+0x" + h + "/0x" + size, "/0x" + size;
    assert s[3..] == h + rest && s[..3] == "+0x" && rest[..3] == "/0x" && rest[3..] == size;
    HexRunOf(h, rest);
    HexIs(size);
    hide Hexadecimal, HexRun, AllHex;
    assert s[3 + |h|..] == rest;
  }

  /** The symbol up to its first offset that reaches to the end. */
  ghost predicate WithoutOffset(s: string, t: string) {
    exists k: nat :: k <= |s| && t == s[..k] && (k == |s| || OffsetText(s[k..])) && forall j | 0 <= j < k :: !OffsetText(s[j..])
  }

  lemma {:induction false} DropOffsetIs(s: string)
    ensures WithoutOffset(s, DropOffset(s))
  {
    hide OffsetText, IsOffset, WithoutOffset;
    OffsetIs(s);
    if s == "" || IsOffset(s) {
      OffsetHere(s);
    } else {
      DropOffsetIs(s[1..]);
      OffsetLater(s, DropOffset(s[1..]));
    }
  }

  lemma OffsetHere(s: string)
    requires s == "" || OffsetText(s)
    ensures WithoutOffset(s, "")
  {
    hide OffsetText;
    assert s[0..] == s && s[..0] == "";
  }

  lemma OffsetLater(s: string, t: string)
    requires s != "" && !OffsetText(s) && WithoutOffset(s[1..], t)
    ensures WithoutOffset(s, [s[0]] + t)
  {
    hide OffsetText;
    var rest := s[1..];
    var k: nat :| k <= |rest| && t == rest[..k] && (k == |rest| || OffsetText(rest[k..])) && forall j | 0 <= j < k :: !OffsetText(rest[j..]);
    assert [s[0]] + t == s[..k + 1] && rest[k..] == s[k + 1..];
    forall j | 0 <= j < k + 1
      ensures !OffsetText(s[j..])
    {
      if j > 0 {
        assert rest[j - 1..] == s[j..];
      } else {
        assert s[0..] == s;
      }
    }
  }

  predicate OccursAt(s: string, t: string, i: nat) {
    i + |t| <= |s| && s[i..i + |t|] == t
  }

  lemma OccursIn(s: string, t: string, i: nat)
    requires |t| <= |s| && s != ""
    ensures i + |t| < |s| ==> (OccursAt(s, t, i) <==> OccursAt(s[..|s| - 1], t, i))
    ensures i + |t| == |s| ==> (OccursAt(s, t, i) <==> s[|s| - |t|..] == t)
    ensures i + |t| > |s| ==> !OccursAt(s, t, i)
    ensures OccursAt(s[..|s| - 1], t, i) ==> i + |t| < |s|
  {
    if i + |t| < |s| {
      assert s[..|s| - 1][i..i + |t|] == s[i..i + |t|];
    } else if i + |t| == |s| {
      assert s[i..i + |t|] == s[|s| - |t|..];
    }
  }

  lemma {:induction false} LastPlaceIs(s: string, t: string)
    ensures var r := LastPlace(s, t);
            && (r.Some? ==> OccursAt(s, t, r.value))
            && forall i: nat :: OccursAt(s, t, i) ==> r.Some? && i <= r.value
    decreases |s|
  {
    if |s| >= |t| && s != "" {
      var front := s[..|s| - 1];
      LastPlaceIs(front, t);
      if LastPlace(front, t).Some? {
        OccursIn(s, t, LastPlace(front, t).value);
      }
      OccursIn(s, t, |s| - |t|);
      forall i: nat | OccursAt(s, t, i)
        ensures LastPlace(s, t).Some? && i <= LastPlace(s, t).value
      {
        OccursIn(s, t, i);
        hide OccursAt;
      }
    }
  }

  lemma {:induction false} FirstSpaceIs(s: string)
    ensures match FirstSpace(s)
            case None => ' ' !in s
            case Some(i) => s[i] == ' ' && ' ' !in s[..i]
  {
    if s != "" && s[0] != ' ' {
      FirstSpaceIs(s[1..]);
      assert s == [s[0]] + s[1..];
      if FirstSpace(s).Some? {
        var i := FirstSpace(s).value;
        assert s[..i] == [s[0]] + s[1..][..i - 1];
      }
    }
  }

  /** A frame line: an address, a symbol, and behind the last opening parenthesis that
      follows a blank its shared object, with blanks around it all. */
  ghost predicate FrameLine(line: string, symbol: string) {
    exists address: string, dso: string, text: string ::
      && IsStripped(line, text) && IsFrameText(text, address, symbol, dso)
  }

  ghost predicate IsFrameText(text: string, address: string, symbol: string, dso: string) {
    && text == address + " " + symbol + " (" + dso + ")" && Address(address) && ' ' !in address
    && forall i: nat :: OccursAt(text, " (", i) ==> i <= |address + " " + symbol|
  }

  /** What a symbol is written as. */
  ghost predicate Shown(symbol: string, name: string) {
    exists t :: WithoutOffset(symbol, t) && name == NoSemicolons(if t == "" then "[unknown]" else t)
  }

  /** The steps of Frame on an accepted line. */
  lemma FrameSteps(line: string) returns (i: nat, j: nat)
    requires Frame(line).Ok?
    ensures var text := Strip(line);
            && LastPlace(text, " (") == Some(i) && i + 2 < |text| && text[|text| - 1] == ')'
            && FirstSpace(text[..i]) == Some(j) && j < i && IsAddress(text[..i][..j])
            && Frame(line) == Ok(NoSemicolons(var symbol := DropOffset(text[..i][j + 1..]);
                                              if symbol == "" then "[unknown]" else symbol))
  {
    hide Strip, IsAddress, DropOffset, LastPlace, FirstSpace, NoSemicolons;
    var text := Strip(line);
    i := LastPlace(text, " (").value;
    j := FirstSpace(text[..i]).value;
    assert text[i + 2..][|text[i + 2..]| - 1] == text[|text| - 1];
  }

  lemma TextParts(text: string, i: nat, j: nat)
    requires i + 2 < |text| && OccursAt(text, " (", i) && text[|text| - 1] == ')' && j < i && text[..i][j] == ' '
    ensures var address, symbol, dso := text[..i][..j], text[..i][j + 1..], text[i + 2..|text| - 1];
            address + " " + symbol == text[..i] && text == address + " " + symbol + " (" + dso + ")"
  {
    assert text == text[..i] + text[i..i + 2] + text[i + 2..|text| - 1] + [text[|text| - 1]];
  }

  /** A frame that is accepted is a frame line, written under its symbol without the
      offset and without semicolons. */
  lemma FrameMeans(line: string)
    requires Frame(line).Ok?
    ensures exists symbol :: FrameLine(line, symbol) && Shown(symbol, Frame(line).value)
  {
    hide *;
    var i, j := FrameSteps(line);
    var text := Strip(line);
    StripIs(line);
    LastPlaceIs(text, " (");
    FirstSpaceIs(text[..i]);
    TextParts(text, i, j);
    var address, symbol, dso := text[..i][..j], text[..i][j + 1..], text[i + 2..|text| - 1];
    DropOffsetIs(symbol);
    IsText(text, address, symbol, dso, i);
    IsLine(line, text, address, symbol, dso);
    IsShown(symbol, DropOffset(symbol));
  }

  lemma IsText(text: string, address: string, symbol: string, dso: string, i: nat)
    requires text == address + " " + symbol + " (" + dso + ")" && IsAddress(address) && ' ' !in address
    requires |address + " " + symbol| == i && forall k: nat :: OccursAt(text, " (", k) ==> k <= i
    ensures IsFrameText(text, address, symbol, dso)
  {
    AddressIs(address);
  }

  lemma IsLine(line: string, text: string, address: string, symbol: string, dso: string)
    requires IsStripped(line, text) && IsFrameText(text, address, symbol, dso)
    ensures FrameLine(line, symbol)
  {
    hide IsStripped, IsFrameText;
  }

  lemma IsShown(symbol: string, t: string)
    requires WithoutOffset(symbol, t)
    ensures Shown(symbol, NoSemicolons(if t == "" then "[unknown]" else t))
  {
    hide WithoutOffset;
  }

  lemma {:induction false} StripRightOf(x: string, b: string)
    requires AllBlank(b) && (x != "" ==> !IsSpace(x[|x| - 1]))
    ensures StripRight(x + b) == x
    decreases |b|
  {
    if b == "" {
      assert x + b == x;
    } else {
      assert (x + b)[..|x + b| - 1] == x + b[..|b| - 1];
      assert b[|b| - 1] in b && (x + b)[|x + b| - 1] == b[|b| - 1];
      forall c <- b[..|b| - 1]
        ensures c in b
      {
      }
      StripRightOf(x, b[..|b| - 1]);
    }
  }

  lemma {:induction false} StripLeftOf(a: string, x: string)
    requires AllBlank(a) && (x != "" ==> !IsSpace(x[0]))
    ensures StripLeft(a + x) == x
  {
    if a == "" {
      assert a + x == x;
    } else {
      assert (a + x)[1..] == a[1..] + x && a[0] in a;
      forall c <- a[1..]
        ensures c in a
      {
      }
      StripLeftOf(a[1..], x);
    }
  }

  lemma StripUnique(s: string, t: string)
    requires IsStripped(s, t)
    ensures Strip(s) == t
  {
    var a, b :| AllBlank(a) && AllBlank(b) && s == a + t + b;
    if t == "" {
      assert s == "" + (a + b);
      StripRightOf("", a + b);
    } else {
      assert (a + t)[|a + t| - 1] == t[|t| - 1];
      StripRightOf(a + t, b);
      StripLeftOf(a, t);
    }
  }

  /** Every frame line is accepted. */
  lemma FrameAccepted(line: string, symbol: string)
    requires FrameLine(line, symbol)
    ensures Frame(line).Ok? && Shown(symbol, Frame(line).value)
  {
    hide OccursAt, IsStripped, Shown, WithoutOffset, Strip, IsAddress, Address, DropOffset, LastPlace, FirstSpace;
    var address, dso, text :| IsStripped(line, text) && IsFrameText(text, address, symbol, dso);
    StripUnique(line, text);
    AddressIs(address);
    LastPlaceIs(text, " (");
    PartsFound(text, address, symbol, dso);
    var front := address + " " + symbol;
    FirstSpaceIs(front);
    assert front[|address|] == ' ' && front[..|address|] == address;
    SpaceFound(front, |address|);
    assert front[|address| + 1..] == symbol;
    DropOffsetIs(symbol);
    IsShown(symbol, DropOffset(symbol));
    assert (dso + ")")[|dso + ")"| - 1] == ')';
  }

  lemma PartsFound(text: string, address: string, symbol: string, dso: string)
    requires IsFrameText(text, address, symbol, dso)
    ensures var i := |address + " " + symbol|;
            OccursAt(text, " (", i) && text[..i] == address + " " + symbol && text[i + 2..] == dso + ")"
  {
  }

  lemma SpaceFound(front: string, k: nat)
    requires k < |front| && front[k] == ' ' && ' ' !in front[..k]
    ensures FirstSpace(front) == Some(k)
  {
    FirstSpaceIs(front);
    assert forall m | 0 <= m < k :: front[..k][m] in front[..k];
    assert FirstSpace(front).Some? ==> forall m | 0 <= m < FirstSpace(front).value ::
      front[..FirstSpace(front).value][m] in front[..FirstSpace(front).value];
  }

  /** A line that ends no sample. */
  predicate FrameOk(line: string) {
    line != "" && !EndsSample(line) && Frame(line).Ok?
  }

  /** The stack of a block of frame lines: the last line is the root, the first the leaf. */
  ghost predicate StackOf(block: seq<string>, stack: Stack) {
    |stack| == |block| && forall i | 0 <= i < |block| :: Frame(block[i]) == Ok(stack[|block| - 1 - i])
  }

  lemma {:induction false} BlockRead(block: seq<string>, rest: seq<string>, frames: Stack) returns (more: Stack)
    requires forall line <- block :: FrameOk(line)
    ensures |more| == |block| && forall i | 0 <= i < |block| :: Frame(block[i]) == Ok(more[i])
    ensures Samples(block + rest, frames) == Samples(rest, frames + more)
    decreases |block|
  {
    hide Frame, FrameOk, Samples;
    if block == [] {
      more := [];
      assert block + rest == rest && frames + [] == frames;
    } else {
      var line, others := block[0], block[1..];
      assert line in block && block + rest == [line] + (others + rest);
      forall l <- others
        ensures l in block
      {
      }
      var symbol := LineRead(line, others + rest, frames);
      var later := BlockRead(others, rest, frames + [symbol]);
      more := [symbol] + later;
      assert frames + [symbol] + later == frames + more;
    }
  }

  lemma LineRead(line: string, rest: seq<string>, frames: Stack) returns (symbol: string)
    requires FrameOk(line)
    ensures Frame(line) == Ok(symbol) && Samples([line] + rest, frames) == Samples(rest, frames + [symbol])
  {
    hide Frame, EndsSample;
    symbol := Frame(line).value;
    assert ([line] + rest)[1..] == rest;
  }

  lemma SampleEnds(rest: seq<string>, frames: Stack)
    requires frames != [] && (rest == [] || rest[0] == "" || EndsSample(rest[0]))
    ensures Samples(rest, frames) == After([Reversed(frames)], Samples(rest, []))
  {
    hide Frame, EndsSample, Reversed;
    var stack := Reversed(frames);
    assert Finished([]) == [] && Finished(frames) == [stack] && [stack] + [] == [stack];
    if rest != [] {
      var more := Samples(rest[1..], []);
      if more.Ok? {
        assert [] + more.value == more.value;
      }
    }
  }

  /** A sample is its block of frame lines: its stack is written leaf last, and the
      samples behind it follow.  Lines that are blank or not indented only separate. */
  lemma SampleRead(block: seq<string>, rest: seq<string>) returns (stack: Stack)
    requires block != [] && (forall line <- block :: FrameOk(line)) && (rest == [] || rest[0] == "" || EndsSample(rest[0]))
    ensures StackOf(block, stack)
    ensures Samples(block + rest, []) == After([stack], Samples(rest, []))
  {
    hide Frame, EndsSample, FrameOk, Samples, After;
    var frames := BlockRead(block, rest, []);
    assert [] + frames == frames;
    stack := Reversed(frames);
    SampleEnds(rest, frames);
  }

  lemma Separator(line: string, rest: seq<string>)
    requires line == "" || EndsSample(line)
    ensures Samples([line] + rest, []) == Samples(rest, [])
  {
    assert ([line] + rest)[1..] == rest;
    if Samples(rest, []).Ok? {
      assert [] + Samples(rest, []).value == Samples(rest, []).value;
    }
  }
}
