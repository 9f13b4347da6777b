/**
 Perf call stacks: the writer that collapses a perf script to one line a stack, and
 the strings it makes them of.
 */
module PerfScript {
  import opened Results
  import JsoncScanner

  predicate IsSpace(c: char) { JsoncScanner.IsSpace(c) }

  function StripLeft(s: string): (r: string)
    ensures r != "" ==> !IsSpace(r[0])
    ensures |r| <= |s|
  {
    if s != "" && IsSpace(s[0]) then StripLeft(s[1..]) else s
  }

  function StripRight(s: string): (r: string)
    ensures |r| <= |s|
  {
    if s != "" && IsSpace(s[|s| - 1]) then StripRight(s[..|s| - 1]) else s
  }

  /** str.strip. */
  function Strip(s: string): string { StripLeft(StripRight(s)) }

  predicate IsHex(c: char) { '0' <= c <= '9' || 'a' <= c <= 'f' || 'A' <= c <= 'F' }

  predicate AllHex(s: string) {
    s != "" && forall i | 0 <= i < |s| :: IsHex(s[i])
  }

  predicate IsAddress(s: string) {
    AllHex(s) || (|s| > 2 && s[..2] == "0x" && AllHex(s[2..]))
  }

  function HexRun(s: string): (n: nat)
    ensures n <= |s|
  {
    if s == "" || !IsHex(s[0]) then 0 else 1 + HexRun(s[1..])
  }

  /** "+0x…" or "+0x…/0x…", to the end. */
  predicate IsOffset(s: string) {
    && |s| > 3 && s[..3] == "+0x"
    && var n := HexRun(s[3..]);
       && n > 0
       && var rest := s[3 + n..];
          rest == "" || (|rest| > 3 && rest[..3] == "/0x" && AllHex(rest[3..]))
  }

  /** A symbol without the offset behind it. */
  function DropOffset(s: string): string {
    if s == "" || IsOffset(s) then "" else [s[0]] + DropOffset(s[1..])
  }

  /** The last place where a text occurs in another. */
  function LastPlace(s: string, t: string): (r: Option<nat>)
    ensures r.Some? ==> r.value + |t| <= |s|
    decreases |s|
  {
    if |s| < |t| then None
    else if s[|s| - |t|..] == t then Some(|s| - |t|)
    else if s == "" then None
    else LastPlace(s[..|s| - 1], t)
  }

  function FirstSpace(s: string): (r: Option<nat>)
    ensures r.Some? ==> r.value < |s|
  {
    if s == "" then None
    else if s[0] == ' ' then Some(0)
    else match FirstSpace(s[1..])
         case None => None
         case Some(i) => Some(i + 1)
  }

  /** Semicolons separate frames, so a symbol may not hold one. */
  function NoSemicolons(s: string): (r: string)
    ensures |r| == |s| && forall i | 0 <= i < |r| :: r[i] == if s[i] == ';' then ':' else s[i]
  {
    seq(|s|, i requires 0 <= i < |s| => if s[i] == ';' then ':' else s[i])
  }

  /** The symbol of an indented line of a perf script. */
  function Frame(line: string): Result<string, string> {
    var text := Strip(line);
    match LastPlace(text, " (")
    case None => Err("unsupported callchain frame")
    case Some(i) =>
      var front, dso := text[..i], text[i + 2..];
      match FirstSpace(front)
      case None => Err("unsupported callchain frame")
      case Some(j) =>
        if dso == "" || dso[|dso| - 1] != ')' || !IsAddress(front[..j]) then Err("unsupported callchain frame")
        else
          var symbol := DropOffset(front[j + 1..]);
          Ok(NoSemicolons(if symbol == "" then "[unknown]" else symbol))
  }

  type Stack = seq<string>

  function Reversed(frames: Stack): (r: Stack)
    ensures |r| == |frames| && forall i | 0 <= i < |r| :: r[i] == frames[|frames| - 1 - i]
  {
    seq(|frames|, i requires 0 <= i < |frames| => frames[|frames| - 1 - i])
  }

  function Finished(frames: Stack): seq<Stack> {
    if frames == [] then [] else [Reversed(frames)]
  }

  /** A blank line or an event header ends a sample. */
  predicate EndsSample(line: string) {
    Strip(line) == "" || !IsSpace(line[0])
  }

  /** The non-empty stacks of a script, root first, in the order of the samples; frames
      are those of the sample being read, leaf first. */
  function Samples(lines: seq<string>, frames: Stack): Result<seq<Stack>, string> {
    if lines == [] then Ok(Finished(frames))
    else if lines[0] == "" || EndsSample(lines[0]) then
      var rest :- Samples(lines[1..], []);
      Ok(Finished(frames) + rest)
    else
      var symbol :- Frame(lines[0]);
      Samples(lines[1..], frames + [symbol])
  }

  /** A frame the writer makes: not empty, no semicolon, no newline. */
  predicate CleanFrame(f: string) {
    f != "" && ';' !in f && '\n' !in f
  }

  predicate CleanStack(s: Stack) {
    s != [] && forall i | 0 <= i < |s| :: CleanFrame(s[i])
  }

  lemma {:induction false} DropOffsetPart(s: string)
    requires '\n' !in s
    ensures '\n' !in DropOffset(s)
  {
    if s != "" && !IsOffset(s) {
      assert s == [s[0]] + s[1..];
      DropOffsetPart(s[1..]);
    }
  }

  lemma {:induction false} StripPart(s: string)
    requires '\n' !in s
    ensures '\n' !in StripRight(s) && '\n' !in StripLeft(s)
    decreases |s|
  {
    if s != "" {
      assert s == s[..|s| - 1] + [s[|s| - 1]] && s == [s[0]] + s[1..];
      StripPart(s[..|s| - 1]);
      StripPart(s[1..]);
    }
  }

  lemma FrameIsClean(line: string)
    requires '\n' !in line && Frame(line).Ok?
    ensures CleanFrame(Frame(line).value)
  {
    hide StripRight, StripLeft, IsAddress, DropOffset, LastPlace, FirstSpace, CleanFrame;
    StripPart(line);
    StripPart(StripRight(line));
    var text := Strip(line);
    var i := LastPlace(text, " (").value;
    var front := text[..i];
    var j := FirstSpace(front).value;
    assert text == front + text[i..] && front == front[..j + 1] + front[j + 1..];
    DropOffsetPart(front[j + 1..]);
    var symbol := DropOffset(front[j + 1..]);
    var chosen := if symbol == "" then "[unknown]" else symbol;
    CleanOnce(chosen);
  }

  lemma CleanOnce(symbol: string)
    requires symbol != "" && '\n' !in symbol
    ensures CleanFrame(NoSemicolons(symbol))
  {
    forall k | 0 <= k < |symbol|
      ensures NoSemicolons(symbol)[k] != ';' && NoSemicolons(symbol)[k] != '\n'
    {
      assert symbol[k] in symbol;
    }
  }

  /** Every stack of an accepted script can be written. */
  lemma {:induction false} SamplesAreClean(lines: seq<string>, frames: Stack)
    requires (forall l <- lines :: '\n' !in l) && (forall i | 0 <= i < |frames| :: CleanFrame(frames[i]))
    requires Samples(lines, frames).Ok?
    ensures forall s <- Samples(lines, frames).value :: CleanStack(s)
    decreases |lines|
  {
    hide Frame, CleanFrame, EndsSample;
    if lines != [] {
      assert lines[0] in lines;
      if lines[0] == "" || EndsSample(lines[0]) {
        SamplesAreClean(lines[1..], []);
      } else {
        FrameIsClean(lines[0]);
        SamplesAreClean(lines[1..], frames + [Frame(lines[0]).value]);
      }
    }
  }

  /** The counts of a list of stacks. */
  predicate CountsOf(stacks: map<Stack, nat>, samples: seq<Stack>) {
    && (forall s <- stacks :: s in samples) && (forall s <- samples :: s in stacks)
    && forall s <- stacks :: stacks[s] == multiset(samples)[s]
  }

  lemma CountOneMore(stacks: map<Stack, nat>, samples: seq<Stack>, s: Stack)
    requires CountsOf(stacks, samples)
    ensures CountsOf(stacks[s := (if s in stacks then stacks[s] else 0) + 1], samples + [s])
  {
    assert multiset(samples + [s]) == multiset(samples) + multiset{s};
    if s !in stacks {
      assert s !in multiset(samples);
    }
  }

  /** The loop over the lines of a script, with its finish step. */
  method CollapseScript(lines: seq<string>) returns (r: Result<map<Stack, nat>, string>)
    ensures Samples(lines, []).Err? ==> r.Err?
    ensures Samples(lines, []).Ok? && Samples(lines, []).value == [] ==> r.Err?
    ensures Samples(lines, []).Ok? && Samples(lines, []).value != [] ==> r.Ok? && CountsOf(r.value, Samples(lines, []).value)
  {
    hide Frame, EndsSample, CountsOf;
    var stacks: map<Stack, nat> := map[];
    var frames: Stack := [];
    ghost var done: seq<Stack> := [];
    ghost var goal := Samples(lines, []);
    NoCounts();
    assert lines[0..] == lines;
    Behind([], goal);
    for i := 0 to |lines|
      invariant CountsOf(stacks, done) && goal == After(done, Samples(lines[i..], frames))
    {
      var line := lines[i];
      assert lines[i..][0] == line && lines[i..][1..] == lines[i + 1..];
      if line == "" || EndsSample(line) {
        Moved(done, frames, Samples(lines[i + 1..], []));
        if frames != [] {
          CountOneMore(stacks, done, Reversed(frames));
          var stack := Reversed(frames);
          stacks := stacks[stack := (if stack in stacks then stacks[stack] else 0) + 1];
          done := done + [stack];
          frames := [];
        }
      } else {
        var symbol := Frame(line);
        if symbol.Err? {
          return Err(symbol.error);
        }
        frames := frames + [symbol.value];
      }
    }
    assert lines[|lines|..] == [];
    Moved(done, frames, Ok([]));
    if frames != [] {
      CountOneMore(stacks, done, Reversed(frames));
      var stack := Reversed(frames);
      stacks := stacks[stack := (if stack in stacks then stacks[stack] else 0) + 1];
      done := done + [stack];
    }
    assert done + [] == done;
    Emptiness(stacks, done);
    if stacks == map[] {
      return Err("perf script returned no stack samples");
    }
    return Ok(stacks);
  }

  /** Stacks found earlier in front of those still to be found. */
  function After(done: seq<Stack>, rest: Result<seq<Stack>, string>): Result<seq<Stack>, string> {
    match rest
    case Err(e) => Err(e)
    case Ok(more) => Ok(done + more)
  }

  lemma Behind(done: seq<Stack>, rest: Result<seq<Stack>, string>)
    requires done == []
    ensures After(done, rest) == rest
  {
    if rest.Ok? {
      assert done + rest.value == rest.value;
    }
  }

  lemma Moved(done: seq<Stack>, frames: Stack, rest: Result<seq<Stack>, string>)
    ensures rest.Ok? ==> After(done, Ok(Finished(frames) + rest.value)) == After(done + Finished(frames), rest)
    ensures frames == [] ==> done + Finished(frames) == done
    ensures Finished(frames) + [] == Finished(frames)
  {
    if rest.Ok? {
      assert done + (Finished(frames) + rest.value) == (done + Finished(frames)) + rest.value;
    }
  }

  lemma NoCounts()
    ensures CountsOf(map[], [])
  {
  }

  lemma Emptiness(stacks: map<Stack, nat>, samples: seq<Stack>)
    requires CountsOf(stacks, samples)
    ensures stacks == map[] <==> samples == []
  {
    if samples != [] {
      assert samples[0] in samples;
    }
  }
}
