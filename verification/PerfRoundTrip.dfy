/**
 Writing collapsed stacks to a text and reading the text back: the samples of every
 leaf symbol, and exactly for which scripts none is lost.
 */
module PerfRoundTrip {
  import opened Results
  import opened Decimals
  import opened PerfScript
  import opened PerfCollapsed

  /** The stacks in the order in which they are written, each once. */
  predicate Lists(order: seq<Stack>, stacks: map<Stack, nat>) {
    && (forall i, j | 0 <= i < j < |order| :: order[i] != order[j])
    && (forall s <- order :: s in stacks) && forall s <- stacks :: s in order
  }

  function LineAt(s: Stack, stacks: map<Stack, nat>): string {
    StackLine(s, if s in stacks then stacks[s] else 0)
  }

  function TextOf(order: seq<Stack>, stacks: map<Stack, nat>): string {
    if order == [] then "" else LineAt(order[0], stacks) + ("\n" + TextOf(order[1..], stacks))
  }

  /** output.write_text of the joined lines. */
  method WriteStacks(order: seq<Stack>, stacks: map<Stack, nat>) returns (text: string)
    requires Lists(order, stacks)
    ensures text == TextOf(order, stacks)
  {
    hide LineAt, TextOf;
    text := "";
    assert order[0..] == order && "" + TextOf(order, stacks) == TextOf(order, stacks);
    for i := 0 to |order|
      invariant TextOf(order, stacks) == text + TextOf(order[i..], stacks)
    {
      var line := LineAt(order[i], stacks);
      OneMoreLine(order, stacks, i, text);
      text := text + line + "\n";
    }
    NoMoreLines(order, stacks);
    assert text + "" == text;
  }

  lemma OneMoreLine(order: seq<Stack>, stacks: map<Stack, nat>, i: nat, text: string)
    requires i < |order|
    ensures text + TextOf(order[i..], stacks)
         == (text + LineAt(order[i], stacks) + "\n") + TextOf(order[i + 1..], stacks)
  {
    hide LineAt;
    assert order[i..][0] == order[i] && order[i..][1..] == order[i + 1..];
    var line, rest := LineAt(order[i], stacks), TextOf(order[i + 1..], stacks);
    assert text + (line + ("\n" + rest)) == (text + line + "\n") + rest;
  }

  lemma NoMoreLines(order: seq<Stack>, stacks: map<Stack, nat>)
    ensures TextOf(order[|order|..], stacks) == ""
  {
  }

  /** The length of the next line, its newline included. */
  function LineLength(s: string): (n: nat)
    requires s != ""
    ensures 1 <= n <= |s|
  {
    if s[0] == '\n' || |s| == 1 then 1 else 1 + LineLength(s[1..])
  }

  lemma {:induction false} LineFound(line: string, rest: string)
    requires '\n' !in line
    ensures LineLength(line + ("\n" + rest)) == |line| + 1
  {
    var s := line + ("\n" + rest);
    if line != "" {
      assert line == [line[0]] + line[1..];
      assert s[1..] == line[1..] + ("\n" + rest);
      LineFound(line[1..], rest);
    }
  }

  /** The entries of a text, line by line. */
  function ReadText(text: string): Result<seq<Entry>, string>
    decreases |text|
  {
    if text == "" then Ok([])
    else
      var n := LineLength(text);
      var first :- ReadLine(text[..n]);
      var rest :- ReadText(text[n..]);
      Ok((match first case None => [] case Some(e) => [e]) + rest)
  }

  function LeafTotal(entries: seq<Entry>, leaf: string): nat {
    if entries == [] then 0 else (if entries[0].leaf == leaf then entries[0].count else 0) + LeafTotal(entries[1..], leaf)
  }

  function Total(entries: seq<Entry>): nat {
    if entries == [] then 0 else entries[0].count + Total(entries[1..])
  }

  function Get(counts: map<string, nat>, leaf: string): nat {
    if leaf in counts then counts[leaf] else 0
  }

  datatype Profile = Profile(samples: map<string, nat>, total: nat)

  lemma TextStep(text: string)
    requires text != ""
    ensures var n := LineLength(text);
            && (ReadLine(text[..n]).Err? ==> ReadText(text).Err?)
            && (ReadText(text[n..]).Err? ==> ReadText(text).Err?)
            && (ReadLine(text[..n]).Ok? && ReadText(text[n..]).Ok? ==>
                  ReadText(text) == Ok((match ReadLine(text[..n]).value case None => [] case Some(e) => [e]) + ReadText(text[n..]).value))
  {
    hide ReadLine;
  }

  lemma EntryStep(e: Entry, rest: seq<Entry>)
    ensures Total([e] + rest) == e.count + Total(rest)
    ensures forall leaf: string ::
              LeafTotal([e] + rest, leaf) == (if e.leaf == leaf then e.count else 0) + LeafTotal(rest, leaf)
    ensures [] + rest == rest
  {
    assert ([e] + rest)[1..] == rest;
  }

  /** The loop of the reader, without its limits on line length and frame count. */
  method ReadCollapsed(text: string) returns (r: Result<Profile, string>)
    ensures ReadText(text).Err? <==> r.Err?
    ensures r.Ok? ==>
              && r.value.total == Total(ReadText(text).value)
              && forall leaf: string :: Get(r.value.samples, leaf) == LeafTotal(ReadText(text).value, leaf)
  {
    hide ReadLine, ReadText, LineLength, Total, LeafTotal;
    var counts: map<string, nat> := map[];
    var total: nat := 0;
    var at: nat := 0;
    assert text[0..] == text;
    while at < |text|
      invariant at <= |text| && (ReadText(text).Ok? <==> ReadText(text[at..]).Ok?)
      invariant ReadText(text).Ok? ==>
                  && Total(ReadText(text).value) == total + Total(ReadText(text[at..]).value)
                  && forall leaf: string ::
                       LeafTotal(ReadText(text).value, leaf) == Get(counts, leaf) + LeafTotal(ReadText(text[at..]).value, leaf)
    {
      var rest := text[at..];
      var n := LineLength(rest);
      TextStep(rest);
      assert rest[n..] == text[at + n..];
      var entry := ReadLine(rest[..n]);
      if entry.Err? {
        return Err(entry.error);
      }
      if entry.value.Some? {
        var e := entry.value.value;
        if ReadText(rest[n..]).Ok? {
          EntryStep(e, ReadText(rest[n..]).value);
        }
        total := total + e.count;
        counts := counts[e.leaf := Get(counts, e.leaf) + e.count];
      } else if ReadText(rest[n..]).Ok? {
        EntryStep(Entry("", 0), ReadText(rest[n..]).value);
      }
      at := at + n;
    }
    assert text[at..] == "";
    NothingLeft();
    return Ok(Profile(counts, total));
  }

  lemma NothingLeft()
    ensures ReadText("") == Ok([]) && Total([]) == 0 && forall leaf: string :: LeafTotal([], leaf) == 0
  {
  }

  lemma NewlineIsBlank(s: string)
    ensures ReadLine(s + "\n") == ReadLine(s)
  {
    hide ReadLine;
    assert (s + "\n")[..|s|] == s;
    assert Strip(s + "\n") == Strip(s);
    OnlyStripped(s + "\n", s);
  }

  lemma OnlyStripped(a: string, b: string)
    requires Strip(a) == Strip(b)
    ensures ReadLine(a) == ReadLine(b)
  {
  }

  lemma {:induction false} JoinHasNoNewline(s: Stack)
    requires CleanStack(s)
    ensures '\n' !in JoinFrames(s)
  {
    assert CleanFrame(s[0]);
    if |s| > 1 {
      forall i | 0 <= i < |s[1..]|
        ensures CleanFrame(s[1..][i])
      {
      }
      JoinHasNoNewline(s[1..]);
    }
  }

  lemma LineHasNoNewline(s: Stack, stacks: map<Stack, nat>)
    requires CleanStack(s)
    ensures '\n' !in LineAt(s, stacks)
  {
    JoinHasNoNewline(s);
    var count := if s in stacks then stacks[s] else 0;
    CountVisible(count);
    var d := Digits(count);
    forall c <- d
      ensures c != '\n'
    {
      var i :| 0 <= i < |d| && d[i] == c;
      assert IsDigit(d[i]);
    }
  }

  /** One written line of a text that is read. */
  lemma TextFirst(order: seq<Stack>, stacks: map<Stack, nat>)
    requires order != [] && CleanStack(order[0])
    ensures var text := TextOf(order, stacks);
            && text != "" && text[LineLength(text)..] == TextOf(order[1..], stacks)
            && ReadLine(text[..LineLength(text)]) == ReadLine(LineAt(order[0], stacks))
  {
    hide ReadLine, LineAt;
    var line, rest := LineAt(order[0], stacks), TextOf(order[1..], stacks);
    LineHasNoNewline(order[0], stacks);
    LineFound(line, rest);
    var text := line + ("\n" + rest);
    assert text[..|line| + 1] == line + "\n" && text[|line| + 1..] == rest;
    NewlineIsBlank(line);
  }

  predicate AllSurvive(order: seq<Stack>) {
    forall i | 0 <= i < |order| :: order[i] != [] ==> Survives(order[i])
  }

  predicate AllClean(order: seq<Stack>) {
    forall i | 0 <= i < |order| :: CleanStack(order[i])
  }

  function EntriesOf(order: seq<Stack>, stacks: map<Stack, nat>): seq<Entry>
    requires AllClean(order)
  {
    if order == [] then []
    else [Entry(Leaf(order[0]), if order[0] in stacks then stacks[order[0]] else 0)] + EntriesOf(order[1..], stacks)
  }

  /** When every stack survives, what is read is what was written. */
  lemma {:induction false} ReadsAll(order: seq<Stack>, stacks: map<Stack, nat>)
    requires AllClean(order) && AllSurvive(order)
    ensures ReadText(TextOf(order, stacks)) == Ok(EntriesOf(order, stacks))
  {
    hide ReadLine, LineAt, LineLength;
    if order == [] {
      NothingLeft();
    } else {
      hide CleanStack, TextOf, ReadText, Survives;
      Tails(order);
      ReadsAll(order[1..], stacks);
      TextFirst(order, stacks);
      TextStep(TextOf(order, stacks));
      ReadStack(order[0], if order[0] in stacks then stacks[order[0]] else 0);
      LineIs(order[0], stacks);
    }
  }

  lemma LineIs(s: Stack, stacks: map<Stack, nat>)
    ensures LineAt(s, stacks) == StackLine(s, if s in stacks then stacks[s] else 0)
  {
  }

  lemma Tails(order: seq<Stack>)
    requires order != [] && AllClean(order)
    ensures AllClean(order[1..]) && CleanStack(order[0]) && order[0] != []
    ensures AllSurvive(order) ==> AllSurvive(order[1..]) && Survives(order[0])
  {
    hide CleanFrame, Survives;
    assert CleanStack(order[0]);
  }

  /** The samples whose stack has a given leaf. */
  function LeafCount(samples: seq<Stack>, leaf: string): nat {
    if samples == [] then 0
    else
      var s := samples[|samples| - 1];
      LeafCount(samples[..|samples| - 1], leaf) + if s != [] && Leaf(s) == leaf then 1 else 0
  }

  /** Counts over a list of stacks, of a multiset of samples. */
  function Summed(order: seq<Stack>, m: multiset<Stack>, leaf: string): nat {
    if order == [] then 0
    else (if order[0] != [] && Leaf(order[0]) == leaf then m[order[0]] else 0) + Summed(order[1..], m, leaf)
  }

  function SummedAll(order: seq<Stack>, m: multiset<Stack>): nat {
    if order == [] then 0 else m[order[0]] + SummedAll(order[1..], m)
  }

  lemma {:induction false} OneSample(order: seq<Stack>, m: multiset<Stack>, s: Stack, leaf: string)
    requires forall i, j | 0 <= i < j < |order| :: order[i] != order[j]
    ensures Summed(order, m + multiset{s}, leaf)
         == Summed(order, m, leaf) + if s in order && s != [] && Leaf(s) == leaf then 1 else 0
    ensures SummedAll(order, m + multiset{s}) == SummedAll(order, m) + if s in order then 1 else 0
  {
    if order != [] {
      assert order == [order[0]] + order[1..];
      OneSample(order[1..], m, s, leaf);
      if order[0] == s {
        assert s !in order[1..];
      }
    }
  }

  lemma {:induction false} NoSamples(order: seq<Stack>, leaf: string)
    ensures Summed(order, multiset{}, leaf) == 0 && SummedAll(order, multiset{}) == 0
  {
    if order != [] {
      NoSamples(order[1..], leaf);
    }
  }

  /** Adding up the counts by stack gives the samples by leaf. */
  lemma {:induction false} CountsAddUp(order: seq<Stack>, samples: seq<Stack>, leaf: string)
    requires (forall i, j | 0 <= i < j < |order| :: order[i] != order[j]) && forall s <- samples :: s in order
    ensures Summed(order, multiset(samples), leaf) == LeafCount(samples, leaf)
    ensures SummedAll(order, multiset(samples)) == |samples|
    decreases |samples|
  {
    if samples == [] {
      NoSamples(order, leaf);
    } else {
      var k := |samples| - 1;
      assert samples == samples[..k] + [samples[k]];
      CountsAddUp(order, samples[..k], leaf);
      OneSample(order, multiset(samples[..k]), samples[k], leaf);
    }
  }

  lemma {:induction false} EntriesSum(order: seq<Stack>, stacks: map<Stack, nat>, m: multiset<Stack>, leaf: string)
    requires AllClean(order) && forall s <- order :: s in stacks && stacks[s] == m[s]
    ensures LeafTotal(EntriesOf(order, stacks), leaf) == Summed(order, m, leaf)
    ensures Total(EntriesOf(order, stacks)) == SummedAll(order, m)
  {
    hide CleanStack;
    if order != [] {
      Tails(order);
      assert order[0] in order;
      EntriesSum(order[1..], stacks, m, leaf);
      EntryStep(Entry(Leaf(order[0]), stacks[order[0]]), EntriesOf(order[1..], stacks));
    }
  }

  /** A sample that loses its name: one frame, with a leading blank. */
  predicate Loses(samples: seq<Stack>) {
    exists i | 0 <= i < |samples| :: samples[i] != [] && !Survives(samples[i])
  }

  lemma OrderIsClean(samples: seq<Stack>, stacks: map<Stack, nat>, order: seq<Stack>)
    requires CountsOf(stacks, samples) && Lists(order, stacks) && forall s <- samples :: CleanStack(s)
    ensures AllClean(order) && (forall s <- order :: stacks[s] == multiset(samples)[s]) && forall s <- samples :: s in order
    ensures Loses(samples) <==> !AllSurvive(order)
  {
    hide CleanStack, Survives;
    forall i | 0 <= i < |order|
      ensures CleanStack(order[i]) && order[i] in samples
    {
      assert order[i] in order && order[i] in stacks;
    }
    if Loses(samples) {
      var i :| 0 <= i < |samples| && samples[i] != [] && !Survives(samples[i]);
      assert samples[i] in samples;
      var j :| 0 <= j < |order| && order[j] == samples[i];
    }
    if !AllSurvive(order) {
      var j :| 0 <= j < |order| && order[j] != [] && !Survives(order[j]);
      var i :| 0 <= i < |samples| && samples[i] == order[j];
    }
  }

  /** The profile that is read back is that of the samples. */
  ghost predicate Faithful(r: Result<Profile, string>, samples: seq<Stack>) {
    r.Ok? && r.value.total == |samples| && forall leaf: string :: Get(r.value.samples, leaf) == LeafCount(samples, leaf)
  }

  /** A line of a stack read under a blank-leading name: never a lost one's. */
  lemma OneLost(s: Stack, stacks: map<Stack, nat>, m: multiset<Stack>, leaf: string)
    requires CleanStack(s) && s in stacks && stacks[s] == m[s] && leaf != "" && IsSpace(leaf[0])
    requires ReadLine(LineAt(s, stacks)).Ok?
    ensures var r := ReadLine(LineAt(s, stacks)).value;
            && r.Some?
            && (if r.value.leaf == leaf then r.value.count else 0) + (if s == [leaf] then m[s] else 0)
               <= (if Leaf(s) == leaf then m[s] else 0)
  {
    hide ReadLine, CleanFrame;
    LineIs(s, stacks);
    ReadStack(s, stacks[s]);
  }

  /** What is read under a blank-leading name misses its one-frame samples. */
  lemma {:induction false} LostCount(order: seq<Stack>, stacks: map<Stack, nat>, m: multiset<Stack>, leaf: string)
    requires AllClean(order) && (forall s <- order :: s in stacks && stacks[s] == m[s])
    requires leaf != "" && IsSpace(leaf[0]) && ReadText(TextOf(order, stacks)).Ok?
    ensures LeafTotal(ReadText(TextOf(order, stacks)).value, leaf) + (if [leaf] in order then m[[leaf]] else 0)
         <= Summed(order, m, leaf)
  {
    hide CleanStack, ReadLine, LineAt;
    if order == [] {
      NothingLeft();
    } else {
      hide TextOf, ReadText;
      Tails(order);
      assert order[0] in order && order == [order[0]] + order[1..];
      TextFirst(order, stacks);
      TextStep(TextOf(order, stacks));
      LostCount(order[1..], stacks, m, leaf);
      OneLost(order[0], stacks, m, leaf);
      var e := ReadLine(LineAt(order[0], stacks)).value.value;
      EntryStep(e, ReadText(TextOf(order[1..], stacks)).value);
    }
  }

  /** The theorem of the round trip: a profile is read back faithfully exactly when no
      sample is a single frame whose symbol starts with a blank. */
  method RoundTrip(ghost samples: seq<Stack>, stacks: map<Stack, nat>, order: seq<Stack>) returns (r: Result<Profile, string>)
    requires CountsOf(stacks, samples) && Lists(order, stacks) && forall s <- samples :: CleanStack(s)
    ensures Faithful(r, samples) <==> !Loses(samples)
  {
    hide CleanStack, Survives, TextOf, ReadText, CountsOf;
    var text := WriteStacks(order, stacks);
    r := ReadCollapsed(text);
    OrderIsClean(samples, stacks, order);
    if !Loses(samples) {
      ReadsAll(order, stacks);
      forall leaf: string
        ensures Get(r.value.samples, leaf) == LeafCount(samples, leaf)
      {
        EntriesSum(order, stacks, multiset(samples), leaf);
        CountsAddUp(order, samples, leaf);
      }
      EntriesSum(order, stacks, multiset(samples), "");
      CountsAddUp(order, samples, "");
    } else if r.Ok? {
      var i :| 0 <= i < |samples| && samples[i] != [] && !Survives(samples[i]);
      var leaf := LostLeaf(samples[i]);
      assert samples[i] in samples;
      LostCount(order, stacks, multiset(samples), leaf);
      CountsAddUp(order, samples, leaf);
      assert Get(r.value.samples, leaf) < LeafCount(samples, leaf);
    }
  }

  lemma LostLeaf(s: Stack) returns (leaf: string)
    requires s != [] && !Survives(s)
    ensures s == [leaf] && leaf != "" && IsSpace(leaf[0])
  {
    leaf := s[0];
  }

  /** From the lines of a script to the profile read back from its collapsed text. */
  method ScriptRoundTrip(lines: seq<string>, order: map<Stack, nat> -> seq<Stack>) returns (r: Result<Profile, string>)
    requires forall l <- lines :: '\n' !in l
    requires forall stacks: map<Stack, nat> :: Lists(order(stacks), stacks)
    ensures Samples(lines, []).Ok? && Samples(lines, []).value != [] ==>
              (Faithful(r, Samples(lines, []).value) <==> !Loses(Samples(lines, []).value))
    ensures Samples(lines, []).Err? ==> r.Err?
  {
    var stacks := CollapseScript(lines);
    if stacks.Err? {
      return Err(stacks.error);
    }
    SamplesAreClean(lines, []);
    r := RoundTrip(Samples(lines, []).value, stacks.value, order(stacks.value));
  }

  /** A line of a script that makes such a sample: two blanks behind the address. */
  lemma BlankSymbol()
    ensures Samples(["\t0  f (d)"], []) == Ok([[" f"]]) && Loses([[" f"]])
  {
    var line := "\t0  f (d)";
    BlankFrame();
    StrippedLine();
    var rest: seq<string> := [];
    hide Frame, Strip;
    assert IsSpace(line[0]) && !EndsSample(line);
    assert [line][1..] == rest && rest + [" f"] == [" f"];
    assert Reversed([" f"]) == [" f"];
    assert Samples(rest, [" f"]) == Ok([[" f"]]);
    assert Samples([line], []) == Samples(rest, [" f"]);
    LeadingBlank([" f"]);
  }

  lemma LeadingBlank(s: Stack)
    requires |s| == 1 && s[0] == " f"
    ensures Loses([s])
  {
    assert [s][0] == s && !Survives(s);
  }

  lemma BlankFrame()
    ensures Frame("\t0  f (d)") == Ok(" f")
  {
    hide Strip, LastPlace, FirstSpace, IsAddress, DropOffset;
    var text := "0  f (d)";
    StrippedLine();
    LastParenthesis();
    assert text[..4] == "0  f" && text[6..] == "d)";
    FrontOfLine();
    assert "0  f"[..1] == "0" && "0  f"[2..] == " f";
    assert NoSemicolons(" f") == " f";
  }

  lemma FrontOfLine()
    ensures FirstSpace("0  f") == Some(1) && IsAddress("0") && DropOffset(" f") == " f"
  {
    assert "0  f"[1..][0] == ' ';
    assert IsHex('0');
    assert " f"[1..] == "f" && "f"[1..] == "";
    assert DropOffset("f") == "f";
  }

  lemma StrippedLine()
    ensures Strip("\t0  f (d)") == "0  f (d)"
  {
    var line := "\t0  f (d)";
    assert !IsSpace(line[|line| - 1]);
    assert StripRight(line) == line;
    assert line[1..] == "0  f (d)";
  }

  lemma LastParenthesis()
    ensures LastPlace("0  f (d)", " (") == Some(4)
  {
    var text := "0  f (d)";
    assert text[6..] == "d)" && text[6..][0] == 'd';
    assert text[..7][5..] == "(d" && text[..7][5..][0] == '(';
    assert text[..7][..6][4..] == " (";
    assert LastPlace(text[..7][..6], " (") == Some(4);
    assert LastPlace(text[..7], " (") == Some(4);
  }
}
