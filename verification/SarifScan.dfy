/**
 What a located stream says of a SARIF report, told without a buffer: the results that
 ended, each with the name its run had by then, and the first name of every run.
 */
module SarifScan {
  import opened Results
  import opened JsonTree
  import opened JsonEvents
  import opened Sarif

  predicate IsArrayEdge(e: Event) { e.StartArray? || e.EndArray? }

  predicate IsObjectEdge(e: Event) { e.StartMap? || e.EndMap? || e.MapKey? }

  /** Events that make the reader stop: runs and results must be arrays of objects. */
  predicate Misplaced(location: Location, e: Event) {
    || ((location == [Some("runs")] || location == [Some("runs"), None, Some("results")]) && !IsArrayEdge(e))
    || ((location == RunPath() || location == ResultPath()) && !IsObjectEdge(e))
  }

  predicate AllPlaced(ls: seq<Located>) {
    forall l <- ls :: !Misplaced(l.location, l.event)
  }

  /** The events in front of the first misplaced one. */
  function Sound(ls: seq<Located>): seq<Located> {
    if ls == [] || Misplaced(ls[0].location, ls[0].event) then [] else [ls[0]] + Sound(ls[1..])
  }

  lemma {:induction false} SoundIs(read: seq<Located>, ls: seq<Located>)
    requires read <= ls && AllPlaced(read)
    requires read == ls || Misplaced(ls[|read|].location, ls[|read|].event)
    ensures Sound(ls) == read && (AllPlaced(ls) <==> read == ls)
    decreases |read|
  {
    hide Misplaced;
    if read != [] {
      assert read[0] in read;
      assert ls == [ls[0]] + ls[1..] && read[1..] <= ls[1..];
      forall l <- read[1..]
        ensures l in read
      {
      }
      if read != ls {
        assert ls[1..][|read| - 1] == ls[|read|];
      }
      SoundIs(read[1..], ls[1..]);
      if read != ls {
        assert ls[|read|] in ls;
      }
    } else if ls != [] {
      assert ls[0] in ls;
    }
  }

  /** A result that ended, and the name its run had at that moment. */
  datatype Ended = Ended(raw: Raw, name: Option<string>)

  /** runs counts the runs that started; the results of the last one stand behind mark,
      current is its name; tools holds the last names of the runs that ended. */
  datatype Scan = Scan(
    runs: nat, mark: nat, current: Option<string>, first: map<int, string>, ended: seq<Ended>, open: Option<Raw>,
    tools: seq<string>)

  const NOTHING_SCANNED := Scan(0, 0, None, map[], [], None, [])

  function ReadInto(scan: Scan, l: Located): Scan {
    match scan.open
    case None => scan
    case Some(raw) => scan.(open := Some(raw.(seen := raw.seen + [l])))
  }

  /** A text that is not empty names a tool, cut off at the bound. */
  function ToolName(e: Event): Option<string> {
    match e
    case ScalarEvent(Text(text)) =>
      if text == "" then None else if |text| <= MAX_ANALYZER_FIELD then Some(text) else Some(text[..MAX_ANALYZER_FIELD])
    case _ => None
  }

  function NameRun(scan: Scan, e: Event): Scan {
    match ToolName(e)
    case None => scan
    case Some(name) =>
      scan.(current := Some(name),
            first := if scan.runs - 1 in scan.first then scan.first else scan.first[scan.runs - 1 := name])
  }

  function EnterRun(scan: Scan): Scan {
    scan.(runs := scan.runs + 1, mark := |scan.ended|, current := None)
  }

  function LeaveRun(scan: Scan): Scan {
    match scan.current
    case None => scan
    case Some(name) => scan.(tools := scan.tools + [name], current := None)
  }

  function EnterResult(scan: Scan): Scan {
    scan.(open := Some(Raw(Natural(scan.runs - 1), Natural(|scan.ended| - scan.mark), [])))
  }

  function Natural(n: int): nat { if n < 0 then 0 else n }

  function LeaveResult(scan: Scan): Scan {
    match scan.open
    case None => scan
    case Some(raw) => scan.(ended := scan.ended + [Ended(raw, scan.current)], open := None)
  }

  /** Places whose events never belong to a result. */
  predicate Elsewhere(l: Located) {
    || (l.location == [] && (l.event.StartMap? || l.event.EndMap?)) || l.location == At("version")
    || l.location == [Some("runs"), None, Some("tool"), Some("driver"), Some("version")]
    || l.location == [Some("runs"), None, Some("invocations"), None, Some("exitCode")]
  }

  function ScanStep(scan: Scan, l: Located): Scan {
    if l.location == RunPath() && l.event.StartMap? then EnterRun(scan)
    else if l.location == RunPath() && l.event.EndMap? then LeaveRun(scan)
    else if l.location == [Some("runs"), None, Some("tool"), Some("driver"), Some("name")] then NameRun(scan, l.event)
    else if l.location == ResultPath() && l.event.StartMap? then EnterResult(scan)
    else if l.location == ResultPath() && l.event.EndMap? then LeaveResult(ReadInto(scan, l))
    else if Elsewhere(l) then scan
    else ReadInto(scan, l)
  }

  function Scanned(ls: seq<Located>): Scan {
    if ls == [] then NOTHING_SCANNED else ScanStep(Scanned(ls[..|ls| - 1]), ls[|ls| - 1])
  }

  lemma ScannedMore(ls: seq<Located>, l: Located)
    ensures Scanned(ls + [l]) == ScanStep(Scanned(ls), l)
  {
    assert (ls + [l])[..|ls|] == ls;
  }

  /** One result: judged under the name its run had; a result that ended before its run
      had one is judged under the first name, if it is among the first ones. */
  function One(e: Ended, first: map<int, string>): seq<Judged> {
    match e.name
    case Some(name) => [Judged(e.raw, name)]
    case None =>
      if e.raw.run in first && e.raw.index < MAX_DEFERRED then [Judged(e.raw, first[e.raw.run])] else []
  }

  /** What is to be judged, and under which name, in document order. */
  function Expected(ended: seq<Ended>, first: map<int, string>): seq<Judged> {
    if ended == [] then []
    else Expected(ended[..|ended| - 1], first) + One(ended[|ended| - 1], first)
  }

  /** The results of runs that never got a name. */
  function Nameless(ended: seq<Ended>, first: map<int, string>): nat {
    if ended == [] then 0
    else
      var last := ended[|ended| - 1];
      Nameless(ended[..|ended| - 1], first) + if last.name.None? && last.raw.run !in first then 1 else 0
  }

  /** The results over the deferral bound of runs that got their name too late. */
  function Deferred(ended: seq<Ended>, first: map<int, string>): nat {
    if ended == [] then 0
    else
      var last := ended[|ended| - 1];
      Deferred(ended[..|ended| - 1], first)
      + if last.name.None? && last.raw.run in first && last.raw.index >= MAX_DEFERRED then 1 else 0
  }

  lemma Longer(ended: seq<Ended>, e: Ended, first: map<int, string>)
    ensures Expected(ended + [e], first) == Expected(ended, first) + One(e, first)
    ensures Nameless(ended + [e], first) == Nameless(ended, first) + if e.name.None? && e.raw.run !in first then 1 else 0
    ensures Deferred(ended + [e], first)
         == Deferred(ended, first) + if e.name.None? && e.raw.run in first && e.raw.index >= MAX_DEFERRED then 1 else 0
  {
    assert (ended + [e])[..|ended|] == ended;
  }

  /** Every result that ended is judged, nameless or deferred. */
  lemma {:induction false} Divided(ended: seq<Ended>, first: map<int, string>)
    ensures |Expected(ended, first)| + Nameless(ended, first) + Deferred(ended, first) == |ended|
  {
    if ended != [] {
      Divided(ended[..|ended| - 1], first);
    }
  }

  predicate Ordered(ended: seq<Ended>) {
    forall i, j | 0 <= i < j < |ended| :: Before(ended[i].raw, ended[j].raw)
  }

  /** What is judged stands in document order. */
  lemma {:induction false} ExpectedAscends(ended: seq<Ended>, first: map<int, string>)
    requires Ordered(ended)
    ensures Ascending(Raws(Expected(ended, first)))
    ensures forall j <- Expected(ended, first) :: exists e <- ended :: e.raw == j.raw
  {
    if ended != [] {
      var k := |ended| - 1;
      var front, last := ended[..k], ended[k];
      ExpectedAscends(front, first);
      var js := Expected(front, first);
      forall j <- js
        ensures Before(j.raw, last.raw) && exists e <- ended :: e.raw == j.raw
      {
        var e :| e in front && e.raw == j.raw;
        var i :| 0 <= i < k && front[i] == e;
        assert ended[i] == e && ended[k] == last;
      }
      assert last in ended;
      RawsAscend(js, One(last, first), last.raw);
    }
  }

  lemma RawsAscend(js: seq<Judged>, more: seq<Judged>, raw: Raw)
    requires Ascending(Raws(js)) && |more| <= 1 && forall j <- more :: j.raw == raw
    requires forall j <- js :: Before(j.raw, raw)
    ensures Ascending(Raws(js + more))
  {
    forall i | 0 <= i < |js|
      ensures js[i] in js
    {
    }
    forall j | 0 <= j < |more|
      ensures more[j] in more
    {
    }
  }

  /** Another run's name changes nothing. */
  lemma {:induction false} OtherRun(ended: seq<Ended>, first: map<int, string>, r: int, name: string)
    requires forall e <- ended :: e.raw.run != r
    ensures Expected(ended, first[r := name]) == Expected(ended, first)
    ensures Nameless(ended, first[r := name]) == Nameless(ended, first)
    ensures Deferred(ended, first[r := name]) == Deferred(ended, first)
  {
    if ended != [] {
      var k := |ended| - 1;
      assert ended[k] in ended;
      forall e <- ended[..k]
        ensures e in ended
      {
      }
      OtherRun(ended[..k], first, r, name);
    }
  }

  /** The results behind a mark, up to the deferral bound. */
  function Early(ended: seq<Ended>, mark: nat): (r: seq<Raw>)
    requires mark <= |ended|
    ensures |r| == Min(|ended| - mark, MAX_DEFERRED)
    ensures forall i | 0 <= i < |r| :: r[i] == ended[mark + i].raw
  {
    seq(Min(|ended| - mark, MAX_DEFERRED), i requires 0 <= i < |ended| - mark => ended[mark + i].raw)
  }

  /** The results behind a mark are those of one run, none named so far. */
  predicate Unnamed(ended: seq<Ended>, mark: nat, r: int) {
    && mark <= |ended|
    && (forall i | 0 <= i < mark :: ended[i].raw.run != r)
    && (forall i | mark <= i < |ended| :: ended[i].raw.run == r && ended[i].raw.index == i - mark && ended[i].name == None)
  }

  /** The first name of a run settles the results it has had so far. */
  lemma {:induction false} Settled(ended: seq<Ended>, mark: nat, first: map<int, string>, r: int, name: string)
    requires Unnamed(ended, mark, r) && r !in first
    ensures Expected(ended, first[r := name]) == Expected(ended, first) + JudgedAll(Early(ended, mark), name)
    ensures Nameless(ended, first) == Nameless(ended, first[r := name]) + (|ended| - mark)
    ensures Deferred(ended, first[r := name]) == Deferred(ended, first) + Natural(|ended| - mark - MAX_DEFERRED)
    decreases |ended|
  {
    if |ended| == mark {
      forall e <- ended
        ensures e.raw.run != r
      {
      }
      hide Expected, Nameless, Deferred;
      OtherRun(ended, first, r, name);
      assert Expected(ended, first) + JudgedAll([], name) == Expected(ended, first);
    } else {
      var k := |ended| - 1;
      var front, last := ended[..k], ended[k];
      hide Expected, Nameless, Deferred, JudgedAll, Early;
      assert ended == front + [last];
      Settled(front, mark, first, r, name);
      SettledMore(front, mark, last, first, r, name);
    }
  }

  lemma SettledMore(front: seq<Ended>, mark: nat, last: Ended, first: map<int, string>, r: int, name: string)
    requires mark <= |front| && last.raw.run == r && last.raw.index == |front| - mark && last.name == None && r !in first
    requires Expected(front, first[r := name]) == Expected(front, first) + JudgedAll(Early(front, mark), name)
    requires Nameless(front, first) == Nameless(front, first[r := name]) + (|front| - mark)
    requires Deferred(front, first[r := name]) == Deferred(front, first) + Natural(|front| - mark - MAX_DEFERRED)
    ensures var ended := front + [last];
            && Expected(ended, first[r := name]) == Expected(ended, first) + JudgedAll(Early(ended, mark), name)
            && Nameless(ended, first) == Nameless(ended, first[r := name]) + (|ended| - mark)
            && Deferred(ended, first[r := name]) == Deferred(ended, first) + Natural(|ended| - mark - MAX_DEFERRED)
  {
    Longer(front, last, first);
    Longer(front, last, first[r := name]);
    EarlyMore(front, mark, last, name);
    hide Expected, Nameless, Deferred, JudgedAll, Early;
    var more := if last.raw.index < MAX_DEFERRED then [Judged(last.raw, name)] else [];
    assert One(last, first) == [] && One(last, first[r := name]) == more;
    assert Expected(front, first) + [] == Expected(front, first);
    assert (Expected(front, first) + JudgedAll(Early(front, mark), name)) + more
        == Expected(front, first) + (JudgedAll(Early(front, mark), name) + more);
  }

  lemma EarlyMore(front: seq<Ended>, mark: nat, last: Ended, name: string)
    requires mark <= |front| && last.raw.index == |front| - mark
    ensures Early(front + [last], mark)
         == Early(front, mark) + if |front| - mark < MAX_DEFERRED then [last.raw] else []
    ensures JudgedAll(Early(front + [last], mark), name)
         == JudgedAll(Early(front, mark), name)
            + if last.raw.index < MAX_DEFERRED then [Judged(last.raw, name)] else []
  {
  }

  /** The numbering of runs and results. */
  predicate Numbered(scan: Scan) {
    && scan.mark <= |scan.ended| && Ordered(scan.ended)
    && (forall i | 0 <= i < scan.mark :: scan.ended[i].raw.run < scan.runs - 1)
    && (forall i | scan.mark <= i < |scan.ended| :: scan.ended[i].raw.run == scan.runs - 1 && scan.ended[i].raw.index == i - scan.mark)
    && (forall k <- scan.first :: k < scan.runs)
    && (scan.open.Some? ==>
          scan.runs > 0 && scan.open.value.run == scan.runs - 1 && scan.open.value.index == |scan.ended| - scan.mark)
  }

  lemma NumberedEnter(scan: Scan)
    requires Numbered(scan) && scan.open.None?
    ensures Numbered(EnterRun(scan)) && scan.runs !in EnterRun(scan).first
    ensures Unnamed(EnterRun(scan).ended, EnterRun(scan).mark, scan.runs)
  {
  }

  lemma NumberedName(scan: Scan, e: Event)
    requires Numbered(scan)
    ensures Numbered(NameRun(scan, e))
  {
  }

  lemma NumberedStart(scan: Scan)
    requires Numbered(scan) && scan.runs > 0
    ensures Numbered(EnterResult(scan))
  {
  }

  lemma NumberedRead(scan: Scan, l: Located)
    requires Numbered(scan)
    ensures Numbered(ReadInto(scan, l))
  {
  }

  lemma NumberedEnd(scan: Scan)
    requires Numbered(scan)
    ensures Numbered(LeaveResult(scan))
  {
    if scan.open.Some? {
      var k := |scan.ended|;
      var after := LeaveResult(scan).ended;
      forall i | 0 <= i < k
        ensures after[i] == scan.ended[i] && Before(after[i].raw, after[k].raw)
      {
      }
    }
  }

  /** The results that start in a stream. */
  function Starts(ls: seq<Located>): nat {
    if ls == [] then 0
    else
      var last := ls[|ls| - 1];
      Starts(ls[..|ls| - 1]) + if last.location == ResultPath() && last.event.StartMap? then 1 else 0
  }

  lemma StartsMore(ls: seq<Located>, l: Located)
    ensures Starts(ls + [l]) == Starts(ls) + if l.location == ResultPath() && l.event.StartMap? then 1 else 0
  {
    assert (ls + [l])[..|ls|] == ls;
  }

  /** The last event read at a location. */
  function LastAt(ls: seq<Located>, location: Location): Option<Event> {
    if ls == [] then None
    else if ls[|ls| - 1].location == location then Some(ls[|ls| - 1].event)
    else LastAt(ls[..|ls| - 1], location)
  }

  lemma LastAtMore(ls: seq<Located>, l: Located, location: Location)
    ensures LastAt(ls + [l], location) == if l.location == location then Some(l.event) else LastAt(ls, location)
  {
    assert (ls + [l])[..|ls|] == ls;
  }

  /** A version that is a text. */
  function TextOf(e: Option<Event>): Option<string> {
    match e
    case Some(ScalarEvent(Text(text))) => Some(text)
    case _ => None
  }
}
