/**
 The streaming SARIF reader itself, driven event by event, against what the stream
 says of its results.
 */
module SarifReader {
  import opened Results
  import opened JsonTree
  import opened JsonEvents
  import opened Totals
  import opened Sarif
  import opened SarifScan

  /** The path stack is inside an entry of runs. */
  predicate InRun(path: Location) {
    |path| >= 3 && path[..2] == RunPath()
  }

  /** The path stack is inside an entry of results. */
  predicate InResult(path: Location) {
    |path| >= 5 && path[..4] == ResultPath()
  }

  /** A run is entered and left exactly at the edges of its object. */
  lemma RunEdges(path: Location, e: Event)
    requires PathStep(path, e).Ok? && !Misplaced(PathStep(path, e).value.1, e)
    ensures var (next, location) := PathStep(path, e).value;
            if location == RunPath() && e.StartMap? then !InRun(path) && InRun(next)
            else if location == RunPath() && e.EndMap? then InRun(path) && !InRun(next)
            else InRun(next) <==> InRun(path)
  {
    var (next, location) := PathStep(path, e).value;
    if |location| >= 3 {
      assert path[..2] == location[..2] == next[..2];
    } else if |location| == 2 {
      assert |path| == 3 ==> path[..2] == location;
      assert |next| == 3 ==> next[..2] == location;
    }
  }

  lemma ResultEdges(path: Location, e: Event)
    requires PathStep(path, e).Ok? && !Misplaced(PathStep(path, e).value.1, e)
    ensures var (next, location) := PathStep(path, e).value;
            if location == ResultPath() && e.StartMap? then !InResult(path) && InResult(next) && InRun(path)
            else if location == ResultPath() && e.EndMap? then InResult(path) && !InResult(next)
            else InResult(next) <==> InResult(path)
  {
    var (next, location) := PathStep(path, e).value;
    if |location| >= 5 {
      assert path[..4] == location[..4] == next[..4];
    } else if |location| == 4 {
      assert |path| == 5 ==> path[..4] == location;
      assert |next| == 5 ==> next[..4] == location;
      assert location == ResultPath() ==> location[..2] == RunPath();
    }
  }

  /** A result is only ever read inside a run. */
  lemma ResultInRun(path: Location)
    requires InResult(path)
    ensures InRun(path)
  {
    assert path[..4][..2] == path[..2];
    assert ResultPath()[..2] == RunPath();
  }

  /** At the edges of a run, and at its tool's name, no result is being read; the name
      stands inside a run. */
  lemma NotInside(path: Location, location: Location, e: Event)
    requires PathStep(path, e).Ok? && PathStep(path, e).value.1 == location
    requires location == RunPath() || location == NamePath()
    ensures !InResult(path) && (location == NamePath() ==> InRun(path))
  {
    if location == NamePath() {
      assert path[..2] == location[..2] == RunPath();
      assert path[2] == location[2] == Some("tool");
      assert path[..4][2] == path[2];
      assert ResultPath()[2] == Some("results");
    }
  }

  datatype Coverage = Coverage(results: nat, normalized: nat, excluded: nat, invalid: nat, omitted: nat)

  datatype ParseResult = ParseResult(
    supported: bool, complete: bool, candidates: seq<Raw>, analyzers: seq<string>, coverage: Coverage)

  /** What the reader holds of the run it is in. */
  predicate RunOk(run: Run, scan: Scan) {
    && scan.runs > 0 && run.name == scan.current
    && run.resultCount == |scan.ended| - scan.mark + (if scan.open.Some? then 1 else 0)
    && match run.name
       case Some(_) => scan.runs - 1 in scan.first && run.pending == [] && run.pendingOmitted == 0
       case None =>
         && scan.runs - 1 !in scan.first && Unnamed(scan.ended, scan.mark, scan.runs - 1)
         && run.pending == Early(scan.ended, scan.mark)
         && run.pendingOmitted == Natural(|scan.ended| - scan.mark - MAX_DEFERRED)
  }

  /** The results of the run that nothing is settled about. */
  function Unsettled(run: Option<Run>, scan: Scan): nat {
    if run.Some? && run.value.name.None? then Natural(|scan.ended| - scan.mark) else 0
  }

  /** The accounts are those of the stream. */
  predicate AccountsOk(judged: seq<Judged>, lost: nat, deferred: nat, run: Option<Run>, scan: Scan) {
    && judged == Expected(scan.ended, scan.first)
    && lost + Unsettled(run, scan) == Nameless(scan.ended, scan.first)
    && deferred == Deferred(scan.ended, scan.first)
  }

  /** The reader is where the stream is. */
  predicate Follows(runIndex: int, run: Option<Run>, result: Option<Raw>, scan: Scan) {
    && Numbered(scan) && runIndex == scan.runs - 1 && result == scan.open
    && (if run.Some? then RunOk(run.value, scan) else scan.current.None?)
  }

  lemma NothingFollows()
    ensures Follows(-1, None, None, NOTHING_SCANNED) && AccountsOk([], 0, 0, None, NOTHING_SCANNED)
    ensures NamesOk([], 0, NOTHING_SCANNED.tools) && NOTHING_SCANNED.ended == [] && NOTHING_SCANNED.open == None
  {
  }

  lemma FollowsRun(runIndex: int, scan: Scan, judged: seq<Judged>, lost: nat, deferred: nat)
    requires Follows(runIndex, None, None, scan) && AccountsOk(judged, lost, deferred, None, scan)
    ensures Follows(runIndex + 1, Some(Run(0, None, [], 0)), None, EnterRun(scan))
    ensures AccountsOk(judged, lost, deferred, Some(Run(0, None, [], 0)), EnterRun(scan))
  {
    hide Expected, Nameless, Deferred;
    NumberedEnter(scan);
  }

  lemma FollowsName(runIndex: int, run: Run, result: Option<Raw>, scan: Scan, e: Event, judged: seq<Judged>, lost: nat, deferred: nat)
    requires Follows(runIndex, Some(run), result, scan) && AccountsOk(judged, lost, deferred, Some(run), scan)
    ensures ToolName(e).None? ==> NameRun(scan, e) == scan
    ensures ToolName(e).Some? ==>
              var run' := Some(run.(name := ToolName(e), pending := [], pendingOmitted := 0));
              && Follows(runIndex, run', result, NameRun(scan, e))
              && AccountsOk(judged + JudgedAll(run.pending, ToolName(e).value), lost, deferred + run.pendingOmitted, run', NameRun(scan, e))
  {
    hide Expected, Nameless, Deferred, ToolName;
    NumberedName(scan, e);
    if ToolName(e).Some? {
      if run.name.None? {
        Settled(scan.ended, scan.mark, scan.first, scan.runs - 1, ToolName(e).value);
      } else {
        assert judged + JudgedAll([], ToolName(e).value) == judged;
      }
    }
  }

  lemma FollowsStart(runIndex: int, run: Run, scan: Scan, judged: seq<Judged>, lost: nat, deferred: nat)
    requires Follows(runIndex, Some(run), None, scan) && AccountsOk(judged, lost, deferred, Some(run), scan)
    ensures run.resultCount == |scan.ended| - scan.mark && runIndex >= 0
    ensures EnterResult(scan).open == Some(Raw(runIndex, run.resultCount, []))
    ensures var run' := Some(run.(resultCount := run.resultCount + 1));
            && Follows(runIndex, run', Some(Raw(runIndex, run.resultCount, [])), EnterResult(scan))
            && AccountsOk(judged, lost, deferred, run', EnterResult(scan))
  {
    hide Expected, Nameless, Deferred, Early, Unnamed;
    NumberedStart(scan);
  }

  lemma FollowsRead(runIndex: int, run: Option<Run>, raw: Raw, scan: Scan, l: Located, judged: seq<Judged>, lost: nat, deferred: nat)
    requires Follows(runIndex, run, Some(raw), scan) && AccountsOk(judged, lost, deferred, run, scan)
    ensures Follows(runIndex, run, Some(raw.(seen := raw.seen + [l])), ReadInto(scan, l))
    ensures AccountsOk(judged, lost, deferred, run, ReadInto(scan, l))
  {
    hide Expected, Nameless, Deferred, Early, Unnamed;
    NumberedRead(scan, l);
  }

  /** A result of a named run ends. */
  lemma FollowsJudged(runIndex: int, run: Run, raw: Raw, scan: Scan, judged: seq<Judged>, lost: nat, deferred: nat)
    requires Follows(runIndex, Some(run), Some(raw), scan) && AccountsOk(judged, lost, deferred, Some(run), scan)
    requires run.name.Some?
    ensures Follows(runIndex, Some(run), None, LeaveResult(scan))
    ensures AccountsOk(judged + [Judged(raw, run.name.value)], lost, deferred, Some(run), LeaveResult(scan))
  {
    Longer(scan.ended, Ended(raw, scan.current), scan.first);
    hide Expected, Nameless, Deferred, Early, Unnamed;
    NumberedEnd(scan);
  }

  /** A result of a run without a name ends. */
  lemma FollowsDeferred(runIndex: int, run: Run, raw: Raw, scan: Scan, judged: seq<Judged>, lost: nat, deferred: nat)
    requires Follows(runIndex, Some(run), Some(raw), scan) && AccountsOk(judged, lost, deferred, Some(run), scan)
    requires run.name.None?
    ensures |run.pending| <= MAX_DEFERRED
    ensures var run' := if |run.pending| >= MAX_DEFERRED then run.(pendingOmitted := run.pendingOmitted + 1)
                        else run.(pending := run.pending + [raw]);
            && Follows(runIndex, Some(run'), None, LeaveResult(scan))
            && AccountsOk(judged, lost, deferred, Some(run'), LeaveResult(scan))
  {
    DeferredParts(runIndex, run, raw, scan);
    NumberedEnd(scan);
    hide AccountsOk, RunOk, Numbered, LeaveResult;
    var run' := if |run.pending| >= MAX_DEFERRED then run.(pendingOmitted := run.pendingOmitted + 1)
                else run.(pending := run.pending + [raw]);
    DeferredRun(run, raw, scan);
    DeferredAccounts(run, run', raw, scan, judged, lost, deferred);
  }

  lemma DeferredParts(runIndex: int, run: Run, raw: Raw, scan: Scan)
    requires Follows(runIndex, Some(run), Some(raw), scan) && run.name.None?
    ensures scan.open == Some(raw) && scan.current == None && raw.run == scan.runs - 1 && scan.runs - 1 !in scan.first
    ensures scan.mark <= |scan.ended| && raw.index == |scan.ended| - scan.mark && RunOk(run, scan) && Numbered(scan)
    ensures |run.pending| == Min(|scan.ended| - scan.mark, MAX_DEFERRED)
    ensures runIndex == scan.runs - 1 && LeaveResult(scan).runs == scan.runs && LeaveResult(scan).open == None
  {
    hide Ordered, Unnamed;
  }

  lemma DeferredRun(run: Run, raw: Raw, scan: Scan)
    requires RunOk(run, scan) && run.name.None? && scan.open == Some(raw) && scan.current == None
    requires scan.mark <= |scan.ended| && raw.index == |scan.ended| - scan.mark && raw.run == scan.runs - 1
    ensures var run' := if |run.pending| >= MAX_DEFERRED then run.(pendingOmitted := run.pendingOmitted + 1)
                        else run.(pending := run.pending + [raw]);
            RunOk(run', LeaveResult(scan))
  {
    EarlyMore(scan.ended, scan.mark, Ended(raw, None), "");
    hide JudgedAll;
    assert Early(scan.ended, scan.mark) + [] == Early(scan.ended, scan.mark);
  }

  lemma DeferredAccounts(run: Run, run': Run, raw: Raw, scan: Scan, judged: seq<Judged>, lost: nat, deferred: nat)
    requires AccountsOk(judged, lost, deferred, Some(run), scan) && run.name.None? && run'.name.None?
    requires scan.open == Some(raw) && scan.current == None && raw.run !in scan.first && scan.mark <= |scan.ended|
    ensures AccountsOk(judged, lost, deferred, Some(run'), LeaveResult(scan))
  {
    Longer(scan.ended, Ended(raw, None), scan.first);
    hide Expected, Nameless, Deferred;
    assert Expected(scan.ended, scan.first) + [] == Expected(scan.ended, scan.first);
  }

  /** A run ends: what is pending is settled if it has a name, and given up if not. */
  lemma FollowsLeave(runIndex: int, run: Run, result: Option<Raw>, scan: Scan, judged: seq<Judged>, lost: nat, deferred: nat)
    requires Follows(runIndex, Some(run), result, scan) && AccountsOk(judged, lost, deferred, Some(run), scan)
    ensures Follows(runIndex, None, result, LeaveRun(scan))
    ensures run.name.Some? ==>
              AccountsOk(judged + JudgedAll(run.pending, run.name.value), lost, deferred + run.pendingOmitted, None, LeaveRun(scan))
    ensures run.name.None? ==> AccountsOk(judged, lost + |run.pending| + run.pendingOmitted, deferred, None, LeaveRun(scan))
  {
    hide Expected, Nameless, Deferred;
    if run.name.Some? {
      assert judged + JudgedAll([], run.name.value) == judged;
    }
  }

  /** Outside a run the end of a run means nothing. */
  lemma FollowsNoRun(runIndex: int, result: Option<Raw>, scan: Scan)
    requires Follows(runIndex, None, result, scan)
    ensures LeaveRun(scan) == scan
  {
  }

  lemma NothingOpen(runIndex: int, run: Option<Run>, scan: Scan, l: Located)
    requires Follows(runIndex, run, None, scan)
    ensures ReadInto(scan, l) == scan && LeaveResult(scan) == scan
  {
  }

  /** The names of the first runs that had one. */
  predicate NamesOk(analyzers: seq<string>, omitted: nat, tools: seq<string>) {
    analyzers == tools[..Min(MAX_ANALYZERS, |tools|)] && omitted == |tools| - |analyzers|
  }

  class Reader {
    const normalization: Normalization
    var version: Option<string>
    var rootStarted: bool
    var rootFinished: bool
    var runsSeen: bool
    var runIndex: int
    var run: Option<Run>
    var result: Option<Raw>
    var resultCount: nat
    var analyzers: seq<string>
    var analyzersOmitted: nat

    ghost predicate Valid()
      reads normalization
    {
      normalization.Valid()
    }

    /** Everything the reader holds is what the stream says so far. */
    ghost predicate Tracks(scan: Scan)
      reads this`run, this`result, this`runIndex, this`resultCount, this`analyzers, this`analyzersOmitted, normalization
    {
      && Follows(runIndex, run, result, scan)
      && AccountsOk(normalization.judged, normalization.lost, normalization.deferredOmittedCount, run, scan)
      && NamesOk(analyzers, analyzersOmitted, scan.tools)
      && resultCount == |scan.ended| + (if scan.open.Some? then 1 else 0)
    }

    /** The reader's objects are those the path stack is inside of. */
    ghost predicate On(path: Location)
      reads this`run, this`result
    {
      (run.Some? <==> InRun(path)) && (result.Some? <==> InResult(path))
    }

    /** What the edges of the root, of runs, and the version say so far. */
    ghost predicate Heard(ls: seq<Located>)
      reads this`version, this`rootStarted, this`rootFinished, this`runsSeen, this`resultCount
    {
      && resultCount == Starts(ls)
      && (rootStarted <==> Located([], StartMap) in ls) && (rootFinished <==> Located([], EndMap) in ls)
      && (runsSeen <==> Located(At("runs"), StartArray) in ls)
      && version == TextOf(LastAt(ls, At("version")))
    }

    constructor (classify: Classify, maximum: nat)
      ensures Valid() && On([]) && Tracks(NOTHING_SCANNED) && Heard([]) && fresh(normalization)
      ensures normalization.classify == classify && normalization.maximum == maximum
    {
      normalization := new Normalization(classify, maximum);
      version, rootStarted, rootFinished, runsSeen := None, false, false, false;
      runIndex, run, result, resultCount := -1, None, None, 0;
      analyzers, analyzersOmitted := [], 0;
      new;
      hide Follows, AccountsOk, NamesOk;
      NothingFollows();
    }

    /** _set_run_text for the tool's name, and the flush behind it. */
    method SetName(e: Event, ghost scan: Scan)
      requires Valid() && run.Some? && Tracks(scan)
      modifies this`run, normalization
      ensures Valid() && run.Some? && Tracks(NameRun(scan, e))
    {
      hide Follows, AccountsOk, NamesOk;
      FollowsName(runIndex, run.value, result, scan, e, normalization.judged, normalization.lost, normalization.deferredOmittedCount);
      NamedIsSettled(runIndex, run.value, result, scan);
      NameOnly(scan, e);
      if e.ScalarEvent? && e.atom.Text? && e.atom.text != "" {
        run := Some(run.value.(name := Some(e.atom.text[..Min(|e.atom.text|, MAX_ANALYZER_FIELD)])));
        CutName(e);
      }
      if run.value.name.Some? {
        normalization.Flush(run.value, run.value.name.value);
        run := Some(run.value.(pending := [], pendingOmitted := 0));
      }
    }

    /** _finish_run. */
    method FinishRun(ghost scan: Scan)
      requires Valid() && Tracks(scan)
      modifies this`run, this`analyzers, this`analyzersOmitted, normalization
      ensures Valid() && run.None? && Tracks(LeaveRun(scan))
    {
      hide Follows, AccountsOk, NamesOk;
      if run.None? {
        FollowsNoRun(runIndex, result, scan);
        return;
      }
      FollowsLeave(runIndex, run.value, result, scan, normalization.judged, normalization.lost, normalization.deferredOmittedCount);
      NamesMore(runIndex, run.value, result, scan, analyzers, analyzersOmitted);
      normalization.FinishRun(run.value);
      if run.value.name.Some? {
        if |analyzers| < MAX_ANALYZERS {
          analyzers := analyzers + [run.value.name.value];
        } else {
          analyzersOmitted := analyzersOmitted + 1;
        }
      }
      run := None;
    }

    /** A new entry of runs. */
    method StartRun(ghost scan: Scan)
      requires Valid() && run.None? && result.None? && Tracks(scan)
      modifies this`run, this`runIndex
      ensures Valid() && run.Some? && Tracks(EnterRun(scan))
    {
      hide Follows, AccountsOk, NamesOk;
      FollowsRun(runIndex, scan, normalization.judged, normalization.lost, normalization.deferredOmittedCount);
      OpenIs(runIndex, run, result, scan);
      runIndex := runIndex + 1;
      run := Some(Run(0, None, [], 0));
    }

    /** A new entry of results. */
    method StartResult(ghost scan: Scan)
      requires Valid() && run.Some? && result.None? && Tracks(scan)
      modifies this`run, this`result, this`resultCount
      ensures Valid() && run.Some? && result.Some? && Tracks(EnterResult(scan)) && resultCount == old(resultCount) + 1
    {
      hide Follows, AccountsOk, NamesOk;
      FollowsStart(runIndex, run.value, scan, normalization.judged, normalization.lost, normalization.deferredOmittedCount);
      OpenIs(runIndex, run, result, scan);
      resultCount := resultCount + 1;
      result := Some(Raw(runIndex, run.value.resultCount, []));
      run := Some(run.value.(resultCount := run.value.resultCount + 1));
    }

    /** The events inside a result belong to it. */
    method ReadResult(l: Located, ghost scan: Scan)
      requires Valid() && result.Some? && Tracks(scan)
      modifies this`result
      ensures Valid() && result.Some? && Tracks(ReadInto(scan, l))
    {
      hide Follows, AccountsOk, NamesOk;
      FollowsRead(runIndex, run, result.value, scan, l, normalization.judged, normalization.lost, normalization.deferredOmittedCount);
      OpenIs(runIndex, run, result, scan);
      result := Some(result.value.(seen := result.value.seen + [l]));
    }

    /** The end of a result: judged if its run has a name, deferred if not, and counted
        over the deferral bound. */
    method EndResult(ghost scan: Scan)
      requires Valid() && result.Some? && (run.Some? ==> Tracks(scan))
      modifies this`run, this`result, normalization
      ensures Valid() && result.None? && (run.Some? <==> old(run.Some?))
      ensures run.Some? ==> Tracks(LeaveResult(scan))
    {
      hide Follows, AccountsOk, NamesOk;
      var raw := result.value;
      if run.None? {
        normalization.Lose(NO_RUN, 1);
      } else {
        OpenIs(runIndex, run, result, scan);
        if run.value.name.None? {
          FollowsDeferred(runIndex, run.value, raw, scan, normalization.judged, normalization.lost, normalization.deferredOmittedCount);
          if |run.value.pending| >= MAX_DEFERRED {
            run := Some(run.value.(pendingOmitted := run.value.pendingOmitted + 1));
          } else {
            run := Some(run.value.(pending := run.value.pending + [raw]));
          }
        } else {
          FollowsJudged(runIndex, run.value, raw, scan, normalization.judged, normalization.lost, normalization.deferredOmittedCount);
          normalization.Add(raw, run.value.name.value);
        }
      }
      result := None;
    }

    /** _consume_document_event: Ok(true) when the event has been dealt with. */
    method ConsumeDocumentEvent(l: Located, ghost path: Location, ghost scan: Scan, ghost read: seq<Located>)
      returns (r: Result<bool, string>)
      requires Tracks(scan) && Heard(read)
      requires Valid() && On(path) && PathStep(path, l.event).Ok? && PathStep(path, l.event).value.1 == l.location
      modifies this`version, this`rootStarted, this`rootFinished, this`runsSeen, this`runIndex, this`run, this`result,
               this`resultCount, this`analyzers, this`analyzersOmitted, normalization
      ensures Valid() && (r.Err? <==> Misplaced(l.location, l.event))
      ensures Tracks(if r == Ok(true) then ScanStep(scan, l) else scan)
      ensures Heard(if r.Ok? then read + [l] else read)
      ensures r == Ok(false) ==>
                ScanStep(scan, l) == (if l.location == ResultPath() && l.event.EndMap? then LeaveResult(ReadInto(scan, l))
                                      else ReadInto(scan, l))
      ensures l.location == ResultPath() && l.event.EndMap? ==> r == Ok(false) && result == old(result) && run == old(run)
      ensures r.Ok? && !(l.location == ResultPath() && l.event.EndMap?) ==> On(PathStep(path, l.event).value.0)
    {
      hide InRun, InResult, Follows, AccountsOk, NamesOk, ReadInto, EnterResult, EnterRun, LeaveRun, LeaveResult, NameRun;
      hide ScanStep, TextOf, LastAt, Starts, Elsewhere, Misplaced, PathStep, Heard, Tracks, Valid;
      hide RunPath, ResultPath, ResultsPath, NamePath, ToolVersionPath, ExitCodePath;
      Places();
      ScanCases(scan, l);
      var event, location := l.event, l.location;
      EndFits(location, event);
      var refused := Refused(location, event);
      if refused.Some? {
        return Err(refused.value);
      }
      Edges(path, l);
      HeardMore(read, l);
      if location == [] && event.StartMap? {
        rootStarted := true;
        HeardIs(read + [l]);
        return Ok(true);
      }
      if location == [] && event.EndMap? {
        rootFinished := true;
        HeardIs(read + [l]);
        return Ok(true);
      }
      if location == At("runs") && event.StartArray? {
        runsSeen := true;
      }
      if location == At("version") {
        version := if event.ScalarEvent? && event.atom.Text? then Some(event.atom.text) else None;
        TextIs(event);
        HeardIs(read + [l]);
        return Ok(true);
      }
      r := ConsumeRunEvent(l, path, scan);
      HeardIs(read + [l]);
    }

    /** The events of runs and of their results. */
    method ConsumeRunEvent(l: Located, ghost path: Location, ghost scan: Scan) returns (r: Result<bool, string>)
      requires Valid() && Tracks(scan) && On(path) && PathStep(path, l.event).Ok? && PathStep(path, l.event).value.1 == l.location
      requires !Misplaced(l.location, l.event) && l.location != At("version")
      requires !(l.location == [] && (l.event.StartMap? || l.event.EndMap?))
      modifies this`runIndex, this`run, this`result, this`resultCount, this`analyzers, this`analyzersOmitted, normalization
      ensures Valid() && r.Ok? && Tracks(if r.value then ScanStep(scan, l) else scan)
      ensures r == Ok(false) ==>
                ScanStep(scan, l) == (if l.location == ResultPath() && l.event.EndMap? then LeaveResult(ReadInto(scan, l))
                                      else ReadInto(scan, l))
      ensures l.location == ResultPath() && l.event.EndMap? ==> r == Ok(false) && result == old(result) && run == old(run)
      ensures !(l.location == ResultPath() && l.event.EndMap?) ==> On(PathStep(path, l.event).value.0)
      ensures resultCount == old(resultCount) + if l.location == ResultPath() && l.event.StartMap? then 1 else 0
    {
      hide InRun, InResult, Follows, AccountsOk, NamesOk, ReadInto, EnterResult, EnterRun, LeaveRun, LeaveResult, NameRun;
      hide ScanStep, Elsewhere, Misplaced, PathStep;
      hide RunPath, ResultPath, ResultsPath, NamePath, ToolVersionPath, ExitCodePath;
      Places();
      ScanCases(scan, l);
      Edges(path, l);
      var event, location := l.event, l.location;
      if location == RunPath() && event.StartMap? {
        StartRun(scan);
        return Ok(true);
      }
      if location == RunPath() && event.EndMap? {
        FinishRun(scan);
        return Ok(true);
      }
      if location == NamePath() {
        SetName(event, scan);
        return Ok(true);
      }
      if location == ToolVersionPath() || location == ExitCodePath() {
        return Ok(true);
      }
      if location == ResultPath() && event.StartMap? {
        StartResult(scan);
        return Ok(true);
      }
      return Ok(false);
    }

    lemma HeardIs(ls: seq<Located>)
      ensures Heard(ls) <==>
                && resultCount == Starts(ls)
                && (rootStarted <==> Located([], StartMap) in ls) && (rootFinished <==> Located([], EndMap) in ls)
                && (runsSeen <==> Located(At("runs"), StartArray) in ls)
                && version == TextOf(LastAt(ls, At("version")))
    {
    }

    /** Where an event that is not misplaced takes the path, and the reader with it. */
    lemma Edges(path: Location, l: Located)
      requires On(path) && PathStep(path, l.event).Ok? && PathStep(path, l.event).value.1 == l.location
      requires !Misplaced(l.location, l.event)
      ensures var next := PathStep(path, l.event).value.0;
              && (l.location == RunPath() && l.event.StartMap? ==>
                    run.None? && result.None? && InRun(next) && !InResult(next))
              && (l.location == RunPath() && l.event.EndMap? ==> run.Some? && result.None? && !InRun(next) && !InResult(next))
              && (l.location == NamePath() ==> run.Some? && result.None? && InRun(next) && !InResult(next))
              && (l.location == ResultPath() && l.event.StartMap? ==> run.Some? && result.None? && InRun(next) && InResult(next))
              && (l.location == ResultPath() && l.event.EndMap? ==> run.Some? && result.Some? && InRun(next) && !InResult(next))
              && (!(l.location == RunPath() && (l.event.StartMap? || l.event.EndMap?))
                  && !(l.location == ResultPath() && (l.event.StartMap? || l.event.EndMap?)) ==>
                    (run.Some? <==> InRun(next)) && (result.Some? <==> InResult(next)))
    {
      hide InRun, InResult, PathStep, Misplaced;
      var next := PathStep(path, l.event).value.0;
      RunEdges(path, l.event);
      ResultEdges(path, l.event);
      if InResult(path) {
        ResultInRun(path);
      }
      if InResult(next) {
        ResultInRun(next);
      }
      if l.location == RunPath() || l.location == NamePath() {
        NotInside(path, l.location, l.event);
      }
    }

    lemma HeardMore(read: seq<Located>, l: Located)
      requires Heard(read)
      ensures Located([], StartMap) in read + [l] <==> rootStarted || l == Located([], StartMap)
      ensures Located([], EndMap) in read + [l] <==> rootFinished || l == Located([], EndMap)
      ensures Located(At("runs"), StartArray) in read + [l] <==> runsSeen || l == Located(At("runs"), StartArray)
      ensures TextOf(LastAt(read + [l], At("version"))) == if l.location == At("version") then TextOf(Some(l.event)) else version
      ensures Starts(read + [l]) == resultCount + if l.location == ResultPath() && l.event.StartMap? then 1 else 0
    {
      LastAtMore(read, l, At("version"));
      StartsMore(read, l);
    }

    /** One event of the stream. */
    method Consume(l: Located, ghost path: Location, ghost scan: Scan, ghost read: seq<Located>) returns (r: Result<(), string>)
      requires Tracks(scan) && Heard(read)
      requires Valid() && On(path) && PathStep(path, l.event).Ok? && PathStep(path, l.event).value.1 == l.location
      modifies this, normalization
      ensures Valid() && (r.Err? <==> Misplaced(l.location, l.event))
      ensures Tracks(if r.Ok? then ScanStep(scan, l) else scan) && Heard(if r.Ok? then read + [l] else read)
      ensures r.Ok? ==> On(PathStep(path, l.event).value.0)
    {
      hide InRun, InResult, Follows, AccountsOk, NamesOk, ReadInto, LeaveResult, ScanStep, PathStep, Misplaced, Heard, ResultPath;
      if !Misplaced(l.location, l.event) {
        Edges(path, l);
      }
      var done := ConsumeDocumentEvent(l, path, scan, read);
      if done.Err? {
        return Err(done.error);
      }
      if !done.value && result.Some? {
        ReadResult(l, scan);
        if l.location == ResultPath() && l.event.EndMap? {
          EndResult(ReadInto(scan, l));
        }
      } else if !done.value {
        NothingOpen(runIndex, run, scan, l);
      }
      return Ok(());
    }

    /** The whole pass: all events of a stream that stops early or not. */
    method StreamDocument(events: seq<Event>, truncated: bool, ghost ls: seq<Located>) returns (error: Option<string>)
      requires Valid() && On([]) && Tracks(NOTHING_SCANNED) && Heard([])
      requires LocateAll([], events).Ok? && ls == LocateAll([], events).value.0
      modifies this, normalization
      ensures Valid() && run.None? && Tracks(LeaveRun(Scanned(Sound(ls)))) && Heard(Sound(ls))
      ensures error.None? <==> AllPlaced(ls) && !truncated && Located(At("runs"), StartArray) in ls
    {
      hide *;
      error := None;
      var path: Location := [];
      ghost var read: seq<Located> := [];
      var i: nat := 0;
      NothingRead(events, ls);
      while i < |events| && error.None?
        invariant i <= |events| && Valid() && Tracks(Scanned(read)) && Heard(read) && read <= ls && AllPlaced(read)
        invariant error.None? ==> On(path) && Ahead(path, events, i, read, ls)
        invariant error.Some? ==> |read| < |ls| && Misplaced(ls[|read|].location, ls[|read|].event)
        decreases |events| - i
      {
        OneAhead(path, events, i, read, ls);
        var (next, location) := PathStep(path, events[i]).value;
        var l := Located(location, events[i]);
        ScannedMore(read, l);
        var consumed := Consume(l, path, Scanned(read), read);
        if consumed.Err? {
          error := Some(consumed.error);
        } else {
          OnePlaced(read, l);
          read := read + [l];
          path := next;
        }
        i := i + 1;
      }
      if error.None? {
        AllRead(path, events, read, ls);
      }
      SoundIs(read, ls);
      RunsHeard(read);
      if error.None? {
        if truncated {
          error := Some("Incomplete JSON");
        } else if !runsSeen {
          error := Some("SARIF runs array is missing");
        }
      }
      FinishRun(Scanned(read));
    }

    lemma RunsHeard(read: seq<Located>)
      requires Heard(read)
      ensures runsSeen <==> Located(At("runs"), StartArray) in read
    {
    }

    /** parse_sarif behind the file: the pass, the result cut off, the coverage.  Every
        part of the answer is told by the stream, up to its first misplaced event. */
    method ParseSarif(events: seq<Event>, truncated: bool, ghost ls: seq<Located>) returns (r: ParseResult)
      requires Valid() && On([]) && Tracks(NOTHING_SCANNED) && Heard([])
      requires LocateAll([], events).Ok? && ls == LocateAll([], events).value.0
      modifies this, normalization
      ensures r.supported <==>
              && Located([], StartMap) in Sound(ls)
              && LastAt(Sound(ls), At("version")) == Some(ScalarEvent(Text("2.1.0")))
      ensures r.complete <==>
              && AllPlaced(ls) && !truncated && Located(At("runs"), StartArray) in ls && Located([], EndMap) in ls
      ensures r.coverage.results == Starts(Sound(ls))
           == r.coverage.normalized + r.coverage.excluded + r.coverage.invalid + r.coverage.omitted
      ensures !r.supported ==>
                r == ParseResult(false, r.complete, [], [], Coverage(r.coverage.results, 0, 0, r.coverage.results, 0))
      ensures r.supported ==>
                var scan := LeaveRun(Scanned(Sound(ls)));
                var judged := Expected(scan.ended, scan.first);
                && r.candidates == TakeFirst(Candidates(normalization.classify, judged), normalization.maximum)
                && r.coverage.normalized == |r.candidates|
                && r.coverage.excluded == ExcludedCount(normalization.classify, judged)
                && r.coverage.invalid
                   == InvalidCount(normalization.classify, judged) + Nameless(scan.ended, scan.first)
                      + (if scan.open.Some? then 1 else 0)
                && r.coverage.omitted
                   == |Candidates(normalization.classify, judged)| - |r.candidates| + Deferred(scan.ended, scan.first)
                && r.analyzers == scan.tools[..Min(MAX_ANALYZERS, |scan.tools|)]
      ensures r.supported ==> r.coverage.invalid == Total(normalization.invalidReasons)
      ensures forall i, j | 0 <= i < j < |r.candidates| ::
                var a, b := r.candidates[i], r.candidates[j]; a.run < b.run || (a.run == b.run && a.index < b.index)
    {
      hide *;
      var error := StreamDocument(events, truncated, ls);
      ghost var scan := LeaveRun(Scanned(Sound(ls)));
      Known(ls, scan);
      Placement(ls);
      var complete := error.None? && rootFinished;
      if !rootStarted || version != Some("2.1.0") {
        return ParseResult(false, complete, [], [], Coverage(resultCount, 0, 0, resultCount, 0));
      }
      Divided(scan.ended, scan.first);
      InOrder(normalization.classify, normalization.maximum, scan);
      if result.Some? {
        normalization.Lose(UNFINISHED, 1);
      }
      normalization.Facts();
      Summed(normalization.classify, normalization.maximum, normalization.Held(), normalization.judged, normalization.lost);
      r := ParseResult(true, complete, normalization.candidates, analyzers,
             Coverage(resultCount, |normalization.candidates|, normalization.excludedCount, normalization.invalidCount,
                      normalization.omittedCount + normalization.deferredOmittedCount));
    }

    /** What tracking the whole stream means. */
    lemma Known(ls: seq<Located>, scan: Scan)
      requires Valid() && run.None? && Tracks(scan) && Heard(Sound(ls))
      ensures normalization.Valid() && Numbered(scan) && result == scan.open
      ensures normalization.judged == Expected(scan.ended, scan.first) && normalization.lost == Nameless(scan.ended, scan.first)
      ensures normalization.deferredOmittedCount == Deferred(scan.ended, scan.first)
      ensures analyzers == scan.tools[..Min(MAX_ANALYZERS, |scan.tools|)]
      ensures resultCount == |scan.ended| + (if scan.open.Some? then 1 else 0) && resultCount == Starts(Sound(ls))
      ensures rootStarted <==> Located([], StartMap) in Sound(ls)
      ensures rootFinished <==> Located([], EndMap) in Sound(ls)
      ensures version == Some("2.1.0") <==> LastAt(Sound(ls), At("version")) == Some(ScalarEvent(Text("2.1.0")))
    {
      hide Numbered, Expected, Nameless, Deferred;
    }
  }

  lemma EndFits(location: Location, e: Event)
    ensures location == ResultPath() && e.EndMap? ==> !Misplaced(location, e)
  {
  }

  /** The checks of containers in front of everything else. */
  method Refused(location: Location, event: Event) returns (r: Option<string>)
    ensures r.Some? <==> Misplaced(location, event)
  {
    hide RunPath, ResultPath, ResultsPath, Misplaced;
    MisplacedIs(location, event);
    if location == At("runs") || location == ResultsPath() {
      if !event.StartArray? && !event.EndArray? {
        return Some("SARIF runs and results must be arrays");
      }
    }
    if location == RunPath() || location == ResultPath() {
      if !event.StartMap? && !event.EndMap? && !event.MapKey? {
        return Some("SARIF run and result entries must be objects");
      }
    }
    return None;
  }

  lemma NamedIsSettled(runIndex: int, run: Run, result: Option<Raw>, scan: Scan)
    requires Follows(runIndex, Some(run), result, scan)
    ensures run.name.Some? ==> run == run.(pending := [], pendingOmitted := 0)
    ensures forall judged: seq<Judged>, name :: judged + JudgedAll([], name) == judged
  {
    hide Numbered;
  }

  lemma CutName(e: Event)
    requires e.ScalarEvent? && e.atom.Text? && e.atom.text != ""
    ensures ToolName(e) == Some(e.atom.text[..Min(|e.atom.text|, MAX_ANALYZER_FIELD)])
  {
    assert e.atom.text[..|e.atom.text|] == e.atom.text;
  }

  /** Naming a run moves no result and ends no run. */
  lemma NameOnly(scan: Scan, e: Event)
    ensures var after := NameRun(scan, e); after.ended == scan.ended && after.open == scan.open && after.tools == scan.tools
  {
  }

  lemma OpenIs(runIndex: int, run: Option<Run>, result: Option<Raw>, scan: Scan)
    requires Follows(runIndex, run, result, scan)
    ensures scan.open == result
    ensures EnterRun(scan).open == scan.open && EnterRun(scan).ended == scan.ended && EnterRun(scan).tools == scan.tools
    ensures EnterResult(scan).open.Some? && EnterResult(scan).ended == scan.ended && EnterResult(scan).tools == scan.tools
    ensures forall l :: (ReadInto(scan, l).open.Some? <==> scan.open.Some?) && ReadInto(scan, l).ended == scan.ended
                        && ReadInto(scan, l).tools == scan.tools
    ensures scan.open.Some? ==>
              |LeaveResult(scan).ended| == |scan.ended| + 1 && LeaveResult(scan).open.None? && LeaveResult(scan).tools == scan.tools
  {
  }

  lemma NamesMore(runIndex: int, run: Run, result: Option<Raw>, scan: Scan, analyzers: seq<string>, omitted: nat)
    requires Follows(runIndex, Some(run), result, scan) && NamesOk(analyzers, omitted, scan.tools)
    ensures LeaveRun(scan).ended == scan.ended && LeaveRun(scan).open == scan.open
    ensures run.name.None? ==> NamesOk(analyzers, omitted, LeaveRun(scan).tools)
    ensures run.name.Some? ==>
              if |analyzers| < MAX_ANALYZERS then NamesOk(analyzers + [run.name.value], omitted, LeaveRun(scan).tools)
              else NamesOk(analyzers, omitted + 1, LeaveRun(scan).tools)
  {
    hide Numbered;
  }

  /** The places the reader watches are different ones. */
  lemma Places()
    ensures At("version") != At("runs")
    ensures |At("version")| == |At("runs")| == 1 && |RunPath()| == 2 && |ResultsPath()| == 3 && |ResultPath()| == 4
    ensures |NamePath()| == |ToolVersionPath()| == |ExitCodePath()| == 5
    ensures NamePath() != ToolVersionPath() && NamePath() != ExitCodePath()
  {
    assert "name"[0] != "version"[0];
    assert "version"[0] != "runs"[0];
    assert NamePath()[4] != ToolVersionPath()[4];
    assert NamePath()[4] != ExitCodePath()[4];
  }

  lemma MisplacedIs(location: Location, e: Event)
    ensures Misplaced(location, e) <==>
            || ((location == At("runs") || location == ResultsPath()) && !e.StartArray? && !e.EndArray?)
            || ((location == RunPath() || location == ResultPath()) && !e.StartMap? && !e.EndMap? && !e.MapKey?)
  {
  }

  lemma ScanCases(scan: Scan, l: Located)
    ensures l.location == RunPath() && l.event.StartMap? ==> ScanStep(scan, l) == EnterRun(scan)
    ensures l.location == RunPath() && l.event.EndMap? ==> ScanStep(scan, l) == LeaveRun(scan)
    ensures l.location == NamePath() ==> ScanStep(scan, l) == NameRun(scan, l.event)
    ensures l.location == ResultPath() && l.event.StartMap? ==> ScanStep(scan, l) == EnterResult(scan)
    ensures l.location == ResultPath() && l.event.EndMap? ==> ScanStep(scan, l) == LeaveResult(ReadInto(scan, l))
    ensures Elsewhere(l) ==> ScanStep(scan, l) == scan
    ensures Elsewhere(l) <==>
            ((l.location == [] && (l.event.StartMap? || l.event.EndMap?)) || l.location == At("version")
             || l.location == ToolVersionPath() || l.location == ExitCodePath())
    ensures
      || (l.location == RunPath() && (l.event.StartMap? || l.event.EndMap?)) || l.location == NamePath() || Elsewhere(l)
      || (l.location == ResultPath() && (l.event.StartMap? || l.event.EndMap?)) || ScanStep(scan, l) == ReadInto(scan, l)
  {
    hide EnterRun, LeaveRun, NameRun, EnterResult, LeaveResult, ReadInto;
  }

  lemma TextIs(e: Event)
    ensures TextOf(Some(e)) == if e.ScalarEvent? && e.atom.Text? then Some(e.atom.text) else None
  {
  }

  function TakeFirst(raws: seq<Raw>, n: nat): seq<Raw> {
    raws[..Min(n, |raws|)]
  }

  /** The accounts of a finished pass add up. */
  lemma Summed(classify: Classify, max: nat, a: Accounts, judged: seq<Judged>, lost: nat)
    requires Balanced(classify, max, a, judged, lost)
    ensures |a.candidates| + a.excluded + a.invalid + a.omitted == |judged| + lost
    ensures a.candidates == TakeFirst(Candidates(classify, judged), max)
    ensures a.invalid == Total(a.reasons)
    ensures a.excluded == ExcludedCount(classify, judged) && a.invalid == InvalidCount(classify, judged) + lost
    ensures a.omitted == |Candidates(classify, judged)| - |a.candidates|
  {
    hide Total, Candidates, ExcludedCount, InvalidCount;
    JudgedSplit(classify, judged);
  }

  lemma InOrder(classify: Classify, max: nat, scan: Scan)
    requires Numbered(scan)
    ensures var cs := TakeFirst(Candidates(classify, Expected(scan.ended, scan.first)), max);
            forall i, j | 0 <= i < j < |cs| :: cs[i].run < cs[j].run || (cs[i].run == cs[j].run && cs[i].index < cs[j].index)
  {
    hide Candidates, Expected;
    ExpectedAscends(scan.ended, scan.first);
    CandidatesAscend(classify, Expected(scan.ended, scan.first));
  }

  lemma {:induction false} SoundPart(ls: seq<Located>)
    ensures Sound(ls) <= ls && (AllPlaced(ls) ==> Sound(ls) == ls)
  {
    hide Misplaced;
    if ls != [] {
      SoundPart(ls[1..]);
      assert ls == [ls[0]] + ls[1..];
      forall l <- ls[1..]
        ensures l in ls
      {
      }
    }
  }

  lemma Placement(ls: seq<Located>)
    ensures AllPlaced(ls) ==> Sound(ls) == ls
  {
    SoundPart(ls);
  }

  /** The path, and what is read, in front of event i. */
  ghost predicate Ahead(path: Location, events: seq<Event>, i: nat, read: seq<Located>, ls: seq<Located>)
    requires i <= |events|
  {
    LocateAll(path, events[i..]).Ok? && ls == read + LocateAll(path, events[i..]).value.0
  }

  lemma NothingRead(events: seq<Event>, ls: seq<Located>)
    requires LocateAll([], events).Ok? && ls == LocateAll([], events).value.0
    ensures Ahead([], events, 0, [], ls) && AllPlaced([]) && Scanned([]) == NOTHING_SCANNED
  {
    assert events[0..] == events;
    assert [] + ls == ls;
  }

  lemma OneAhead(path: Location, events: seq<Event>, i: nat, read: seq<Located>, ls: seq<Located>)
    requires i < |events| && Ahead(path, events, i, read, ls)
    ensures PathStep(path, events[i]).Ok?
    ensures var (next, location) := PathStep(path, events[i]).value;
            var l := Located(location, events[i]);
            Ahead(next, events, i + 1, read + [l], ls) && read + [l] <= ls && |read| < |ls| && ls[|read|] == l
  {
    hide PathStep;
    assert events[i..][0] == events[i] && events[i..][1..] == events[i + 1..];
    var (next, location) := PathStep(path, events[i]).value;
    var l := Located(location, events[i]);
    var rest := LocateAll(next, events[i + 1..]).value.0;
    assert read + ([l] + rest) == (read + [l]) + rest;
  }

  lemma OnePlaced(read: seq<Located>, l: Located)
    requires AllPlaced(read) && !Misplaced(l.location, l.event)
    ensures AllPlaced(read + [l])
  {
    hide Misplaced;
  }

  lemma AllRead(path: Location, events: seq<Event>, read: seq<Located>, ls: seq<Located>)
    requires Ahead(path, events, |events|, read, ls)
    ensures read == ls
  {
    assert events[|events|..] == [];
    assert read + [] == read;
  }
}
