/**
 What the report of a capture says, told by the moves of its run alone.
 */
module OutputReport {
  import opened Results
  import opened OutputProtocol

  /** The close of the run: there is a report behind this move and none in front. */
  predicate ClosesAt(s: State, schedule: Schedule, k: nat) {
    k < |schedule| && Run(s, schedule[..k]).report.None? && Run(s, schedule[..k + 1]).report.Some?
  }

  /** A write that nobody had cancelled fails before all it was granted is written. */
  predicate WriteFailsAt(s: State, schedule: Schedule, j: nat) {
    && j < |schedule| && schedule[j].1.WriteFails?
    && var before := Run(s, schedule[..j]);
       var w := before.Get(schedule[j].0).phase;
       before.report.None? && w.Writing? && w.written < w.granted && !w.cancelled
  }

  /** Until the close a stream counts as complete exactly if it was read to its end. */
  predicate FlagsOk(s: State) {
    s.report.None? ==>
      && (s.stdout.complete <==> s.stdout.phase == Ended(Whole))
      && (s.stderr.complete <==> s.stderr.phase == Ended(Whole))
  }

  lemma FlagsKept(s: State, name: Name, a: Action)
    requires FlagsOk(s)
    ensures FlagsOk(Step(s, name, a))
  {
    hide OnRead, OnWritten, OnClose;
    if s.report.None? {
      match a
      case Read(chunk) => ReadKeepsFlags(s, name, chunk);
      case WriteEnds => WrittenKeepsFlags(s.Get(name));
      case Close(gathered, closeFails) => Reported(s, gathered, closeFails);
      case _ =>
    }
  }

  lemma Reported(s: State, gathered: bool, closeFails: bool)
    ensures OnClose(s, gathered, closeFails).report.Some?
  {
  }

  lemma ReadKeepsFlags(s: State, name: Name, chunk: Bytes)
    requires FlagsOk(s) && s.report.None?
    ensures s.Get(name).phase.Reading? ==> FlagsOk(OnRead(s, name, chunk))
  {
  }

  lemma WrittenKeepsFlags(t: Stream)
    ensures t.phase.Writing? && t.phase.granted <= |t.phase.chunk| ==>
              OnWritten(t, t.phase).complete == t.complete && OnWritten(t, t.phase).phase != Ended(Whole)
  {
  }

  lemma {:induction false} FlagsRun(mode: Mode, max: nat, schedule: Schedule)
    ensures FlagsOk(Run(Start(mode, max), schedule))
    decreases |schedule|
  {
    hide FlagsOk, Step;
    if schedule == [] {
      FlagsStart(mode, max);
    } else {
      var k := |schedule| - 1;
      FlagsRun(mode, max, schedule[..k]);
      FlagsKept(Run(Start(mode, max), schedule[..k]), schedule[k].0, schedule[k].1);
    }
  }

  lemma FlagsStart(mode: Mode, max: nat)
    ensures FlagsOk(Start(mode, max))
  {
  }

  lemma StepError(s: State, name: Name, a: Action)
    requires s.report.None? && Step(s, name, a).report.None?
    ensures Step(s, name, a).ioError <==>
            || s.ioError
            || (a.WriteFails? && var w := s.Get(name).phase; w.Writing? && w.written < w.granted && !w.cancelled)
  {
  }

  lemma StepReport(s: State, name: Name, a: Action)
    ensures s.report.Some? ==> Step(s, name, a) == s
    ensures s.report.None? && Step(s, name, a).report.Some? ==>
              && a.Close? && MayClose(s, a.gathered)
              && Step(s, name, a) == OnClose(s, a.gathered, a.closeFails)
              && Step(s, name, a).stdout.phase == s.stdout.phase && Step(s, name, a).stderr.phase == s.stderr.phase
  {
  }

  lemma Front(s: State, schedule: Schedule, j: nat)
    requires schedule != [] && j <= |schedule| - 1
    ensures schedule[..|schedule| - 1][..j] == schedule[..j] && schedule[..|schedule|] == schedule
  {
  }

  /** In front of the close an I/O error is exactly a write that failed. */
  lemma {:induction false} ErrorMeans(mode: Mode, max: nat, schedule: Schedule)
    requires Run(Start(mode, max), schedule).report.None?
    ensures Run(Start(mode, max), schedule).ioError <==> exists j: nat :: WriteFailsAt(Start(mode, max), schedule, j)
    decreases |schedule|
  {
    hide Step;
    var s := Start(mode, max);
    if schedule != [] {
      var n := |schedule| - 1;
      var front := schedule[..n];
      StepReport(Run(s, front), schedule[n].0, schedule[n].1);
      ErrorMeans(mode, max, front);
      StepError(Run(s, front), schedule[n].0, schedule[n].1);
      forall j: nat | j < n
        ensures WriteFailsAt(s, front, j) <==> WriteFailsAt(s, schedule, j)
      {
        Front(s, schedule, j);
      }
      assert WriteFailsAt(s, schedule, n) ==> Run(s, schedule).ioError;
    }
  }

  /** Nothing happens behind a close. */
  lemma {:induction false} Frozen(s: State, schedule: Schedule, k: nat)
    requires k <= |schedule| && Run(s, schedule[..k]).report.Some?
    ensures Run(s, schedule) == Run(s, schedule[..k])
    decreases |schedule|
  {
    hide Step;
    if k == |schedule| {
      assert schedule[..k] == schedule;
    } else {
      var n := |schedule| - 1;
      Front(s, schedule, k);
      Frozen(s, schedule[..n], k);
      StepReport(Run(s, schedule[..n]), schedule[n].0, schedule[n].1);
    }
  }

  /** A report comes from a single close. */
  lemma {:induction false} ReportCloses(mode: Mode, max: nat, schedule: Schedule) returns (k: nat)
    requires Run(Start(mode, max), schedule).report.Some?
    ensures ClosesAt(Start(mode, max), schedule, k)
    decreases |schedule|
  {
    hide Step;
    var s := Start(mode, max);
    var n := |schedule| - 1;
    if Run(s, schedule[..n]).report.Some? {
      k := ReportCloses(mode, max, schedule[..n]);
      Front(s, schedule, k);
      Front(s, schedule, k + 1);
    } else {
      k := n;
      Front(s, schedule, n);
    }
  }

  /** The report, exactly: a stream is reported complete if and only if both streams
      were read to their ends, the readers were gathered, and neither a write nor the
      close failed; an I/O error is reported if and only if one of them did. */
  lemma ReportExactly(mode: Mode, max: nat, schedule: Schedule, k: nat)
    requires ClosesAt(Start(mode, max), schedule, k)
    ensures var start, now, close := Start(mode, max), Run(Start(mode, max), schedule), schedule[k].1;
            && close.Close? && now.report.Some?
            && var r := now.report.value;
               var failed := close.closeFails || exists j: nat :: j < k && WriteFailsAt(start, schedule, j);
               var whole := now.stdout.phase == Ended(Whole) && now.stderr.phase == Ended(Whole);
               && (r.ioError <==> failed)
               && (r.stdoutComplete <==> whole && close.gathered && !failed)
               && (r.stderrComplete <==> whole && close.gathered && !failed)
               && (now.stdout.complete <==> whole && close.gathered) && (now.stderr.complete <==> whole && close.gathered)
  {
    var start := Start(mode, max);
    var front := schedule[..k];
    assert schedule[..k + 1][..k] == front;
    hide Step, FlagsOk;
    Frozen(start, schedule, k + 1);
    FlagsRun(mode, max, front);
    ErrorMeans(mode, max, front);
    StepReport(Run(start, front), schedule[k].0, schedule[k].1);
    forall j: nat | j < k
      ensures WriteFailsAt(start, front, j) <==> WriteFailsAt(start, schedule, j)
    {
      assert front[..j] == schedule[..j];
    }
    AtClose(Run(start, front), schedule[k].1);
  }

  lemma AtClose(s: State, a: Action)
    requires FlagsOk(s) && s.report.None? && a.Close? && MayClose(s, a.gathered)
    ensures var r := OnClose(s, a.gathered, a.closeFails).report;
            var whole := s.stdout.phase == Ended(Whole) && s.stderr.phase == Ended(Whole);
            && r.Some? && (r.value.ioError <==> s.ioError || a.closeFails)
            && (r.value.stdoutComplete <==> whole && a.gathered && !r.value.ioError)
            && (r.value.stderrComplete <==> whole && a.gathered && !r.value.ioError)
            && var closed := OnClose(s, a.gathered, a.closeFails);
               (closed.stdout.complete <==> whole && a.gathered) && (closed.stderr.complete <==> whole && a.gathered)
  {
  }

  /** Once both readers have stopped, the close behind a failed execution always takes
      effect, and the one behind a success exactly if both streams were read to their
      ends. */
  lemma CloseTakesEffect(mode: Mode, max: nat, schedule: Schedule, name: Name, gathered: bool, closeFails: bool)
    requires var s := Run(Start(mode, max), schedule);
             s.report.None? && s.stdout.phase.Ended? && s.stderr.phase.Ended?
    ensures var s := Run(Start(mode, max), schedule);
            Run(Start(mode, max), schedule + [(name, Close(gathered, closeFails))]).report.Some? <==>
            (gathered ==> s.stdout.phase == Ended(Whole) && s.stderr.phase == Ended(Whole))
  {
    var longer := schedule + [(name, Close(gathered, closeFails))];
    assert longer[..|schedule|] == schedule;
    assert Run(Start(mode, max), longer) == Step(Run(Start(mode, max), schedule), name, Close(gathered, closeFails));
  }

  /** The reader is stopped by a cancellation, at once or at the end of its write. */
  predicate Stopped(t: Stream) {
    t.phase == Ended(Cancelled) || (t.phase.Writing? && t.phase.cancelled)
  }

  /** Move j cancels a reader that has not ended. */
  predicate CancelsAt(s: State, schedule: Schedule, name: Name, j: nat) {
    && j < |schedule| && schedule[j] == (name, Cancel)
    && var before := Run(s, schedule[..j]); before.report.None? && !before.Get(name).phase.Ended?
  }

  /** Move j finds the end of a stream that is being read. */
  predicate EndsAt(s: State, schedule: Schedule, name: Name, j: nat) {
    && j < |schedule| && schedule[j] == (name, Eof)
    && var before := Run(s, schedule[..j]); before.report.None? && before.Get(name).phase.Reading?
  }

  lemma StepEnds(s: State, q: Name, a: Action, name: Name)
    ensures Stopped(Step(s, q, a).Get(name)) <==>
            || Stopped(s.Get(name))
            || (q == name && a == Cancel && s.report.None? && !s.Get(name).phase.Ended?)
    ensures Step(s, q, a).Get(name).phase == Ended(Whole) <==>
            || s.Get(name).phase == Ended(Whole)
            || (q == name && a == Eof && s.report.None? && s.Get(name).phase.Reading?)
    ensures Step(s, q, a).Get(name).phase == Ended(SinkFailure) <==>
            || s.Get(name).phase == Ended(SinkFailure)
            || (q == name && a == WriteFails && s.report.None? && var w := s.Get(name).phase;
                w.Writing? && w.written < w.granted && !w.cancelled)
  {
  }

  /** Why a reader stopped, told by the moves of the run: it was cancelled exactly if a
      cancellation struck it before its end, it read everything exactly if it met the end
      of its stream, and its sink failed exactly if one of its writes did. */
  lemma {:induction false} EndsExactly(mode: Mode, max: nat, schedule: Schedule, name: Name)
    ensures var start := Start(mode, max);
            var t := Run(start, schedule).Get(name);
            && (Stopped(t) <==> exists j: nat :: CancelsAt(start, schedule, name, j))
            && (t.phase == Ended(Whole) <==> exists j: nat :: EndsAt(start, schedule, name, j))
            && (t.phase == Ended(SinkFailure) <==>
                  exists j: nat :: j < |schedule| && schedule[j].0 == name && WriteFailsAt(start, schedule, j))
    decreases |schedule|
  {
    hide Step, Stopped;
    var start := Start(mode, max);
    if schedule == [] {
      NothingEnded(mode, max, name);
    } else {
      var n := |schedule| - 1;
      var front := schedule[..n];
      EndsExactly(mode, max, front, name);
      StepEnds(Run(start, front), schedule[n].0, schedule[n].1, name);
      forall j: nat | j < n
        ensures CancelsAt(start, front, name, j) <==> CancelsAt(start, schedule, name, j)
        ensures EndsAt(start, front, name, j) <==> EndsAt(start, schedule, name, j)
        ensures WriteFailsAt(start, front, j) <==> WriteFailsAt(start, schedule, j)
      {
        Front(start, schedule, j);
      }
      LastMoves(start, schedule, name);
    }
  }

  lemma NothingEnded(mode: Mode, max: nat, name: Name)
    ensures var t := Run(Start(mode, max), []).Get(name); t.phase == Reading && !Stopped(t)
  {
  }

  lemma LastMoves(start: State, schedule: Schedule, name: Name)
    requires schedule != []
    ensures var n := |schedule| - 1;
            var before := Run(start, schedule[..n]);
            && (CancelsAt(start, schedule, name, n) <==>
                  schedule[n].0 == name && schedule[n].1 == Cancel && before.report.None? && !before.Get(name).phase.Ended?)
            && (EndsAt(start, schedule, name, n) <==>
                  schedule[n].0 == name && schedule[n].1 == Eof && before.report.None? && before.Get(name).phase.Reading?)
  {
  }
}
