/**
 The capture of a process's two output streams: two readers that share one budget
 and suspend between taking from it and writing, over partial writes, failing
 writes, cancellation and an exhausted budget.
 */
module OutputProtocol {
  import opened Results

  newtype Byte = x: int | 0 <= x < 256

  type Bytes = seq<Byte>

  const PREVIEW_BYTES: nat := 64 * 1024

  datatype Name = Stdout | Stderr

  function Min(a: int, b: int): int { if a < b then a else b }

  function Max(a: int, b: int): int { if a < b then b else a }

  /** How much of a chunk a budget grants. */
  function Granted(length: nat, remaining: int): (r: nat)
    ensures r <= length
  {
    Min(length, Max(remaining, 0))
  }

  /** Why a reader stopped. */
  datatype End = Whole | Limit | SinkFailure | Cancelled

  datatype Phase =
    | Reading
    | Writing(chunk: Bytes, granted: nat, exceeded: bool, written: nat, cancelled: bool)
    | Ended(end: End)

  /** One reader.  read is all it has taken from its stream, total what the budget
      granted of that, file what the sink holds, output the bytes kept in memory;
      observed and retained are the diagnostic counts. */
  datatype Stream = Stream(
    read: Bytes, total: nat, file: Bytes, output: Bytes,
    observed: nat, retained: nat, complete: bool, phase: Phase)

  /** What the bytes are kept for: a sink on disk, memory alone, or diagnostics of
      at most limit bytes a stream. */
  datatype Mode = ToSink | ToMemory | Diagnostic(limit: nat)

  /** What close answers about the two streams. */
  datatype Report = Report(stdoutBytes: nat, stderrBytes: nat, stdoutComplete: bool, stderrComplete: bool, ioError: bool)

  datatype State = State(
    mode: Mode, max: nat, remaining: int, stdout: Stream, stderr: Stream, ioError: bool, report: Option<Report>)
  {
    function Get(name: Name): Stream {
      match name
      case Stdout => stdout
      case Stderr => stderr
    }

    function Put(name: Name, s: Stream): State {
      match name
      case Stdout => this.(stdout := s)
      case Stderr => this.(stderr := s)
    }
  }

  function Empty(): Stream {
    Stream([], 0, [], [], 0, 0, false, Reading)
  }

  function Start(mode: Mode, max: nat): State {
    State(mode, max, max, Empty(), Empty(), false, None)
  }

  datatype Action =
    | Read(chunk: Bytes)
    | Eof
    | WriteSome(count: nat)
    | WriteFails
    | WriteEnds
    | Cancel
    | Close(gathered: bool, closeFails: bool)

  /** The diagnostic branch of the read loop. */
  function ReadDiagnostic(s: Stream, limit: nat, chunk: Bytes): Stream {
    var kept := Granted(|chunk|, limit - |s.output|);
    s.(read := s.read + chunk, output := s.output + chunk[..kept], observed := s.observed + |chunk|,
       retained := s.retained + kept)
  }

  /** The preview grows with what was written, up to its bound. */
  function Previewed(output: Bytes, chunk: Bytes, granted: nat): Bytes
    requires granted <= |chunk|
  {
    output + chunk[..Min(granted, Max(PREVIEW_BYTES - |output|, 0))]
  }

  function OnRead(s: State, name: Name, chunk: Bytes): State {
    var t := s.Get(name);
    if s.mode.Diagnostic? then s.Put(name, ReadDiagnostic(t, s.mode.limit, chunk))
    else
      var granted := Granted(|chunk|, s.remaining);
      var exceeded := s.remaining - |chunk| < 0;
      var t' := t.(read := t.read + chunk, total := t.total + granted);
      var s' := s.(remaining := s.remaining - |chunk|);
      if s.mode.ToSink? then s'.Put(name, t'.(phase := Writing(chunk, granted, exceeded, 0, false)))
      else
        s'.Put(name, t'.(output := t.output + chunk[..granted], phase := if exceeded then Ended(Limit) else Reading))
  }

  /** The write has been joined: the preview follows, then the limit takes effect. */
  function OnWritten(t: Stream, w: Phase): Stream
    requires w.Writing? && w.granted <= |w.chunk|
  {
    if w.cancelled then t.(phase := Ended(Cancelled))
    else t.(output := Previewed(t.output, w.chunk, w.granted), phase := if w.exceeded then Ended(Limit) else Reading)
  }

  /** The sink is closed.  Unless both readers were gathered, what is counted complete
      is marked incomplete first. */
  function OnClose(s: State, gathered: bool, closeFails: bool): State {
    var io := s.ioError || closeFails;
    var o, e := s.stdout.complete && gathered, s.stderr.complete && gathered;
    s.(stdout := s.stdout.(complete := o), stderr := s.stderr.(complete := e), ioError := io,
       report := Some(Report(|s.stdout.file|, |s.stderr.file|, o && !io, e && !io, io)))
  }

  /** Both readers have stopped; they are gathered only if both returned. */
  predicate MayClose(s: State, gathered: bool) {
    && s.stdout.phase.Ended? && s.stderr.phase.Ended?
    && (gathered ==> s.stdout.phase.end == s.stderr.phase.end == Whole)
  }

  /** One step of the reader of a stream, or the close behind both.  A step that is
      not possible where the reader stands does nothing. */
  function Step(s: State, name: Name, a: Action): State {
    var t := s.Get(name);
    if s.report.Some? then s
    else
      match a
      case Read(chunk) => if t.phase.Reading? && chunk != [] then OnRead(s, name, chunk) else s
      case Eof => if t.phase.Reading? then s.Put(name, t.(complete := true, phase := Ended(Whole))) else s
      case WriteSome(n) =>
        if t.phase.Writing? && 0 < n && t.phase.written + n <= t.phase.granted <= |t.phase.chunk| then
          var k := t.phase.written;
          s.Put(name, t.(file := t.file + t.phase.chunk[k..k + n], phase := t.phase.(written := k + n)))
        else s
      case WriteFails =>
        if t.phase.Writing? && t.phase.written < t.phase.granted then
          if t.phase.cancelled then s.Put(name, t.(phase := Ended(Cancelled)))
          else s.(ioError := true).Put(name, t.(phase := Ended(SinkFailure)))
        else s
      case WriteEnds =>
        if t.phase.Writing? && t.phase.written == t.phase.granted <= |t.phase.chunk| then s.Put(name, OnWritten(t, t.phase))
        else s
      case Cancel =>
        if t.phase.Reading? then s.Put(name, t.(phase := Ended(Cancelled)))
        else if t.phase.Writing? then s.Put(name, t.(phase := t.phase.(cancelled := true)))
        else s
      case Close(gathered, closeFails) =>
        if MayClose(s, gathered) then OnClose(s, gathered, closeFails) else s
  }

  type Schedule = seq<(Name, Action)>

  function Run(s: State, schedule: Schedule): State
    decreases |schedule|
  {
    if schedule == [] then s
    else
      var k := |schedule| - 1;
      Step(Run(s, schedule[..k]), schedule[k].0, schedule[k].1)
  }

  /** The preview belonging to a file. */
  function PreviewOf(file: Bytes): Bytes {
    file[..Min(|file|, PREVIEW_BYTES)]
  }

  ghost predicate SinkStreamOk(t: Stream) {
    && t.file <= t.read && t.output <= PreviewOf(t.file)
    && |t.file| <= t.total <= |t.read|
    && (t.complete ==> t.phase == Ended(Whole))
    && match t.phase
       case Reading => t.file == t.read && t.output == PreviewOf(t.file) && t.total == |t.read|
       case Writing(chunk, granted, exceeded, written, _) =>
         && |chunk| <= |t.read| && written <= granted <= |chunk| && (exceeded <==> granted < |chunk|)
         && var before := t.read[..|t.read| - |chunk|];
            && t.read == before + chunk && t.file == before + chunk[..written]
            && t.output == PreviewOf(before) && t.total == |before| + granted
       case Ended(end) =>
         && (end == Whole ==> t.file == t.read && t.output == PreviewOf(t.file) && t.total == |t.read|)
         && (end == Limit ==> |t.file| == t.total < |t.read| && t.output == PreviewOf(t.file))
  }

  ghost predicate MemoryStreamOk(t: Stream) {
    && t.output <= t.read && |t.output| == t.total && t.file == [] && !t.phase.Writing?
    && (t.phase.Reading? || t.phase == Ended(Whole) ==> t.output == t.read)
    && (t.phase == Ended(Limit) ==> t.total < |t.read|)
    && (t.complete ==> t.phase == Ended(Whole))
  }

  ghost predicate DiagnosticStreamOk(t: Stream, limit: nat) {
    && t.output == t.read[..Min(|t.read|, limit)] && t.file == [] && !t.phase.Writing?
    && t.observed == |t.read| && t.retained == |t.output|
    && (t.complete ==> t.phase == Ended(Whole))
  }

  ghost predicate StreamOk(t: Stream, mode: Mode) {
    match mode
    case ToSink => SinkStreamOk(t)
    case ToMemory => MemoryStreamOk(t)
    case Diagnostic(limit) => DiagnosticStreamOk(t, limit)
  }

  /** What the budget has granted to both readers together. */
  ghost predicate BudgetOk(s: State) {
    var read := |s.stdout.read| + |s.stderr.read|;
    !s.mode.Diagnostic? ==> s.remaining == s.max - read && s.stdout.total + s.stderr.total == Min(s.max, read)
  }

  ghost predicate ReportOk(s: State, t: Stream, bytes: nat, complete: bool, ioError: bool) {
    && bytes == |t.file| && t.phase.Ended?
    && (complete ==> t.phase == Ended(Whole) && !ioError)
  }

  ghost predicate Inv(s: State) {
    && StreamOk(s.stdout, s.mode) && StreamOk(s.stderr, s.mode) && BudgetOk(s)
    && (s.report.Some? ==>
          && ReportOk(s, s.stdout, s.report.value.stdoutBytes, s.report.value.stdoutComplete, s.report.value.ioError)
          && ReportOk(s, s.stderr, s.report.value.stderrBytes, s.report.value.stderrComplete, s.report.value.ioError)
          && (s.report.value.ioError <==> s.ioError))
  }

  lemma DiagnosticRead(t: Stream, limit: nat, chunk: Bytes)
    requires DiagnosticStreamOk(t, limit) && t.phase.Reading?
    ensures DiagnosticStreamOk(ReadDiagnostic(t, limit, chunk), limit)
  {
    var kept := Granted(|chunk|, limit - |t.output|);
    if |t.read| < limit {
      assert (t.read + chunk)[..|t.read| + kept] == t.read + chunk[..kept];
    } else {
      assert (t.read + chunk)[..limit] == t.read[..limit];
      assert chunk[..0] == [];
    }
  }

  lemma SinkRead(t: Stream, chunk: Bytes, remaining: int)
    requires SinkStreamOk(t) && t.phase.Reading? && chunk != []
    ensures var granted := Granted(|chunk|, remaining);
            SinkStreamOk(t.(read := t.read + chunk, total := t.total + granted,
                            phase := Writing(chunk, granted, remaining - |chunk| < 0, 0, false)))
  {
    assert (t.read + chunk)[..|t.read|] == t.read;
    assert t.read + chunk[..0] == t.read;
  }

  lemma PreviewGrows(before: Bytes, chunk: Bytes, granted: nat)
    requires granted <= |chunk|
    ensures Previewed(PreviewOf(before), chunk, granted) == PreviewOf(before + chunk[..granted])
  {
    if |before| >= PREVIEW_BYTES {
      assert (before + chunk[..granted])[..PREVIEW_BYTES] == before[..PREVIEW_BYTES];
      assert chunk[..0] == [];
    } else {
      var k := Min(granted, PREVIEW_BYTES - |before|);
      assert before[..|before|] == before;
      assert (before + chunk[..granted])[..|before| + k] == before + chunk[..k];
    }
  }

  lemma PreviewOfPrefix(a: Bytes, b: Bytes)
    requires a <= b
    ensures PreviewOf(a) <= PreviewOf(b)
  {
  }

  lemma WrittenOk(t: Stream)
    requires SinkStreamOk(t) && t.phase.Writing? && t.phase.written == t.phase.granted
    ensures SinkStreamOk(OnWritten(t, t.phase))
  {
    var w := t.phase;
    var before := t.read[..|t.read| - |w.chunk|];
    assert !t.complete;
    if w.cancelled {
      PreviewOfPrefix(before, t.file);
    } else {
      PreviewGrows(before, w.chunk, w.granted);
      if w.granted == |w.chunk| {
        assert w.chunk[..w.granted] == w.chunk;
      }
    }
  }

  lemma NextPart(before: Bytes, chunk: Bytes, k: nat, n: nat)
    requires k + n <= |chunk|
    ensures (before + chunk[..k]) + chunk[k..k + n] == before + chunk[..k + n]
    ensures before + chunk[..k + n] <= before + chunk && before <= before + chunk[..k + n]
  {
    assert chunk[..k] + chunk[k..k + n] == chunk[..k + n];
  }

  lemma SomeWritten(t: Stream, n: nat)
    requires SinkStreamOk(t) && t.phase.Writing? && 0 < n && t.phase.written + n <= t.phase.granted
    ensures var k := t.phase.written;
            SinkStreamOk(t.(file := t.file + t.phase.chunk[k..k + n], phase := t.phase.(written := k + n)))
  {
    hide PreviewOf;
    var w := t.phase;
    var before := t.read[..|t.read| - |w.chunk|];
    NextPart(before, w.chunk, w.written, n);
    PreviewOfPrefix(before, before + w.chunk[..w.written + n]);
  }

  lemma StoppedWriting(t: Stream, end: End)
    requires SinkStreamOk(t) && (t.phase.Reading? || t.phase.Writing?) && (end == Cancelled || end == SinkFailure)
    ensures SinkStreamOk(t.(phase := Ended(end)))
  {
    if t.phase.Writing? {
      PreviewOfPrefix(t.read[..|t.read| - |t.phase.chunk|], t.file);
    }
  }

  lemma MemoryRead(t: Stream, chunk: Bytes, remaining: int)
    requires MemoryStreamOk(t) && t.phase.Reading? && chunk != []
    ensures var granted := Granted(|chunk|, remaining);
            MemoryStreamOk(t.(read := t.read + chunk, total := t.total + granted, output := t.output + chunk[..granted],
                              phase := if remaining - |chunk| < 0 then Ended(Limit) else Reading))
  {
    var granted := Granted(|chunk|, remaining);
    assert t.output + chunk[..granted] <= t.read + chunk;
    if granted == |chunk| {
      assert chunk[..granted] == chunk;
    }
  }

  lemma StreamRead(s: State, name: Name, chunk: Bytes)
    requires StreamOk(s.Get(name), s.mode) && s.Get(name).phase.Reading? && chunk != []
    ensures StreamOk(OnRead(s, name, chunk).Get(name), s.mode)
  {
    hide DiagnosticStreamOk, SinkStreamOk, MemoryStreamOk, Granted;
    var t := s.Get(name);
    match s.mode
    case Diagnostic(limit) => DiagnosticRead(t, limit, chunk);
    case ToSink => SinkRead(t, chunk, s.remaining);
    case ToMemory => MemoryRead(t, chunk, s.remaining);
  }

  lemma ReadOk(s: State, name: Name, chunk: Bytes)
    requires Inv(s) && s.report.None? && s.Get(name).phase.Reading? && chunk != []
    ensures Inv(OnRead(s, name, chunk))
  {
    StreamRead(s, name, chunk);
    hide StreamOk;
  }

  /** A stream that reads nothing and takes nothing may change as it likes. */
  lemma PutOk(s: State, name: Name, t: Stream, ioError: bool)
    requires Inv(s) && s.report.None? && StreamOk(t, s.mode)
    requires t.read == s.Get(name).read && t.total == s.Get(name).total
    ensures Inv(s.(ioError := ioError).Put(name, t)) && s.(ioError := s.ioError) == s
  {
    hide StreamOk;
  }

  lemma OneStreamOk(s: State, name: Name)
    requires Inv(s)
    ensures StreamOk(s.Get(name), s.mode)
  {
    hide StreamOk;
  }

  lemma EofOk(t: Stream, mode: Mode)
    requires StreamOk(t, mode) && t.phase.Reading?
    ensures StreamOk(t.(complete := true, phase := Ended(Whole)), mode)
  {
  }

  lemma CancelOk(t: Stream, mode: Mode)
    requires StreamOk(t, mode) && !t.phase.Ended?
    ensures StreamOk(t.(phase := if t.phase.Reading? then Ended(Cancelled) else t.phase.(cancelled := true)), mode)
  {
    if mode.ToSink? && t.phase.Reading? {
      StoppedWriting(t, Cancelled);
    }
  }

  /** Every step of either reader keeps the invariant. */
  lemma StepOk(s: State, name: Name, a: Action)
    requires Inv(s)
    ensures Inv(Step(s, name, a))
  {
    hide Inv, OnRead, SinkStreamOk, OnWritten, OnClose;
    var t := s.Get(name);
    OneStreamOk(s, name);
    if s.report.None? {
      if t.phase.Writing? {
        WritingStepOk(s, name, a);
      } else {
        match a
        case Read(chunk) =>
          if t.phase.Reading? && chunk != [] {
            ReadOk(s, name, chunk);
          }
        case Eof =>
          if t.phase.Reading? {
            EofOk(t, s.mode);
            PutOk(s, name, t.(complete := true, phase := Ended(Whole)), s.ioError);
          }
        case Cancel =>
          if t.phase.Reading? {
            CancelOk(t, s.mode);
            PutOk(s, name, t.(phase := Ended(Cancelled)), s.ioError);
          }
        case Close(gathered, closeFails) =>
          if MayClose(s, gathered) {
            CloseOk(s, gathered, closeFails);
          }
        case _ =>
      }
    }
  }

  lemma WritingStepOk(s: State, name: Name, a: Action)
    requires Inv(s) && s.report.None? && s.Get(name).phase.Writing? && s.mode.ToSink? && SinkStreamOk(s.Get(name))
    ensures Inv(Step(s, name, a))
  {
    hide Inv, SinkStreamOk, OnWritten, OnClose, OnRead;
    var t := s.Get(name);
    var w := t.phase;
    match a
    case WriteSome(n) =>
      if 0 < n && w.written + n <= w.granted <= |w.chunk| {
        SomeWritten(t, n);
        PutOk(s, name, Step(s, name, a).Get(name), s.ioError);
      }
    case WriteFails =>
      StoppedWriting(t, Cancelled);
      StoppedWriting(t, SinkFailure);
      PutOk(s, name, t.(phase := Ended(Cancelled)), s.ioError);
      PutOk(s, name, t.(phase := Ended(SinkFailure)), true);
    case WriteEnds =>
      if w.written == w.granted <= |w.chunk| {
        WrittenOk(t);
        WrittenSame(t);
        PutOk(s, name, OnWritten(t, w), s.ioError);
      }
    case Cancel =>
      CancelOk(t, s.mode);
      PutOk(s, name, t.(phase := w.(cancelled := true)), s.ioError);
    case _ =>
  }

  lemma WrittenSame(t: Stream)
    requires t.phase.Writing? && t.phase.granted <= |t.phase.chunk|
    ensures OnWritten(t, t.phase).read == t.read && OnWritten(t, t.phase).total == t.total
  {
  }

  lemma CloseOk(s: State, gathered: bool, closeFails: bool)
    requires Inv(s) && s.report.None? && s.stdout.phase.Ended? && s.stderr.phase.Ended?
    ensures Inv(OnClose(s, gathered, closeFails))
  {
  }

  lemma StartOk(mode: Mode, max: nat)
    ensures Inv(Start(mode, max))
  {
    assert PreviewOf([]) == [];
  }

  /** The mode and the limit of a capture are fixed. */
  lemma StepFixed(s: State, name: Name, a: Action)
    ensures Step(s, name, a).mode == s.mode && Step(s, name, a).max == s.max
  {
  }

  lemma {:induction false} RunOk(mode: Mode, max: nat, schedule: Schedule)
    ensures Inv(Run(Start(mode, max), schedule)) && Run(Start(mode, max), schedule).mode == mode
    ensures Run(Start(mode, max), schedule).max == max
    decreases |schedule|
  {
    hide Inv, Step;
    if schedule == [] {
      StartOk(mode, max);
    } else {
      var k := |schedule| - 1;
      RunOk(mode, max, schedule[..k]);
      StepOk(Run(Start(mode, max), schedule[..k]), schedule[k].0, schedule[k].1);
      StepFixed(Run(Start(mode, max), schedule[..k]), schedule[k].0, schedule[k].1);
    }
  }

  /** The two readers together are granted exactly what fits the budget, in every
      interleaving; a reader stops at the limit only when the limit is exceeded. */
  lemma BudgetExact(mode: Mode, max: nat, schedule: Schedule)
    requires !mode.Diagnostic?
    ensures var s := Run(Start(mode, max), schedule);
            var read := |s.stdout.read| + |s.stderr.read|;
            && s.stdout.total + s.stderr.total == Min(max, read)
            && (mode.ToMemory? ==> |s.stdout.output| + |s.stderr.output| == Min(max, read))
            && |s.stdout.file| + |s.stderr.file| <= max
            && (s.stdout.phase == Ended(Limit) || s.stderr.phase == Ended(Limit) ==> max < read)
  {
    RunOk(mode, max, schedule);
  }

  /** Whatever was written stands at the start of the stream, and what is kept in
      memory at the start of that. */
  lemma FilesArePrefixes(max: nat, schedule: Schedule, name: Name)
    ensures var t := Run(Start(ToSink, max), schedule).Get(name);
            && t.file <= t.read && t.output <= t.file && |t.output| <= PREVIEW_BYTES
            && (t.phase.Reading? || t.phase == Ended(Whole) || t.phase == Ended(Limit) ==>
                  t.output == PreviewOf(t.file) && |t.file| == t.total)
  {
    RunOk(ToSink, max, schedule);
  }

  /** In memory the readers keep prefixes too. */
  lemma MemoryIsPrefix(max: nat, schedule: Schedule, name: Name)
    ensures var t := Run(Start(ToMemory, max), schedule).Get(name);
            t.output <= t.read && (t.phase == Ended(Whole) ==> t.output == t.read)
  {
    RunOk(ToMemory, max, schedule);
  }

  /** A stream reported complete is in its file from end to end, no write failed, and
      both streams together stayed within the limit. */
  lemma CompleteMeansAll(max: nat, schedule: Schedule)
    ensures var s := Run(Start(ToSink, max), schedule);
            s.report.Some? ==>
              var r := s.report.value;
              && (r.stdoutComplete ==> s.stdout.phase == Ended(Whole) && s.stdout.file == s.stdout.read)
              && (r.stderrComplete ==> s.stderr.phase == Ended(Whole) && s.stderr.file == s.stderr.read)
              && (r.stdoutComplete && r.stderrComplete ==> r.stdoutBytes + r.stderrBytes <= max)
              && (r.ioError ==> !r.stdoutComplete && !r.stderrComplete)
              && r.stdoutBytes == |s.stdout.file| && r.stderrBytes == |s.stderr.file|
  {
    RunOk(ToSink, max, schedule);
  }

  /** Diagnostics count every byte and keep the first ones. */
  lemma DiagnosticsCount(limit: nat, max: nat, schedule: Schedule, name: Name)
    ensures var t := Run(Start(Diagnostic(limit), max), schedule).Get(name);
            && t.observed == |t.read| && t.retained == Min(limit, t.observed) && t.output == t.read[..t.retained]
            && (t.complete ==> t.phase == Ended(Whole))
  {
    RunOk(Diagnostic(limit), max, schedule);
  }
}
