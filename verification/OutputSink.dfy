/**
 The mutable objects behind the protocol: the shared budget, the sink with its loop
 of partial writes, and the diagnostic counters.
 */
module OutputSink {
  import opened OutputProtocol

  /** The budget of both readers, with what has been taken from it and granted. */
  class OutputBudget {
    const limit: nat
    var remaining: int
    ghost var taken: nat
    ghost var granted: nat

    ghost predicate Valid()
      reads this
    {
      remaining == limit - taken && granted == Min(limit, taken)
    }

    constructor (limit: nat)
      ensures Valid() && this.limit == limit && taken == 0
    {
      this.limit, remaining, taken, granted := limit, limit, 0, 0;
    }

    /** Takes the bytes even when they exceed the budget, and says whether all that was
        ever taken does. */
    method Consume(byteCount: nat) returns (exceeded: bool)
      requires remaining == limit - taken
      modifies this`remaining, this`taken
      ensures remaining == limit - taken && taken == old(taken) + byteCount
      ensures exceeded <==> taken > limit
    {
      remaining := remaining - byteCount;
      taken := taken + byteCount;
      exceeded := remaining < 0;
    }

    /** One chunk of either reader.  Whoever takes how much in whatever order, what was
        granted in all is the smaller of the limit and what was taken in all. */
    method Take(byteCount: nat) returns (retained: nat, exceeded: bool)
      requires Valid()
      modifies this
      ensures Valid() && taken == old(taken) + byteCount && granted == old(granted) + retained
      ensures exceeded <==> taken > limit
      ensures retained == byteCount || (exceeded && granted == limit)
    {
      retained := Granted(byteCount, remaining);
      exceeded := Consume(byteCount);
      granted := granted + retained;
    }
  }

  /** How many of length bytes arrive when the raw stream takes at most accepts[0]
      bytes, then accepts[1], and so on; a zero, or the end, is a failing write. */
  function Arrive(length: nat, accepts: seq<nat>): (n: nat)
    ensures n <= length
    decreases |accepts|
  {
    if length == 0 || accepts == [] || accepts[0] == 0 then 0
    else
      var k := Min(length, accepts[0]);
      k + Arrive(length - k, accepts[1..])
  }

  lemma ArriveNext(length: nat, accepts: seq<nat>)
    ensures length == 0 || accepts == [] || accepts[0] == 0 ==> Arrive(length, accepts) == 0
    ensures length > 0 && accepts != [] && accepts[0] > 0 ==>
              var k := Min(length, accepts[0]); Arrive(length, accepts) == k + Arrive(length - k, accepts[1..])
  {
  }

  lemma NothingYet(files: map<Name, Bytes>, name: Name, content: Bytes)
    requires name in files
    ensures files == files[name := files[name] + content[..0]]
  {
    assert files[name] + content[..0] == files[name];
  }

  /** The counts are the lengths of the files. */
  ghost predicate Counted(files: map<Name, Bytes>, bytes: map<Name, nat>) {
    (forall n: Name :: n in files && n in bytes) && forall n: Name :: bytes[n] == |files[n]|
  }

  lemma CountedMore(files: map<Name, Bytes>, bytes: map<Name, nat>, name: Name, more: Bytes)
    requires Counted(files, bytes)
    ensures name in files && name in bytes
    ensures Counted(files[name := files[name] + more], bytes[name := bytes[name] + |more|])
  {
  }

  lemma NextPiece(files: map<Name, Bytes>, name: Name, before: Bytes, content: Bytes, w: nat, k: nat)
    requires w + k <= |content|
    ensures var there := files[name := before + content[..w]];
            there[name := there[name] + content[w..w + k]] == files[name := before + content[..w + k]]
  {
    TwoPieces(before, content, 0, w, k);
  }

  class AsyncOutputSink {
    var files: map<Name, Bytes>
    var bytes: map<Name, nat>
    var previewBytes: map<Name, nat>
    var complete: map<Name, bool>
    var ioError: bool

    ghost predicate Valid()
      reads this
    {
      Counted(files, bytes) && forall n: Name :: n in previewBytes && n in complete
    }

    /** The sink is what a state of the protocol says of it. */
    ghost predicate Mirrors(s: State)
      reads this
    {
      && Valid() && ioError == s.ioError
      && forall n: Name :: files[n] == s.Get(n).file && complete[n] == s.Get(n).complete
    }

    constructor ()
      ensures Valid() && forall n: Name :: files[n] == [] && !complete[n]
      ensures !ioError
    {
      files := map[Stdout := [], Stderr := []];
      bytes := map[Stdout := 0, Stderr := 0];
      previewBytes := map[Stdout := 0, Stderr := 0];
      complete := map[Stdout := false, Stderr := false];
      ioError := false;
      new;
      forall n: Name
        ensures n in files && n in bytes && n in previewBytes && n in complete
      {
        match n
        case Stdout =>
        case Stderr =>
      }
    }

    /** The loop over partial writes.  However the raw stream behaves, a prefix of
        the content arrives, its length is counted, and the loop succeeds only with
        the whole of it. */
    method Write(name: Name, content: Bytes, accepts: seq<nat>) returns (ok: bool)
      requires Valid()
      modifies this
      ensures Valid()
      ensures var n := Arrive(|content|, accepts);
              files == old(files)[name := old(files[name]) + content[..n]] && (ok <==> n == |content|)
      ensures previewBytes == old(previewBytes) && complete == old(complete) && ioError == old(ioError)
    {
      hide Arrive, Counted;
      CountedMore(files, bytes, name, []);
      ghost var start, before := files, files[name];
      var written: nat := 0;
      var calls: nat := 0;
      NothingYet(start, name, content);
      assert accepts[0..] == accepts;
      while written < |content|
        invariant written <= |content| && calls <= |accepts| && Counted(files, bytes)
        invariant files == start[name := before + content[..written]]
        invariant written + Arrive(|content| - written, accepts[calls..]) == Arrive(|content|, accepts)
        invariant previewBytes == old(previewBytes) && complete == old(complete) && ioError == old(ioError)
        decreases |accepts| - calls
      {
        ArriveNext(|content| - written, accepts[calls..]);
        if calls == |accepts| || accepts[calls] == 0 {
          return false;
        }
        var taken: nat := Min(|content| - written, accepts[calls]);
        assert accepts[calls..][1..] == accepts[calls + 1..];
        var piece := content[written..written + taken];
        NextPiece(start, name, before, content, written, taken);
        CountedMore(files, bytes, name, piece);
        files := files[name := files[name] + piece];
        bytes := bytes[name := bytes[name] + taken];
        written := written + taken;
        calls := calls + 1;
      }
      ArriveNext(0, accepts[calls..]);
      return true;
    }

    /** write_async: a failing write that nobody cancelled is remembered. */
    method WriteAsync(name: Name, content: Bytes, accepts: seq<nat>) returns (ok: bool)
      requires Valid()
      modifies this
      ensures Valid() && (ioError <==> old(ioError) || !ok)
      ensures var n := Arrive(|content|, accepts);
              files == old(files)[name := old(files[name]) + content[..n]] && (ok <==> n == |content|)
      ensures previewBytes == old(previewBytes) && complete == old(complete)
    {
      ok := Write(name, content, accepts);
      if !ok {
        ioError := true;
      }
    }

    method Finish(name: Name, whole: bool, preview: nat)
      requires Valid()
      modifies this`complete, this`previewBytes
      ensures Valid()
      ensures complete == old(complete)[name := whole] && previewBytes == old(previewBytes)[name := preview]
    {
      complete := complete[name := whole];
      previewBytes := previewBytes[name := preview];
    }

    method MarkIncomplete()
      requires Valid()
      modifies this`complete
      ensures Valid() && forall n: Name :: !complete[n]
    {
      complete := map[Stdout := false, Stderr := false];
      forall n: Name
        ensures n in complete && !complete[n]
      {
        match n
        case Stdout =>
        case Stderr =>
      }
    }

    /** No stream is reported complete once any write or close has failed. */
    method Close(stdoutCloses: bool, stderrCloses: bool) returns (report: Report)
      requires Valid()
      modifies this`ioError
      ensures Valid() && (ioError <==> old(ioError) || !stdoutCloses || !stderrCloses)
      ensures report.ioError == ioError
      ensures report.stdoutBytes == |files[Stdout]| && report.stderrBytes == |files[Stderr]|
      ensures report.stdoutComplete <==> complete[Stdout] && !ioError
      ensures report.stderrComplete <==> complete[Stderr] && !ioError
      ensures forall s: State :: old(Mirrors(s)) ==>
                report == OnClose(s, true, !stdoutCloses || !stderrCloses).report.value
    {
      assert forall s: State :: Mirrors(s) ==> s.Get(Stdout) == s.stdout && s.Get(Stderr) == s.stderr;
      if !stdoutCloses {
        ioError := true;
      }
      if !stderrCloses {
        ioError := true;
      }
      report := Report(bytes[Stdout], bytes[Stderr], complete[Stdout] && !ioError, complete[Stderr] && !ioError, ioError);
    }

    /** Where the execution failed: nothing is reported complete, and what arrived is
        still counted to the byte. */
    method GiveUp(stdoutCloses: bool, stderrCloses: bool) returns (report: Report)
      requires Valid()
      modifies this`complete, this`ioError
      ensures Valid() && !report.stdoutComplete && !report.stderrComplete && report.ioError == ioError
      ensures report.stdoutBytes == |files[Stdout]| && report.stderrBytes == |files[Stderr]|
      ensures forall s: State :: old(Mirrors(s)) ==>
                report == OnClose(s, false, !stdoutCloses || !stderrCloses).report.value
    {
      assert forall s: State :: Mirrors(s) ==> s.Get(Stdout) == s.stdout && s.Get(Stderr) == s.stderr;
      MarkIncomplete();
      report := Close(stdoutCloses, stderrCloses);
    }
  }

  /** The partial writes of one call, as steps of the protocol. */
  function WriteSteps(name: Name, length: nat, accepts: seq<nat>): Schedule
    decreases |accepts|
  {
    if length == 0 || accepts == [] || accepts[0] == 0 then []
    else
      var k := Min(length, accepts[0]);
      [(name, WriteSome(k))] + WriteSteps(name, length - k, accepts[1..])
  }

  lemma {:induction false} RunFirst(s: State, move: (Name, Action), rest: Schedule)
    ensures Run(s, [move] + rest) == Run(Step(s, move.0, move.1), rest)
    decreases |rest|
  {
    hide Step;
    if rest == [] {
      assert [move] + rest == [move] && [move][..0] == [];
      assert Run(s, [move]) == Step(Run(s, []), move.0, move.1);
    } else {
      var k := |rest| - 1;
      RunFirst(s, move, rest[..k]);
      assert ([move] + rest)[..|rest|] == [move] + rest[..k];
    }
  }

  /** A stream whose pending write has got n bytes further. */
  function Wrote(t: Stream, n: nat): Stream
    requires CanWrite(t, n)
  {
    var w := t.phase;
    t.(file := t.file + w.chunk[w.written..w.written + n], phase := w.(written := w.written + n))
  }

  predicate CanWrite(t: Stream, n: nat) {
    t.phase.Writing? && t.phase.written + n <= t.phase.granted <= |t.phase.chunk|
  }

  /** The sink's write loop does to the file what the protocol's steps do. */
  lemma {:induction false} WriteIsSteps(s: State, name: Name, accepts: seq<nat>)
    requires s.report.None? && CanWrite(s.Get(name), 0)
    ensures var length := s.Get(name).phase.granted - s.Get(name).phase.written;
            var n := Arrive(length, accepts);
            Run(s, WriteSteps(name, length, accepts)) == s.Put(name, Wrote(s.Get(name), n))
    decreases |accepts|
  {
    hide Step, Run, Arrive, WriteSteps, Wrote;
    var t := s.Get(name);
    var length := t.phase.granted - t.phase.written;
    ArriveNext(length, accepts);
    StepsNext(name, length, accepts);
    if length == 0 || accepts == [] || accepts[0] == 0 {
      NothingWritten(t);
      NoSteps(s, name, t);
    } else {
      var k := Min(length, accepts[0]);
      OneWrite(s, name, k);
      var s' := Step(s, name, WriteSome(k));
      Onwards(t, k);
      WriteIsSteps(s', name, accepts[1..]);
      var n := Arrive(length - k, accepts[1..]);
      RunFirst(s, (name, WriteSome(k)), WriteSteps(name, length - k, accepts[1..]));
      WroteTwice(t, k, n);
    }
  }

  lemma Onwards(t: Stream, k: nat)
    requires CanWrite(t, k)
    ensures Wrote(t, k).phase == t.phase.(written := t.phase.written + k) && CanWrite(Wrote(t, k), 0)
  {
  }

  lemma NothingWritten(t: Stream)
    requires CanWrite(t, 0)
    ensures Wrote(t, 0) == t
  {
    assert t.file + t.phase.chunk[t.phase.written..t.phase.written] == t.file;
  }

  lemma WroteTwice(t: Stream, k: nat, n: nat)
    requires CanWrite(t, k + n)
    ensures CanWrite(Wrote(t, k), n) && Wrote(Wrote(t, k), n) == Wrote(t, k + n)
  {
    TwoPieces(t.file, t.phase.chunk, t.phase.written, k, n);
  }

  lemma StepsNext(name: Name, length: nat, accepts: seq<nat>)
    ensures length == 0 || accepts == [] || accepts[0] == 0 ==> WriteSteps(name, length, accepts) == []
    ensures length > 0 && accepts != [] && accepts[0] > 0 ==>
              var k := Min(length, accepts[0]);
              WriteSteps(name, length, accepts) == [(name, WriteSome(k))] + WriteSteps(name, length - k, accepts[1..])
  {
  }

  lemma NoSteps(s: State, name: Name, t: Stream)
    requires t == s.Get(name)
    ensures Run(s, []) == s == s.Put(name, t)
  {
  }

  lemma OneWrite(s: State, name: Name, k: nat)
    requires s.report.None? && 0 < k && CanWrite(s.Get(name), k)
    ensures Step(s, name, WriteSome(k)) == s.Put(name, Wrote(s.Get(name), k))
  {
  }

  lemma TwoPieces(file: Bytes, chunk: Bytes, w: nat, k: nat, n: nat)
    requires w + k + n <= |chunk|
    ensures (file + chunk[w..w + k]) + chunk[w + k..w + k + n] == file + chunk[w..w + k + n]
  {
  }

  /** Observed, retained and omitted bytes of the two streams. */
  datatype DiagnosticOutput = DiagnosticOutput(observed: map<Name, nat>, retained: map<Name, nat>, omitted: map<Name, int>, complete: map<Name, bool>)

  class DiagnosticOutputState {
    const limit: nat
    var observed: map<Name, nat>
    var retained: map<Name, nat>
    var complete: map<Name, bool>

    ghost predicate Valid()
      reads this
    {
      && (forall n: Name :: n in observed && n in retained && n in complete)
      && (forall n: Name :: retained[n] == Min(limit, observed[n]))
    }

    constructor (limit: nat)
      ensures Valid() && this.limit == limit
      ensures forall n: Name :: observed[n] == 0 && !complete[n]
    {
      this.limit := limit;
      observed := map[Stdout := 0, Stderr := 0];
      retained := map[Stdout := 0, Stderr := 0];
      complete := map[Stdout := false, Stderr := false];
      new;
      forall n: Name
        ensures n in observed && n in retained && n in complete && observed[n] == retained[n] == 0 && !complete[n]
      {
        match n
        case Stdout =>
        case Stderr =>
      }
    }

    method Record(name: Name, size: nat, kept: nat)
      requires Valid() && kept == Granted(size, limit - retained[name])
      modifies this`observed, this`retained
      ensures Valid()
      ensures observed == old(observed)[name := old(observed[name]) + size]
      ensures retained == old(retained)[name := old(retained[name]) + kept]
    {
      observed := observed[name := observed[name] + size];
      retained := retained[name := retained[name] + kept];
    }

    method Finish(name: Name, whole: bool)
      requires Valid()
      modifies this`complete
      ensures Valid() && complete == old(complete)[name := old(complete[name]) || whole]
    {
      complete := complete[name := complete[name] || whole];
    }

    /** The counts always satisfy observed = retained + omitted, none negative. */
    method Snapshot() returns (r: DiagnosticOutput)
      requires Valid()
      ensures forall n: Name ::
                && n in r.observed && n in r.retained && n in r.omitted && n in r.complete
                && r.observed[n] == observed[n] && r.retained[n] == Min(limit, observed[n])
                && r.omitted[n] >= 0 && r.observed[n] == r.retained[n] + r.omitted[n]
                && r.complete[n] == complete[n]
    {
      var omitted := map[Stdout := observed[Stdout] - retained[Stdout], Stderr := observed[Stderr] - retained[Stderr]];
      r := DiagnosticOutput(observed, retained, omitted, complete);
      forall n: Name
        ensures n in omitted && omitted[n] == observed[n] - retained[n]
      {
        match n
        case Stdout =>
        case Stderr =>
      }
    }
  }

  function Flatten(chunks: seq<Bytes>): Bytes {
    if chunks == [] then [] else chunks[0] + Flatten(chunks[1..])
  }

  lemma {:induction false} FlattenMore(chunks: seq<Bytes>, i: nat)
    requires i < |chunks|
    ensures Flatten(chunks[..i + 1]) == Flatten(chunks[..i]) + chunks[i]
  {
    if i == 0 {
      assert chunks[..1] == [chunks[0]] && chunks[..0] == [];
      assert [chunks[0]][1..] == [];
    } else {
      FlattenMore(chunks[1..], i - 1);
      assert chunks[..i + 1][1..] == chunks[1..][..i] && chunks[..i][1..] == chunks[1..][..i - 1];
    }
  }

  /** One chunk of a diagnostic stream. */
  method RecordChunk(state: DiagnosticOutputState, name: Name, chunk: Bytes, output: Bytes, ghost read: Bytes) returns (more: Bytes)
    requires state.Valid() && state.observed[name] == |read| && output == read[..Min(state.limit, |read|)]
    modifies state`observed, state`retained
    ensures state.Valid() && state.observed == old(state.observed)[name := |read + chunk|]
    ensures more == (read + chunk)[..Min(state.limit, |read + chunk|)]
  {
    var kept := Granted(|chunk|, state.limit - |output|);
    PrefixGrows(read, chunk, state.limit);
    state.Record(name, |chunk|, kept);
    more := output + chunk[..kept];
  }

  /** The diagnostic branch of the read loop, to the end of the stream or to a
      cancellation behind some of its chunks. */
  method ReadDiagnostics(state: DiagnosticOutputState, name: Name, chunks: seq<Bytes>, cancelled: bool) returns (output: Bytes)
    requires state.Valid() && state.observed[name] == 0
    modifies state
    ensures state.Valid()
    ensures output == Flatten(chunks)[..Min(state.limit, |Flatten(chunks)|)]
    ensures state.observed == old(state.observed)[name := |Flatten(chunks)|] && state.retained[name] == |output|
    ensures state.complete == old(state.complete)[name := old(state.complete[name]) || !cancelled]
  {
    hide Flatten, Granted;
    output := [];
    NothingFlat(chunks);
    for i := 0 to |chunks|
      invariant state.Valid() && state.complete == old(state.complete)
      invariant state.observed == old(state.observed)[name := |Flatten(chunks[..i])|]
      invariant output == Flatten(chunks[..i])[..Min(state.limit, |Flatten(chunks[..i])|)]
    {
      FlattenMore(chunks, i);
      output := RecordChunk(state, name, chunks[i], output, Flatten(chunks[..i]));
    }
    assert chunks[..|chunks|] == chunks;
    state.Finish(name, !cancelled);
  }

  lemma NothingFlat(chunks: seq<Bytes>)
    ensures Flatten(chunks[..0]) == []
  {
  }

  lemma PrefixGrows(before: Bytes, chunk: Bytes, limit: nat)
    ensures var output := before[..Min(limit, |before|)];
            output + chunk[..Granted(|chunk|, limit - |output|)] == (before + chunk)[..Min(limit, |before + chunk|)]
  {
    if |before| >= limit {
      assert (before + chunk)[..limit] == before[..limit] && chunk[..0] == [];
    }
  }
}
