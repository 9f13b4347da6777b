/**
 What the readers have taken, and that a reader left alone comes to its end.
 */
module OutputProgress {
  import opened Results
  import opened OutputProtocol
  import opened OutputReport

  /** The chunks a reader took while it was reading, in order. */
  function Taken(s: State, schedule: Schedule, name: Name): Bytes {
    if schedule == [] then []
    else
      var k := |schedule| - 1;
      var before := Run(s, schedule[..k]);
      Taken(s, schedule[..k], name)
      + match schedule[k].1
        case Read(chunk) =>
          if schedule[k].0 == name && before.report.None? && before.Get(name).phase.Reading? then chunk else []
        case _ => []
  }

  lemma StepReads(s: State, q: Name, a: Action, name: Name)
    ensures Step(s, q, a).Get(name).read
         == s.Get(name).read + match a
                               case Read(chunk) => if q == name && s.report.None? && s.Get(name).phase.Reading? then chunk else []
                               case _ => []
  {
    assert forall b: Bytes :: b + [] == b;
  }

  /** Nothing is taken from a stream but what its reader read, and nothing is lost. */
  lemma {:induction false} ReadsExactly(mode: Mode, max: nat, schedule: Schedule, name: Name)
    ensures Run(Start(mode, max), schedule).Get(name).read == Taken(Start(mode, max), schedule, name)
    decreases |schedule|
  {
    hide Step;
    if schedule != [] {
      var k := |schedule| - 1;
      ReadsExactly(mode, max, schedule[..k], name);
      StepReads(Run(Start(mode, max), schedule[..k]), schedule[k].0, schedule[k].1, name);
    }
  }

  /** How a reader ends that nobody disturbs any more. */
  function Outcome(t: Stream): End {
    match t.phase
    case Reading => Whole
    case Writing(_, _, exceeded, _, cancelled) => if cancelled then Cancelled else if exceeded then Limit else Whole
    case Ended(end) => end
  }

  /** The rest of a pending write, its end, and the end of the stream. */
  function Remaining(name: Name, t: Stream): Schedule {
    match t.phase
    case Reading => [(name, Eof)]
    case Writing(_, granted, exceeded, written, cancelled) =>
      (if written < granted then [(name, WriteSome(granted - written))] else [])
      + [(name, WriteEnds)] + if cancelled || exceeded then [] else [(name, Eof)]
    case Ended(_) => []
  }

  lemma OneStep(s: State, name: Name, a: Action)
    ensures Run(s, [(name, a)]) == Step(s, name, a) && Run(s, []) == s
  {
    assert [(name, a)][..0] == [];
  }

  lemma {:induction false} Joined(s: State, first: Schedule, second: Schedule)
    ensures Run(s, first + second) == Run(Run(s, first), second)
    decreases |second|
  {
    hide Step;
    if second == [] {
      assert first + second == first;
    } else {
      var k := |second| - 1;
      Joined(s, first, second[..k]);
      assert (first + second)[..|first| + k] == first + second[..k];
    }
  }

  lemma WriteFinishes(s: State, name: Name)
    requires s.report.None? && s.Get(name).phase.Writing?
    requires var w := s.Get(name).phase; w.written <= w.granted <= |w.chunk|
    ensures var w := s.Get(name).phase;
            var moves := (if w.written < w.granted then [(name, WriteSome(w.granted - w.written))] else []) + [(name, WriteEnds)];
            var s' := Run(s, moves);
            && s'.report.None?
            && s'.Get(name).phase == if w.cancelled then Ended(Cancelled) else if w.exceeded then Ended(Limit) else Reading
  {
    hide Run;
    var w := s.Get(name).phase;
    if w.written < w.granted {
      var a := WriteSome(w.granted - w.written);
      OneStep(s, name, a);
      OneStep(Step(s, name, a), name, WriteEnds);
      Joined(s, [(name, a)], [(name, WriteEnds)]);
      assert Step(s, name, a).Get(name).phase == w.(written := w.granted);
    } else {
      OneStep(s, name, WriteEnds);
      assert [] + [(name, WriteEnds)] == [(name, WriteEnds)];
    }
  }

  /** In every reachable state, in front of the close, a reader that is left alone ends:
      cancelled if it was cancelled, at the limit if its chunk exceeded it, and otherwise
      with the whole of its stream. */
  lemma ComesToItsEnd(mode: Mode, max: nat, schedule: Schedule, name: Name)
    requires Run(Start(mode, max), schedule).report.None?
    ensures var s := Run(Start(mode, max), schedule);
            Run(Start(mode, max), schedule + Remaining(name, s.Get(name))).Get(name).phase == Ended(Outcome(s.Get(name)))
  {
    var s := Run(Start(mode, max), schedule);
    RunOk(mode, max, schedule);
    OneStreamOk(s, name);
    Joined(Start(mode, max), schedule, Remaining(name, s.Get(name)));
    PendingOk(s, name);
    hide *;
    EndOf(s, name);
  }

  lemma PendingOk(s: State, name: Name)
    requires StreamOk(s.Get(name), s.mode)
    ensures s.Get(name).phase.Writing? ==> var w := s.Get(name).phase; w.written <= w.granted <= |w.chunk|
  {
  }

  lemma EndOf(s: State, name: Name)
    requires s.report.None?
    requires s.Get(name).phase.Writing? ==> var w := s.Get(name).phase; w.written <= w.granted <= |w.chunk|
    ensures Run(s, Remaining(name, s.Get(name))).Get(name).phase == Ended(Outcome(s.Get(name)))
  {
    hide Run;
    var t := s.Get(name);
    OneStep(s, name, Eof);
    if t.phase.Writing? {
      WriteFinishes(s, name);
      var w := t.phase;
      var moves := (if w.written < w.granted then [(name, WriteSome(w.granted - w.written))] else []) + [(name, WriteEnds)];
      if w.cancelled || w.exceeded {
        assert moves + [] == moves;
      } else {
        Joined(s, moves, [(name, Eof)]);
        OneStep(Run(s, moves), name, Eof);
      }
    }
  }
}
