/**
 What a call ends in, over every interleaving: it serves the goal it began with, and
 a reader is told whether there is a repository.
 */
module RepositoryReaders {
  import opened Results
  import opened RepositoryProtocol
  import opened RepositorySafety
  import opened RepositoryCorruption
  import opened RepositoryTheorems

  /** What a process is about, unless it rests without a result or has crashed. */
  function GoalOf(pc: PC): Option<Goal> {
    match pc
    case FindMetadata(goal) => Some(goal)
    case FindRoot(goal) => Some(goal)
    case ListArtifacts(goal) => Some(goal)
    case ListEvidence(goal) => Some(goal)
    case ListRoot(goal) => Some(goal)
    case FindAgain(goal) => Some(goal)
    case MakeDir(plan, _) => Some(Publish(plan))
    case WriteMetadata(plan) => Some(Publish(plan))
    case LinkMetadata(plan) => Some(Publish(plan))
    case UnlinkMetadata(plan) => Some(Publish(plan))
    case CheckLayout(plan) => Some(Publish(plan))
    case OnArtifact(plan, _, _) => Some(Publish(plan))
    case OnEvidence(plan, _) => Some(Publish(plan))
    case Published(plan) => Some(Publish(plan))
    case Opened => Some(Look)
    case Absent => Some(Look)
    case Idle => None
    case Failed(_) => None
    case Crashed => None
  }

  /** Move k of a run begins a call of process p. */
  predicate Starts(prefix: Digest -> nat, s: State, schedule: Schedule, p: nat, k: nat) {
    && k < |schedule| && schedule[k].0 == p && schedule[k].1.Begin?
    && p < |Run(prefix, s, schedule[..k]).procs| && Resting(Run(prefix, s, schedule[..k]).procs[p])
  }

  /** It begins the call that process p is in, or the last it was in. */
  predicate StartsLast(prefix: Digest -> nat, s: State, schedule: Schedule, p: nat, k: nat) {
    Starts(prefix, s, schedule, p, k) && forall j | k < j < |schedule| :: !Starts(prefix, s, schedule, p, j)
  }

  lemma StartsBefore(prefix: Digest -> nat, s: State, schedule: Schedule, p: nat, k: nat)
    requires StartsLast(prefix, s, schedule, p, k) && k < |schedule| - 1
    ensures StartsLast(prefix, s, schedule[..|schedule| - 1], p, k)
  {
    hide Run;
    var front := schedule[..|schedule| - 1];
    assert front[..k] == schedule[..k];
    forall j | k < j < |front|
      ensures !Starts(prefix, s, front, p, j)
    {
      assert front[..j] == schedule[..j] && !Starts(prefix, s, schedule, p, j);
    }
  }

  lemma AdvanceServes(prefix: Digest -> nat, store: Store, p: nat, pc: PC, a: Action, goal: Goal)
    requires GoalOf(pc) == Some(goal) && !Resting(pc)
    ensures var next := Advance(prefix, store, p, pc, a).pc; next.Failed? || GoalOf(next) == Some(goal)
  {
    hide StagedArtifact, StagedEvidence, ArtifactThere, EvidenceThere, WholeArtifact, WholeEvidence, Stranger, LayoutThere;
  }

  /** A call keeps its goal: a publisher ends as the publisher of its own plan, and a
      reader as a reader. */
  lemma {:induction false} CallServes(prefix: Digest -> nat, s: State, schedule: Schedule, p: nat, k: nat)
    requires StartsLast(prefix, s, schedule, p, k)
    ensures |Run(prefix, s, schedule).procs| == |s.procs| && p < |s.procs|
    ensures var pc := Run(prefix, s, schedule).procs[p];
            pc.Failed? || pc.Crashed? || GoalOf(pc) == Some(schedule[k].1.goal)
    decreases |schedule|
  {
    hide GoalOf, Advance, StartsLast, Starts;
    LastMove(prefix, s, schedule, p, k);
    var n := |schedule| - 1;
    if k < n {
      StartsBefore(prefix, s, schedule, p, k);
      CallServes(prefix, s, schedule[..n], p, k);
      ServedOn(prefix, Run(prefix, s, schedule[..n]), schedule[n].0, schedule[n].1, p, schedule[k].1.goal);
    }
  }

  lemma LastMove(prefix: Digest -> nat, s: State, schedule: Schedule, p: nat, k: nat)
    requires StartsLast(prefix, s, schedule, p, k)
    ensures k < |schedule| && p < |s.procs| && |Run(prefix, s, schedule[..|schedule| - 1]).procs| == |s.procs|
    ensures |Run(prefix, s, schedule).procs| == |s.procs|
    ensures k == |schedule| - 1 ==> Run(prefix, s, schedule).procs[p] == FindMetadata(schedule[k].1.goal)
    ensures var n := |schedule| - 1;
            k < n && schedule[n].0 == p && schedule[n].1.Begin? ==> !Resting(Run(prefix, s, schedule[..n]).procs[p])
    ensures schedule[k].1.Begin?
    ensures GoalOf(FindMetadata(schedule[k].1.goal)) == Some(schedule[k].1.goal)
  {
    SameProcesses(prefix, s, schedule[..k]);
    SameProcesses(prefix, s, schedule[..|schedule| - 1]);
    SameProcesses(prefix, s, schedule);
    hide Resting;
    var n := |schedule| - 1;
    if k < n {
      assert !Starts(prefix, s, schedule, p, n);
    }
  }

  lemma ServedOn(prefix: Digest -> nat, s: State, q: nat, a: Action, p: nat, goal: Goal)
    requires p < |s.procs|
    requires var pc := s.procs[p]; pc.Failed? || pc.Crashed? || GoalOf(pc) == Some(goal)
    requires q == p && a.Begin? ==> !Resting(s.procs[p])
    ensures var pc := Step(prefix, s, q, a).procs[p]; pc.Failed? || pc.Crashed? || GoalOf(pc) == Some(goal)
  {
    hide GoalOf, Advance;
    if q == p && GoalOf(s.procs[p]) == Some(goal) && !Resting(s.procs[p]) {
      AdvanceServes(prefix, s.store, p, s.procs[p], a, goal);
    }
  }

  /** A reader that has not found the metadata so far. */
  predicate Missing(pc: PC) {
    || pc == Absent
    || ((pc.FindRoot? || pc.ListArtifacts? || pc.ListEvidence? || pc.ListRoot? || pc.FindAgain?) && pc.goal == Look)
  }

  lemma StepMissing(prefix: Digest -> nat, s: State, q: nat, a: Action, p: nat)
    requires p < |s.procs| && Missing(Step(prefix, s, q, a).procs[p])
    ensures Missing(s.procs[p]) || (q == p && s.procs[p] == FindMetadata(Look) && s.store.metadata.None?)
  {
    hide OneArtifact, TheEvidence, Stranger, LayoutThere;
    var pc := s.procs[p];
    if q == p && !pc.Crashed? && (pc.OnArtifact? || pc.OnEvidence?) && !Missing(pc) {
      AdvanceServes(prefix, s.store, p, pc, a, Publish(pc.plan));
    }
  }

  /** A reader that was told there is no repository looked for the metadata, after its
      call began, where there was none. */
  lemma {:induction false} AbsentMeans(prefix: Digest -> nat, s: State, schedule: Schedule, p: nat, k: nat) returns (j: nat)
    requires StartsLast(prefix, s, schedule, p, k) && p < |s.procs|
    requires |Run(prefix, s, schedule).procs| == |s.procs| && Missing(Run(prefix, s, schedule).procs[p])
    ensures k < j < |schedule| && schedule[j].0 == p && Run(prefix, s, schedule[..j]).store.metadata.None?
    decreases |schedule|
  {
    hide StartsLast, Starts, Step, Missing;
    LastMove(prefix, s, schedule, p, k);
    var n := |schedule| - 1;
    NotMissing(schedule[k].1.goal);
    assert k < n;
    StartsBefore(prefix, s, schedule, p, k);
    var before := Run(prefix, s, schedule[..n]);
    StepMissing(prefix, before, schedule[n].0, schedule[n].1, p);
    if Missing(before.procs[p]) {
      j := AbsentMeans(prefix, s, schedule[..n], p, k);
      assert schedule[..n][..j] == schedule[..j];
    } else {
      j := n;
    }
  }

  lemma NotMissing(goal: Goal)
    ensures !Missing(FindMetadata(goal))
  {
  }

  /** Metadata that was visible when a call began is found by it. */
  lemma NeverAbsent(prefix: Digest -> nat, s: State, schedule: Schedule, p: nat, k: nat)
    requires Initial(s) && HonestSchedule(schedule) && StartsLast(prefix, s, schedule, p, k)
    requires Run(prefix, s, schedule[..k]).store.metadata.Some?
    ensures p < |Run(prefix, s, schedule).procs| && Run(prefix, s, schedule).procs[p] != Absent
  {
    hide Run, Initial, StartsLast;
    SameProcesses(prefix, s, schedule);
    LastMove(prefix, s, schedule, p, k);
    if Run(prefix, s, schedule).procs[p] == Absent {
      var j := AbsentMeans(prefix, s, schedule, p, k);
      assert schedule[..j] == schedule[..k] + schedule[k..j];
      HonestFront(schedule, j);
      VisibleForever(prefix, s, schedule[..k], schedule[k..j]);
      assert false;
    }
  }

  /** Every call has a beginning. */
  lemma {:induction false} Started(prefix: Digest -> nat, s: State, schedule: Schedule, p: nat) returns (k: nat)
    requires Initial(s) && p < |s.procs| && |Run(prefix, s, schedule).procs| == |s.procs|
    requires var pc := Run(prefix, s, schedule).procs[p]; !pc.Idle? && !pc.Crashed?
    ensures StartsLast(prefix, s, schedule, p, k)
    decreases |schedule|
  {
    hide Initial, Advance, Resting;
    if schedule == [] {
      InitialIdle(s, p);
      assert false;
    } else {
      var n := |schedule| - 1;
      var front := schedule[..n];
      SameProcesses(prefix, s, front);
      if Starts(prefix, s, schedule, p, n) {
        k := n;
      } else {
        StillIdle(prefix, Run(prefix, s, front), schedule[n].0, schedule[n].1, p);
        k := Started(prefix, s, front, p);
        assert front[..k] == schedule[..k];
        forall j | k < j < |schedule|
          ensures !Starts(prefix, s, schedule, p, j)
        {
          if j < n {
            assert front[..j] == schedule[..j] && !Starts(prefix, s, front, p, j);
          }
        }
      }
    }
  }

  lemma InitialIdle(s: State, p: nat)
    requires Initial(s) && p < |s.procs|
    ensures s.procs[p] == Idle
  {
    assert s.procs[p] in s.procs;
  }

  lemma StillIdle(prefix: Digest -> nat, s: State, q: nat, a: Action, p: nat)
    requires p < |s.procs| && !(q == p && a.Begin? && Resting(s.procs[p]))
    ensures s.procs[p].Crashed? ==> Step(prefix, s, q, a).procs[p].Crashed?
    ensures s.procs[p].Idle? ==> Step(prefix, s, q, a).procs[p].Idle? || Step(prefix, s, q, a).procs[p].Crashed?
  {
    hide Advance;
  }

  /** Whatever a process is about, or ended in, is the goal its last call began with. */
  lemma ResultOf(prefix: Digest -> nat, s: State, schedule: Schedule, p: nat) returns (k: nat)
    requires Initial(s) && p < |s.procs| && |Run(prefix, s, schedule).procs| == |s.procs|
    requires GoalOf(Run(prefix, s, schedule).procs[p]).Some?
    ensures StartsLast(prefix, s, schedule, p, k)
    ensures GoalOf(Run(prefix, s, schedule).procs[p]) == Some(schedule[k].1.goal)
  {
    k := Started(prefix, s, schedule, p);
    CallServes(prefix, s, schedule, p, k);
    hide Run, StartsLast, Initial;
  }

  /** What a reader may rely on, whatever the others did meanwhile: it is told of a
      repository only where there is one, and of none only if its own look, made since
      its call began, met a store without metadata. */
  lemma ReaderTold(prefix: Digest -> nat, s: State, schedule: Schedule, p: nat)
    requires Initial(s) && HonestSchedule(schedule) && p < |s.procs|
    ensures |Run(prefix, s, schedule).procs| == |s.procs|
    ensures var now := Run(prefix, s, schedule);
            && (now.procs[p] == Opened ==> now.store.metadata.Some?)
            && (now.procs[p] == Absent ==>
                  exists k: nat, j: nat ::
                    && StartsLast(prefix, s, schedule, p, k) && schedule[k].1.goal == Look
                    && k < j < |schedule| && schedule[j].0 == p
                    && Run(prefix, s, schedule[..j]).store.metadata.None?)
  {
    hide Initial, Run, StartsLast;
    SameProcesses(prefix, s, schedule);
    InitialOk(prefix, s);
    RunKeeps(prefix, s, schedule);
    var now := Run(prefix, s, schedule);
    assert ProcOk(prefix, now.store, p, now.procs[p]);
    if now.procs[p] == Absent {
      var k := ResultOf(prefix, s, schedule, p);
      LastMove(prefix, s, schedule, p, k);
      var j := AbsentMeans(prefix, s, schedule, p, k);
    }
  }

  /** How far a reader still has to go. */
  function Distance(pc: PC): nat {
    match pc
    case FindMetadata(_) => 5
    case FindRoot(_) => 4
    case ListArtifacts(_) => 3
    case ListEvidence(_) => 2
    case ListRoot(_) => 1
    case _ => 0
  }

  /** Where a reader left alone stands after n moves. */
  predicate OnTheWay(store: Store, pc: PC, n: nat) {
    if store.metadata.Some? then pc == if n == 0 then FindMetadata(Look) else Opened
    else
      || pc == Absent
      || (GoalOf(pc) == Some(Look) && !Resting(pc) && !pc.FindAgain? && Distance(pc) + n <= 5)
  }

  lemma LookMove(prefix: Digest -> nat, s: State, p: nat, a: Action, n: nat)
    requires StoreOk(prefix, s.store) && p < |s.procs| && OnTheWay(s.store, s.procs[p], n)
    requires a.Go? || a.Chunk? || a.EndOfInput? || a.Stamp?
    ensures var s' := Step(prefix, s, p, a);
            && |s'.procs| == |s.procs| && s'.store == s.store && s'.procs == s.procs[p := s'.procs[p]]
            && OnTheWay(s.store, s'.procs[p], n + 1)
  {
    OnlyMetadata(prefix, s.store);
    hide BundlesOk, RootNames, Stranger, OneArtifact, TheEvidence;
  }

  lemma {:induction false} LookAlone(prefix: Digest -> nat, s: State, p: nat, moves: Schedule)
    requires StoreOk(prefix, s.store) && p < |s.procs| && s.procs[p] == FindMetadata(Look)
    requires Alone(moves, p)
    ensures var s' := Run(prefix, s, moves);
            && |s'.procs| == |s.procs| && s'.store == s.store && s'.procs == s.procs[p := s'.procs[p]]
            && OnTheWay(s.store, s'.procs[p], |moves|)
    decreases |moves|
  {
    hide StoreOk, Step;
    if moves != [] {
      var n := |moves| - 1;
      assert moves[n] in moves;
      forall move <- moves[..n]
        ensures move in moves
      {
      }
      LookAlone(prefix, s, p, moves[..n]);
      LookMove(prefix, Run(prefix, s, moves[..n]), p, moves[n].1, n);
    }
  }

  /** In every reachable state a reader left alone is answered after five moves of its
      own: the repository is there exactly if its metadata is. */
  lemma LookAnswers(prefix: Digest -> nat, s: State, first: Schedule, p: nat, moves: Schedule)
    requires Initial(s) && HonestSchedule(first) && Alone(moves, p) && |moves| >= 5
    requires p < |Run(prefix, s, first).procs| && Resting(Run(prefix, s, first).procs[p])
    ensures var before, after := Run(prefix, s, first), Run(prefix, s, first + ([(p, Begin(Look))] + moves));
            && after.store == before.store
            && after.procs == before.procs[p := if before.store.metadata.Some? then Opened else Absent]
  {
    hide Initial, StoreOk, Advance;
    InitialOk(prefix, s);
    RunKeeps(prefix, s, first);
    var before := Run(prefix, s, first);
    RunJoin(prefix, s, first, [(p, Begin(Look))] + moves);
    RunJoin(prefix, before, [(p, Begin(Look))], moves);
    OneMove(prefix, before, p, Begin(Look));
    var begun := before.(procs := before.procs[p := FindMetadata(Look)]);
    assert Step(prefix, before, p, Begin(Look)) == begun;
    LookAlone(prefix, begun, p, moves);
  }
}
