/**
 The repository's promises, over every interleaving of honest publishers and
 readers with crashes anywhere.
 */
module RepositoryTheorems {
  import opened RepositoryProtocol
  import opened RelativePaths
  import opened RepositorySafety
  import opened RepositoryCorruption

  /** Names are hashes, and evidence refers to what is there. */
  lemma VisibleIsVerified(prefix: Digest -> nat, s: State, schedule: Schedule)
    requires Initial(s) && HonestSchedule(schedule)
    ensures var store := Run(prefix, s, schedule).store;
            && (forall d <- store.artifacts :: Sha256(File(store.artifacts[d].payload)) == d)
            && (forall e <- store.evidence ::
                  && Sha256(Canonical(store.evidence[e].manifest.body)) == e
                  && Hashed(store.evidence[e].data) == store.evidence[e].manifest.body.data
                  && forall ref <- store.evidence[e].manifest.body.artifacts ::
                       ref.sha256 in store.artifacts && Hashed(store.artifacts[ref.sha256].payload) == ref)
  {
    InitialOk(prefix, s);
    RunKeeps(prefix, s, schedule);
    var store := Run(prefix, s, schedule).store;
    forall e <- store.evidence, ref <- store.evidence[e].manifest.body.artifacts
      ensures ref.sha256 in store.artifacts && Hashed(store.artifacts[ref.sha256].payload) == ref
    {
      assert ArtifactThere(store, ref);
    }
  }

  /** What was visible at any point of a run is there, unchanged, at every later one. */
  lemma VisibleForever(prefix: Digest -> nat, s: State, first: Schedule, second: Schedule)
    requires Initial(s) && HonestSchedule(first + second)
    ensures var before, after := Run(prefix, s, first).store, Run(prefix, s, first + second).store;
            && (forall d <- before.artifacts :: d in after.artifacts && after.artifacts[d] == before.artifacts[d])
            && (forall e <- before.evidence :: e in after.evidence && after.evidence[e] == before.evidence[e])
            && (before.metadata.Some? ==> after.metadata == before.metadata)
  {
    LaterGrows(prefix, s, first, second);
  }

  lemma Halves(first: Schedule, second: Schedule)
    requires HonestSchedule(first + second)
    ensures HonestSchedule(first) && HonestSchedule(second)
  {
    forall move <- first
      ensures move in first + second
    {
    }
    forall move <- second
      ensures move in first + second
    {
    }
  }

  lemma LaterGrows(prefix: Digest -> nat, s: State, first: Schedule, second: Schedule)
    requires Initial(s) && HonestSchedule(first + second)
    ensures Inv(prefix, Run(prefix, s, first))
    ensures Grows(Run(prefix, s, first).store, Run(prefix, s, first + second).store)
  {
    hide Inv, Grows, HonestSchedule;
    Halves(first, second);
    InitialOk(prefix, s);
    RunKeeps(prefix, s, first);
    RunKeeps(prefix, Run(prefix, s, first), second);
    RunJoin(prefix, s, first, second);
  }

  /** A call of preserve that returned has published: whatever happens afterwards,
      its manifest, its analysis and all of its sources are there. */
  lemma PublishedStays(prefix: Digest -> nat, s: State, first: Schedule, second: Schedule, p: nat, plan: Plan)
    requires Initial(s) && HonestSchedule(first + second)
    requires p < |Run(prefix, s, first).procs| && Run(prefix, s, first).procs[p] == Published(plan)
    ensures var store := Run(prefix, s, first + second).store;
            var name := PlanManifest(plan).evidenceId;
            && name in store.evidence && store.evidence[name] == EvidenceBundle(plan.analysis, PlanManifest(plan))
            && forall ref <- plan.refs :: ref.sha256 in store.artifacts && Hashed(store.artifacts[ref.sha256].payload) == ref
  {
    LaterGrows(prefix, s, first, second);
    var before, after := Run(prefix, s, first).store, Run(prefix, s, first + second).store;
    EvidenceStays(before, after, PlanManifest(plan));
    forall ref <- plan.refs
      ensures ref.sha256 in after.artifacts && Hashed(after.artifacts[ref.sha256].payload) == ref
    {
      assert ref in PlanManifest(plan).body.artifacts;
      assert ArtifactThere(after, ref);
    }
  }

  /** Metadata is written once, and no bundle is visible without it. */
  lemma MetadataFirst(prefix: Digest -> nat, s: State, schedule: Schedule)
    requires Initial(s) && HonestSchedule(schedule)
    ensures var store := Run(prefix, s, schedule).store;
            && (store.artifacts != map[] || store.evidence != map[] ==> store.metadata.Some?)
            && (store.metadata.Some? ==> forall d: Dir :: d in store.dirs)
  {
    InitialOk(prefix, s);
    RunKeeps(prefix, s, schedule);
    hide Run, Initial, HonestSchedule;
    OrderFirst(prefix, Run(prefix, s, schedule).store);
  }

  lemma OrderFirst(prefix: Digest -> nat, store: Store)
    requires OrderOk(prefix, store)
    ensures store.artifacts != map[] || store.evidence != map[] ==> store.metadata.Some?
    ensures store.metadata.Some? ==> forall d: Dir :: d in store.dirs
  {
    if store.artifacts != map[] {
      var d :| d in store.artifacts;
    }
    if store.evidence != map[] {
      var e :| e in store.evidence;
    }
    forall d: Dir
      ensures d in DIRS
    {
      EveryDir(d);
    }
  }

  lemma EveryDir(d: Dir)
    ensures d in DIRS
  {
    assert DIRS[0] == Root && DIRS[1] == Artifacts && DIRS[2] == ArtifactNames;
    assert DIRS[3] == Evidence && DIRS[4] == EvidenceNames && DIRS[5] == Staging;
  }

  function PhaseRank(store: Store, p: nat, phase: Phase): nat {
    match phase
    case Exists => 11
    case MakeStage => 10
    case Fill => if p in store.stages && store.stages[p].ArtifactStage? && Written(store.stages[p].payload) != "" then 8 else 9
    case Describe => 7
    case Check => 6
    case MakePrefix => 5
    case Rename => 4
    case LookBack => 3
    case CheckThere(_) => 2
    case Sweep => 1
  }

  /** Steps a publisher still needs when nobody disturbs it. */
  function Rank(store: Store, p: nat, plan: Plan, pc: PC): nat {
    var publishing := 12 * (|plan.refs| + 1);
    match pc
    case FindMetadata(_) => publishing + 17
    case FindRoot(_) => publishing + 16
    case ListArtifacts(_) => publishing + 15
    case ListEvidence(_) => publishing + 14
    case ListRoot(_) => publishing + 13
    case FindAgain(_) => publishing + 12
    case MakeDir(_, k) => if k <= 6 then publishing + 5 + (6 - k) else 0
    case WriteMetadata(_) => publishing + 4
    case LinkMetadata(_) => publishing + 3
    case UnlinkMetadata(_) => publishing + 2
    case CheckLayout(_) => publishing + 1
    case OnArtifact(_, k, phase) => if k < |plan.refs| then 12 * (|plan.refs| - k) + PhaseRank(store, p, phase) else 0
    case OnEvidence(_, phase) => PhaseRank(store, p, phase)
    case _ => 0
  }

  /** The process publishes this plan and has copied all of its current source or
      nothing of it. */
  predicate OnTrack(store: Store, p: nat, plan: Plan, pc: PC) {
    match pc
    case FindMetadata(goal) => goal == Publish(plan)
    case FindRoot(goal) => goal == Publish(plan)
    case ListArtifacts(goal) => goal == Publish(plan)
    case ListEvidence(goal) => goal == Publish(plan)
    case ListRoot(goal) => goal == Publish(plan)
    case FindAgain(goal) => goal == Publish(plan)
    case MakeDir(it, _) => it == plan
    case WriteMetadata(it) => it == plan
    case LinkMetadata(it) => it == plan
    case UnlinkMetadata(it) => it == plan
    case CheckLayout(it) => it == plan
    case OnArtifact(it, k, phase) =>
      && it == plan
      && (phase.Fill? && k < |plan.refs| && p in store.stages && store.stages[p].ArtifactStage? ==>
            Written(store.stages[p].payload) == "" || Hashed(Written(store.stages[p].payload)) == plan.refs[k])
    case OnEvidence(it, _) => it == plan
    case Published(it) => it == plan
    case _ => false
  }

  /** The move of a publisher whose sources are as it hashed them. */
  function Move(store: Store, p: nat, plan: Plan, pc: PC): Action {
    if pc.LinkMetadata? then Stamp("now")
    else if pc.OnArtifact? && pc.phase.Fill? && pc.index < |plan.refs| && plan.refs[pc.index].sha256.content.File? then
      if PhaseRank(store, p, Fill) == 9 && plan.refs[pc.index].size > 0 then Chunk(plan.refs[pc.index].sha256.content.bytes)
      else EndOfInput(false)
    else Go
  }

  lemma MoveProgress(prefix: Digest -> nat, store: Store, p: nat, plan: Plan, pc: PC)
    requires StoreOk(prefix, store) && ProcOk(prefix, store, p, pc) && OnTrack(store, p, plan, pc) && !pc.Published?
    ensures var next := Advance(prefix, store, p, pc, Move(store, p, plan, pc));
            next.pc != Failed(Corruption) ==>
              OnTrack(next.store, p, plan, next.pc) && Rank(next.store, p, plan, next.pc) < Rank(store, p, plan, pc)
  {
    hide StoreOk, EvidencePhaseOk, Behind, EvidenceThere, StagedEvidence, PlanManifest, ArtifactThere, StagedArtifact;
    if pc.OnArtifact? {
      assert plan.refs[pc.index] in plan.refs;
      ArtifactProgress(prefix, store, p, plan, pc.index, pc.phase);
    } else if pc.OnEvidence? {
      EvidenceProgress(prefix, store, p, plan, pc.phase);
    }
  }

  /** The copy of an unchanged source: one chunk if it is not empty, then its end. */
  lemma CopyMoves(store: Store, p: nat, plan: Plan, index: nat)
    requires index < |plan.refs| && p in store.stages && store.stages[p].ArtifactStage?
    requires plan.refs[index].sha256.content.File?
    requires plan.refs[index] == Hashed(plan.refs[index].sha256.content.bytes)
    requires var written := Written(store.stages[p].payload); written == "" || Hashed(written) == plan.refs[index]
    ensures var here := OnArtifact(plan, index, Fill);
            var next := CopyInput(store, p, plan.refs[index], plan, index, Move(store, p, plan, here));
            || next.pc == OnArtifact(plan, index, Describe)
            || (next.pc == here && OnTrack(next.store, p, plan, here)
                && PhaseRank(next.store, p, Fill) < PhaseRank(store, p, Fill))
  {
  }

  lemma FillProgress(prefix: Digest -> nat, store: Store, p: nat, plan: Plan, index: nat)
    requires ProcOk(prefix, store, p, OnArtifact(plan, index, Fill)) && OnTrack(store, p, plan, OnArtifact(plan, index, Fill))
    ensures var pc := OnArtifact(plan, index, Fill);
            var next := OneArtifact(prefix, store, p, plan, index, Fill, Move(store, p, plan, pc));
            next.pc != Failed(Corruption) ==>
              OnTrack(next.store, p, plan, next.pc) && Rank(next.store, p, plan, next.pc) < Rank(store, p, plan, pc)
  {
    assert plan.refs[index] in plan.refs;
    CopyMoves(store, p, plan, index);
    hide Behind, CopyInput, Move, Written, Honest;
  }

  lemma ArtifactProgress(prefix: Digest -> nat, store: Store, p: nat, plan: Plan, index: nat, phase: Phase)
    requires ProcOk(prefix, store, p, OnArtifact(plan, index, phase)) && OnTrack(store, p, plan, OnArtifact(plan, index, phase))
    ensures var pc := OnArtifact(plan, index, phase);
            var next := OneArtifact(prefix, store, p, plan, index, phase, Move(store, p, plan, pc));
            next.pc != Failed(Corruption) ==>
              OnTrack(next.store, p, plan, next.pc) && Rank(next.store, p, plan, next.pc) < Rank(store, p, plan, pc)
  {
    if phase.Fill? {
      FillProgress(prefix, store, p, plan, index);
    } else {
      hide Behind, ArtifactThere, ArtifactFits, StagedArtifact, WholeArtifact, CopyInput, Hashed, Honest, PlanManifest;
    }
  }

  lemma EvidenceProgress(prefix: Digest -> nat, store: Store, p: nat, plan: Plan, phase: Phase)
    requires ProcOk(prefix, store, p, OnEvidence(plan, phase))
    ensures var next := TheEvidence(prefix, store, p, plan, phase);
            next.pc != Failed(Corruption) ==>
              OnTrack(next.store, p, plan, next.pc) &&
              Rank(next.store, p, plan, next.pc) < Rank(store, p, plan, OnEvidence(plan, phase))
  {
    hide Behind, EvidenceThere, StagedEvidence, WholeEvidence, PlanManifest, Honest;
  }

  /** Process p moves on its own: no error, no crash, no new call. */
  predicate Alone(schedule: Schedule, p: nat) {
    forall move <- schedule :: move.0 == p && (move.1.Go? || move.1.Chunk? || move.1.EndOfInput? || move.1.Stamp?)
  }

  /** How a publisher ends that nobody disturbs: the manifest model decides. */
  function Outcome(plan: Plan): PC {
    if Accepts(plan.paths) then Published(plan) else Failed(Corruption)
  }

  /** From wherever the others have stopped or crashed, a publisher that is left alone
      and whose sources do not change publishes, if its paths may be held. */
  lemma {:induction false} LeftAlone(prefix: Digest -> nat, s: State, p: nat, plan: Plan) returns (schedule: Schedule)
    requires Inv(prefix, s) && p < |s.procs| && OnTrack(s.store, p, plan, s.procs[p])
    ensures Alone(schedule, p) && Run(prefix, s, schedule).procs == s.procs[p := Outcome(plan)]
    decreases Rank(s.store, p, plan, s.procs[p])
  {
    hide Inv, OnTrack, Rank, Advance, Move, Accepts, Reporting;
    if s.procs[p].Published? {
      schedule := [];
      AtEnd(prefix, s, p, plan);
    } else {
      var a := Move(s.store, p, plan, s.procs[p]);
      NotResting(s.store, p, plan, s.procs[p]);
      var s' := Step(prefix, s, p, a);
      StepKeeps(prefix, s, p, a);
      Moved(prefix, s, p, plan);
      if s'.procs[p] == Failed(Corruption) {
        schedule := [(p, a)];
        OneMove(prefix, s, p, a);
      } else {
        var rest := LeftAlone(prefix, s', p, plan);
        schedule := [(p, a)] + rest;
        RunJoin(prefix, s, [(p, a)], rest);
        OneMove(prefix, s, p, a);
      }
    }
  }

  lemma OneMove(prefix: Digest -> nat, s: State, p: nat, a: Action)
    ensures Run(prefix, s, [(p, a)]) == Step(prefix, s, p, a)
  {
    assert [(p, a)][..0] == [];
  }

  lemma AtEnd(prefix: Digest -> nat, s: State, p: nat, plan: Plan)
    requires Inv(prefix, s) && p < |s.procs| && OnTrack(s.store, p, plan, s.procs[p]) && s.procs[p].Published?
    ensures s.procs[p] == Outcome(plan)
  {
    assert ProcOk(prefix, s.store, p, s.procs[p]);
  }

  lemma NotResting(store: Store, p: nat, plan: Plan, pc: PC)
    requires OnTrack(store, p, plan, pc) && !pc.Published?
    ensures !Resting(pc) && !pc.Crashed?
    ensures var a := Move(store, p, plan, pc); a.Go? || a.Chunk? || a.EndOfInput? || a.Stamp?
  {
  }

  /** One move of a publisher left alone: on it goes, unless its manifest is rejected. */
  lemma Moved(prefix: Digest -> nat, s: State, p: nat, plan: Plan)
    requires Inv(prefix, s) && p < |s.procs| && OnTrack(s.store, p, plan, s.procs[p]) && !s.procs[p].Published?
    requires var a := Move(s.store, p, plan, s.procs[p]); a.Go? || a.Chunk? || a.EndOfInput? || a.Stamp?
    requires !Resting(s.procs[p]) && !s.procs[p].Crashed?
    ensures var s' := Step(prefix, s, p, Move(s.store, p, plan, s.procs[p]));
            && |s'.procs| == |s.procs| && s'.procs == s.procs[p := s'.procs[p]]
            && (s'.procs[p] == Failed(Corruption) ==> !Accepts(plan.paths))
            && (s'.procs[p] != Failed(Corruption) ==>
                  && OnTrack(s'.store, p, plan, s'.procs[p])
                  && Rank(s'.store, p, plan, s'.procs[p]) < Rank(s.store, p, plan, s.procs[p]))
  {
    hide StoreOk, Rank, Advance, Move, Accepts;
    assert StoreOk(prefix, s.store) && ProcOk(prefix, s.store, p, s.procs[p]);
    hide ProcOk;
    MoveProgress(prefix, s.store, p, plan, s.procs[p]);
    AdvanceReports(prefix, s.store, p, s.procs[p], Move(s.store, p, plan, s.procs[p]));
  }

  /** In every reachable state a resting process can begin to publish; left alone it
      finishes, and it has published exactly if the manifest model accepts its paths. */
  lemma CanPublish(prefix: Digest -> nat, s: State, first: Schedule, p: nat, plan: Plan) returns (second: Schedule)
    requires Initial(s) && HonestSchedule(first) && Honest(plan)
    requires p < |Run(prefix, s, first).procs| && Resting(Run(prefix, s, first).procs[p])
    ensures Alone(second, p)
    ensures var s' := Run(prefix, s, first + ([(p, Begin(Publish(plan)))] + second));
            p < |s'.procs| && s'.procs[p] == if Accepts(plan.paths) then Published(plan) else Failed(Corruption)
  {
    hide Inv, Honest, HonestSchedule, Grows, Initial, Accepts;
    InitialOk(prefix, s);
    RunKeeps(prefix, s, first);
    var s1 := Run(prefix, s, first);
    var begin := Begin(Publish(plan));
    StepKeeps(prefix, s1, p, begin);
    var s2 := Step(prefix, s1, p, begin);
    second := LeftAlone(prefix, s2, p, plan);
    OneMove(prefix, s1, p, begin);
    RunJoin(prefix, s1, [(p, begin)], second);
    RunJoin(prefix, s, first, [(p, begin)] + second);
  }

  /** Two names that a listing can find and no manifest may hold. */
  lemma UnportableNames()
    ensures FromListing("a\\b") && !MayBeHeld("a\\b")
    ensures FromListing("C:x") && !MayBeHeld("C:x")
  {
    OnePart("a\\b");
    OnePart("C:x");
  }

  /** An honest publisher of a directory with a file named a\b reports corruption
      although no read ever fails. */
  lemma UnportableReported(prefix: Digest -> nat, plan: Plan) returns (schedule: Schedule)
    requires Honest(plan) && plan.paths == ["a\\b"]
    ensures Initial(NOTHING) && HonestSchedule(schedule) && ReadsSucceed(schedule)
    ensures Run(prefix, NOTHING, schedule).procs == [Failed(Corruption)]
  {
    hide Honest, Run, MayBeHeld;
    UnportableNames();
    assert plan.paths[0] in plan.paths;
    assert Run(prefix, NOTHING, []) == NOTHING by {
      NoMove(prefix);
    }
    var second := CanPublish(prefix, NOTHING, [], 0, plan);
    schedule := [] + ([(0, Begin(Publish(plan)))] + second);
    SameProcesses(prefix, NOTHING, schedule);
  }

  lemma NoMove(prefix: Digest -> nat)
    ensures Run(prefix, NOTHING, []) == NOTHING
  {
  }

  lemma {:induction false} OnePart(name: string)
    requires '/' !in name
    ensures Parts(name) == [name]
  {
    if name != "" {
      assert name[0] in name && name == [name[0]] + name[1..];
      forall c <- name[1..]
        ensures c in name
      {
      }
      OnePart(name[1..]);
    }
  }

  /** Evidence has one identity exactly if it has the same artifacts, paths, analysis and
      provenance: the identity tells every part of a plan from every other. */
  lemma SameIdentity(a: Plan, b: Plan)
    ensures PlanManifest(a).evidenceId == PlanManifest(b).evidenceId <==>
            a.refs == b.refs && a.paths == b.paths && a.analysis == b.analysis && a.rest == b.rest
  {
  }

  /** The root directory never shows anything but the three directories and, once
      written, the metadata: its temporary file lies elsewhere. */
  lemma OnlyMetadataInRoot(prefix: Digest -> nat, s: State, schedule: Schedule)
    requires Initial(s) && HonestSchedule(schedule)
    ensures var store := Run(prefix, s, schedule).store;
            && RootNames(store) <= {"artifacts", "evidence", ".staging", "repository.json"}
            && (Stranger(store) <==> store.metadata.Some?)
            && ("artifacts" in RootNames(store) <==> Artifacts in store.dirs)
            && ("evidence" in RootNames(store) <==> Evidence in store.dirs)
            && (".staging" in RootNames(store) <==> Staging in store.dirs)
            && ("repository.json" in RootNames(store) <==> store.metadata.Some?)
  {
    InitialOk(prefix, s);
    RunKeeps(prefix, s, schedule);
    hide Run, Initial, HonestSchedule;
    OnlyMetadata(prefix, Run(prefix, s, schedule).store);
  }
}
