/**
 When a publisher or a reader reports corruption: exactly when a read of what it
 validates fails, or the manifest model rejects the paths of its own manifest.
 */
module RepositoryCorruption {
  import opened Results
  import opened RepositoryProtocol
  import opened RepositorySafety

  /** The process has staged a manifest that the manifest model rejects. */
  predicate Rejecting(pc: PC) {
    pc.OnEvidence? && pc.phase.Check? && !Accepts(pc.plan.paths)
  }

  lemma InitializeReports(prefix: Digest -> nat, store: Store, p: nat, pc: PC, a: Action)
    requires StoreOk(prefix, store) && ProcOk(prefix, store, p, pc) && !Resting(pc) && !pc.Crashed?
    requires !pc.OnArtifact? && !pc.OnEvidence?
    ensures Initialize(store, p, pc, a).pc != Failed(Corruption)
  {
    hide BundlesOk, Honest, RootNames, Stranger;
  }

  lemma ArtifactReports(prefix: Digest -> nat, store: Store, p: nat, plan: Plan, index: nat, phase: Phase, a: Action)
    requires ProcOk(prefix, store, p, OnArtifact(plan, index, phase))
    ensures OneArtifact(prefix, store, p, plan, index, phase, a).pc != Failed(Corruption)
  {
    hide Behind, Honest, ArtifactFits, PlanManifest;
  }

  lemma EvidenceReports(prefix: Digest -> nat, store: Store, p: nat, plan: Plan, phase: Phase)
    requires ProcOk(prefix, store, p, OnEvidence(plan, phase))
    ensures TheEvidence(prefix, store, p, plan, phase).pc == Failed(Corruption) <==> phase.Check? && !Accepts(plan.paths)
  {
    hide Behind, Honest, EvidenceFits, PlanManifest, StagedEvidence, EvidenceThere, Accepts;
    if phase.Check? {
      StageComplete(store, p, plan);
    }
  }

  lemma AdvanceReports(prefix: Digest -> nat, store: Store, p: nat, pc: PC, a: Action)
    requires StoreOk(prefix, store) && ProcOk(prefix, store, p, pc) && !Resting(pc) && !pc.Crashed?
    ensures Advance(prefix, store, p, pc, a).pc == Failed(Corruption) <==> Rejecting(pc)
  {
    hide StoreOk, ProcOk, Accepts;
    match pc
    case OnArtifact(plan, index, phase) => ArtifactReports(prefix, store, p, plan, index, phase, a);
    case OnEvidence(plan, phase) => EvidenceReports(prefix, store, p, plan, phase);
    case _ => InitializeReports(prefix, store, p, pc, a);
  }

  /** The process checks the repository's layout, a bundle it staged, or one it found. */
  predicate ReadsBack(pc: PC) {
    match pc
    case CheckLayout(_) => true
    case OnArtifact(_, _, Check) => true
    case OnArtifact(_, _, CheckThere(_)) => true
    case OnEvidence(_, Check) => true
    case OnEvidence(_, CheckThere(_)) => true
    case _ => false
  }

  /** A move that makes its process report corruption, told by where the process
      stands: a read fails while it validates, or it is about to parse a manifest
      that the manifest model rejects. */
  predicate Reporting(s: State, p: nat, a: Action) {
    && p < |s.procs| && !s.procs[p].Crashed? && !Resting(s.procs[p])
    && match a
       case IoError(reading) => reading && ReadsBack(s.procs[p])
       case Crash => false
       case Clean(_) => false
       case Begin(_) => false
       case _ => Rejecting(s.procs[p])
  }

  /** A report stands until its process begins anew or crashes. */
  lemma StepReports(prefix: Digest -> nat, s: State, p: nat, a: Action, q: nat)
    requires Inv(prefix, s) && q < |s.procs|
    ensures |Step(prefix, s, p, a).procs| == |s.procs|
    ensures Step(prefix, s, p, a).procs[q] == Failed(Corruption) <==>
            if p == q && Reporting(s, p, a) then true
            else s.procs[q] == Failed(Corruption) && !(p == q && (a.Begin? || a.Crash?))
  {
    hide StoreOk, ProcOk, Advance, Rejecting;
    if p < |s.procs| && !s.procs[p].Crashed? && !Resting(s.procs[p]) {
      AdvanceReports(prefix, s.store, p, s.procs[p], a);
    }
  }

  /** Move k of a run makes process q report corruption for good. */
  predicate ReportedAt(prefix: Digest -> nat, s: State, schedule: Schedule, q: nat, k: nat) {
    && k < |schedule| && schedule[k].0 == q && Reporting(Run(prefix, s, schedule[..k]), q, schedule[k].1)
    && forall j | k < j < |schedule| && schedule[j].0 == q :: !schedule[j].1.Begin? && !schedule[j].1.Crash?
  }

  lemma {:induction false} SameProcesses(prefix: Digest -> nat, s: State, schedule: Schedule)
    ensures |Run(prefix, s, schedule).procs| == |s.procs|
    decreases |schedule|
  {
    hide Advance;
    if schedule != [] {
      SameProcesses(prefix, s, schedule[..|schedule| - 1]);
    }
  }

  lemma HonestFront(schedule: Schedule, n: nat)
    requires HonestSchedule(schedule) && n <= |schedule|
    ensures HonestSchedule(schedule[..n])
  {
    forall move <- schedule[..n]
      ensures move in schedule
    {
    }
  }

  /** In every run a process ends up reporting corruption if and only if one of its
      moves struck a read of its validation or met a manifest the model rejects. */
  lemma {:induction false} CorruptExactly(prefix: Digest -> nat, s: State, schedule: Schedule, q: nat)
    requires Initial(s) && HonestSchedule(schedule) && q < |s.procs|
    ensures |Run(prefix, s, schedule).procs| == |s.procs|
    ensures Run(prefix, s, schedule).procs[q] == Failed(Corruption) <==>
            exists k: nat :: ReportedAt(prefix, s, schedule, q, k)
    decreases |schedule|
  {
    hide Inv, Reporting, Step, HonestSchedule, Grows;
    SameProcesses(prefix, s, schedule);
    if schedule == [] {
      assert s.procs[q] in s.procs;
    } else {
      var n := |schedule| - 1;
      var front := schedule[..n];
      var (p, a) := schedule[n];
      HonestFront(schedule, n);
      CorruptExactly(prefix, s, front, q);
      var before := Run(prefix, s, front);
      InitialOk(prefix, s);
      RunKeeps(prefix, s, front);
      StepReports(prefix, before, p, a, q);
      if p == q && Reporting(before, p, a) {
        assert ReportedAt(prefix, s, schedule, q, n);
      } else {
        ReportedLonger(prefix, s, schedule, q);
      }
    }
  }

  lemma ReportedLonger(prefix: Digest -> nat, s: State, schedule: Schedule, q: nat)
    requires schedule != []
    requires var n := |schedule| - 1; !(schedule[n].0 == q && Reporting(Run(prefix, s, schedule[..n]), q, schedule[n].1))
    ensures var n := |schedule| - 1;
            (exists k: nat :: ReportedAt(prefix, s, schedule, q, k)) <==>
            (exists k: nat :: ReportedAt(prefix, s, schedule[..n], q, k))
            && !(schedule[n].0 == q && (schedule[n].1.Begin? || schedule[n].1.Crash?))
  {
    hide Reporting, Run;
    var n := |schedule| - 1;
    var front := schedule[..n];
    forall k: nat | k < n
      ensures front[..k] == schedule[..k]
    {
    }
    if k: nat :| ReportedAt(prefix, s, schedule, q, k) {
      assert k < n;
      assert ReportedAt(prefix, s, front, q, k);
    }
    if k: nat :| ReportedAt(prefix, s, front, q, k) && !(schedule[n].0 == q && (schedule[n].1.Begin? || schedule[n].1.Crash?)) {
      forall j | k < j < |schedule| && schedule[j].0 == q
        ensures !schedule[j].1.Begin? && !schedule[j].1.Crash?
      {
        if j < n {
          assert front[j] == schedule[j];
        }
      }
      assert ReportedAt(prefix, s, schedule, q, k);
    }
  }

  /** No read fails while its reader validates. */
  predicate ReadsSucceed(schedule: Schedule) {
    forall move <- schedule :: move.1 != IoError(true)
  }

  /** Publishers bring paths that a manifest may hold. */
  predicate Portable(schedule: Schedule) {
    forall move <- schedule :: move.1.Begin? && move.1.goal.Publish? ==> Accepts(move.1.goal.plan.paths)
  }

  /** What a process is publishing. */
  function Planned(pc: PC): Option<Plan> {
    match pc
    case FindMetadata(goal) => Wanted(goal)
    case FindRoot(goal) => Wanted(goal)
    case ListArtifacts(goal) => Wanted(goal)
    case ListEvidence(goal) => Wanted(goal)
    case ListRoot(goal) => Wanted(goal)
    case FindAgain(goal) => Wanted(goal)
    case MakeDir(plan, _) => Some(plan)
    case WriteMetadata(plan) => Some(plan)
    case LinkMetadata(plan) => Some(plan)
    case UnlinkMetadata(plan) => Some(plan)
    case CheckLayout(plan) => Some(plan)
    case OnArtifact(plan, _, _) => Some(plan)
    case OnEvidence(plan, _) => Some(plan)
    case _ => None
  }

  function Wanted(goal: Goal): Option<Plan> {
    match goal
    case Publish(plan) => Some(plan)
    case Look => None
  }

  lemma InitializePlanned(store: Store, p: nat, pc: PC, a: Action)
    ensures Planned(Initialize(store, p, pc, a).pc) in {None, Planned(pc)}
  {
    hide LayoutThere, Stranger;
  }

  lemma ArtifactPlanned(prefix: Digest -> nat, store: Store, p: nat, plan: Plan, index: nat, phase: Phase, a: Action)
    ensures Planned(OneArtifact(prefix, store, p, plan, index, phase, a).pc) in {None, Some(plan)}
  {
    hide StagedArtifact, ArtifactThere, WholeArtifact;
    if !phase.Fill? {
      hide CopyInput;
    }
  }

  lemma EvidencePlanned(prefix: Digest -> nat, store: Store, p: nat, plan: Plan, phase: Phase)
    ensures Planned(TheEvidence(prefix, store, p, plan, phase).pc) in {None, Some(plan)}
  {
    hide StagedEvidence, EvidenceThere, WholeEvidence, PlanManifest;
  }

  lemma AdvancePlanned(prefix: Digest -> nat, store: Store, p: nat, pc: PC, a: Action)
    ensures Planned(Advance(prefix, store, p, pc, a).pc) in {None, Planned(pc)}
  {
    hide Initialize, OneArtifact, TheEvidence;
    match pc
    case OnArtifact(plan, index, phase) => ArtifactPlanned(prefix, store, p, plan, index, phase, a);
    case OnEvidence(plan, phase) => EvidencePlanned(prefix, store, p, plan, phase);
    case _ => InitializePlanned(store, p, pc, a);
  }

  /** Plans are those that publishers brought. */
  lemma {:induction false} PlannedPortable(prefix: Digest -> nat, s: State, schedule: Schedule, q: nat)
    requires Initial(s) && Portable(schedule) && q < |s.procs|
    ensures |Run(prefix, s, schedule).procs| == |s.procs|
    ensures var planned := Planned(Run(prefix, s, schedule).procs[q]); planned.Some? ==> Accepts(planned.value.paths)
    decreases |schedule|
  {
    hide Advance, Accepts;
    if schedule == [] {
      assert s.procs[q] in s.procs;
    } else {
      var n := |schedule| - 1;
      forall move <- schedule[..n]
        ensures move in schedule
      {
      }
      PlannedPortable(prefix, s, schedule[..n], q);
      var before := Run(prefix, s, schedule[..n]);
      assert schedule[n] in schedule;
      AdvancePlanned(prefix, before.store, q, before.procs[q], schedule[n].1);
    }
  }

  /** Where reads succeed and paths are portable, neither initialize nor any validation
      ever reports corruption, whatever the interleaving and wherever others crash. */
  lemma NeverCorrupt(prefix: Digest -> nat, s: State, schedule: Schedule)
    requires Initial(s) && HonestSchedule(schedule) && ReadsSucceed(schedule) && Portable(schedule)
    ensures forall q: nat | q < |Run(prefix, s, schedule).procs| ::
              Run(prefix, s, schedule).procs[q] != Failed(Corruption)
  {
    hide Run, Accepts;
    SameProcesses(prefix, s, schedule);
    forall q: nat | q < |s.procs|
      ensures Run(prefix, s, schedule).procs[q] != Failed(Corruption)
    {
      CorruptExactly(prefix, s, schedule, q);
      if k: nat :| ReportedAt(prefix, s, schedule, q, k) {
        assert schedule[k] in schedule;
        forall move <- schedule[..k]
          ensures move in schedule
        {
        }
        PlannedPortable(prefix, s, schedule[..k], q);
        assert false;
      }
    }
  }

  /** initialize itself never reports corruption unless the read of the metadata
      fails: not for its listings, and not for paths it knows nothing of. */
  lemma InitializeNeverCorrupt(prefix: Digest -> nat, s: State, schedule: Schedule, q: nat, a: Action)
    requires Initial(s) && HonestSchedule(schedule) && q < |s.procs|
    ensures |Run(prefix, s, schedule).procs| == |s.procs|
    ensures var before := Run(prefix, s, schedule);
            var pc := before.procs[q];
            !Resting(pc) && !pc.Crashed? && !pc.OnArtifact? && !pc.OnEvidence? ==>
              (Step(prefix, before, q, a).procs[q] == Failed(Corruption) <==> pc.CheckLayout? && a == IoError(true))
  {
    hide Inv, Run, Step, HonestSchedule, Grows, Initial;
    SameProcesses(prefix, s, schedule);
    InitialOk(prefix, s);
    RunKeeps(prefix, s, schedule);
    StepReports(prefix, Run(prefix, s, schedule), q, a, q);
  }

  lemma RunMore(prefix: Digest -> nat, s: State, schedule: Schedule, p: nat, a: Action)
    ensures Run(prefix, s, schedule + [(p, a)]) == Step(prefix, Run(prefix, s, schedule), p, a)
  {
    assert (schedule + [(p, a)])[..|schedule|] == schedule;
  }

  /** No repository, and one process. */
  const NOTHING := State(Store({}, None, {}, {}, map[], map[], map[], map[]), [Idle])

  function Moves(n: nat): Schedule {
    if n == 0 then [] else Moves(n - 1) + [(0, Go)]
  }

  lemma {:induction false} MovesGo(n: nat)
    ensures forall move <- Moves(n) :: move == (0, Go)
  {
    if n > 0 {
      MovesGo(n - 1);
    }
  }

  /** One move of a single process inside initialize. */
  lemma SingleMove(prefix: Digest -> nat, schedule: Schedule, pc: PC, a: Action) returns (longer: Schedule)
    requires Run(prefix, NOTHING, schedule).procs == [pc] && !Resting(pc)
    requires !pc.Crashed? && !pc.OnArtifact? && !pc.OnEvidence? && (a.Go? || a.Stamp?)
    ensures var before := Run(prefix, NOTHING, schedule);
            var next := Initialize(before.store, 0, pc, a);
            longer == schedule + [(0, a)] && Run(prefix, NOTHING, longer) == State(next.store, [next.pc])
  {
    hide Run, Initialize;
    RunMore(prefix, NOTHING, schedule, 0, a);
    longer := schedule + [(0, a)];
  }

  lemma {:induction false} DirsByOne(prefix: Digest -> nat, plan: Plan, schedule: Schedule, n: nat)
    requires n <= |DIRS| && Run(prefix, NOTHING, schedule).procs == [MakeDir(plan, 0)]
    ensures Run(prefix, NOTHING, schedule + Moves(n)).procs == [MakeDir(plan, n)]
  {
    hide Run, Step;
    if n == 0 {
      assert schedule + Moves(0) == schedule;
    } else {
      DirsByOne(prefix, plan, schedule, n - 1);
      assert schedule + Moves(n) == (schedule + Moves(n - 1)) + [(0, Go)];
      var longer := SingleMove(prefix, schedule + Moves(n - 1), MakeDir(plan, n - 1), Go);
    }
  }

  lemma Begun(prefix: Digest -> nat, plan: Plan) returns (schedule: Schedule)
    ensures schedule == [(0, Begin(Publish(plan))), (0, Go), (0, Go)]
    ensures Run(prefix, NOTHING, schedule).procs == [MakeDir(plan, 0)]
  {
    var begin: Schedule := [(0, Begin(Publish(plan)))];
    RunMore(prefix, NOTHING, [], 0, Begin(Publish(plan)));
    assert [] + begin == begin;
    assert Run(prefix, NOTHING, begin) == State(NOTHING.store, [FindMetadata(Publish(plan))]);
    hide Run, Step;
    var looked := SingleMove(prefix, begin, FindMetadata(Publish(plan)), Go);
    schedule := SingleMove(prefix, looked, FindRoot(Publish(plan)), Go);
  }

  lemma MetadataWritten(prefix: Digest -> nat, plan: Plan, made: Schedule) returns (schedule: Schedule)
    requires Run(prefix, NOTHING, made).procs == [MakeDir(plan, |DIRS|)]
    ensures Run(prefix, NOTHING, schedule).procs == [CheckLayout(plan)]
    ensures schedule == made + [(0, Go), (0, Go), (0, Stamp("now")), (0, Go)]
  {
    hide Run, Step;
    var known := SingleMove(prefix, made, MakeDir(plan, |DIRS|), Go);
    var written := SingleMove(prefix, known, WriteMetadata(plan), Go);
    var linked := SingleMove(prefix, written, LinkMetadata(plan), Stamp("now"));
    schedule := SingleMove(prefix, linked, UnlinkMetadata(plan), Go);
  }

  lemma StruckThere(prefix: Digest -> nat, plan: Plan, s: State)
    requires s.procs == [CheckLayout(plan)]
    ensures Step(prefix, s, 0, IoError(true)).procs == [Failed(Corruption)]
  {
  }

  /** A single publisher, the first there ever was: the read of the metadata it has
      just written fails, and it reports corruption. */
  lemma ReadErrorReported(prefix: Digest -> nat, plan: Plan) returns (schedule: Schedule)
    requires Honest(plan) && Accepts(plan.paths)
    ensures Initial(NOTHING) && HonestSchedule(schedule) && Portable(schedule)
    ensures Run(prefix, NOTHING, schedule).procs == [Failed(Corruption)]
  {
    hide Honest, Accepts, Run, Step;
    var begun := Begun(prefix, plan);
    DirsByOne(prefix, plan, begun, |DIRS|);
    var made := begun + Moves(|DIRS|);
    var written := MetadataWritten(prefix, plan, made);
    RunMore(prefix, NOTHING, written, 0, IoError(true));
    StruckThere(prefix, plan, Run(prefix, NOTHING, written));
    schedule := written + [(0, IoError(true))];
    MovesGo(|DIRS|);
    forall move <- schedule
      ensures move == (0, Begin(Publish(plan))) || !move.1.Begin?
    {
      assert move in begun || move in Moves(|DIRS|) || !move.1.Begin?;
    }
  }
}
