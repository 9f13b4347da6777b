/**
 What every run of the repository protocol keeps: visible bundles hash to their own
 names and stay as they are, and no publisher or reader ever sees corruption.
 */
module RepositorySafety {
  import opened Results
  import opened RepositoryProtocol

  /** Every artifact bundle hashes to its own name, every evidence bundle is named by
      the hash of its body, holds its data and refers to visible artifacts only. */
  ghost predicate BundlesOk(store: Store) {
    && (forall d <- store.artifacts :: ArtifactFits(store.artifacts[d], Ref(d, |store.artifacts[d].payload|)))
    && (forall e <- store.evidence ::
          store.evidence[e].manifest.evidenceId == e && EvidenceFits(store, store.evidence[e], store.evidence[e].manifest))
  }

  /** Metadata appears after all directories, bundles and their prefixes after it. */
  ghost predicate OrderOk(prefix: Digest -> nat, store: Store) {
    && (store.metadata.Some? ==> LayoutThere(store))
    && (store.artifactPrefixes != {} || store.evidencePrefixes != {} ==> store.metadata.Some?)
    && (forall d <- store.artifacts :: prefix(d) in store.artifactPrefixes)
    && (forall e <- store.evidence :: prefix(e) in store.evidencePrefixes)
    && Root !in store.temps.Values
  }

  ghost predicate StoreOk(prefix: Digest -> nat, store: Store) {
    BundlesOk(store) && OrderOk(prefix, store)
  }

  ghost predicate ArtifactPhaseOk(prefix: Digest -> nat, store: Store, p: nat, ref: Ref, phase: Phase) {
    match phase
    case Exists => true
    case MakeStage => true
    case Fill => p in store.stages && store.stages[p].ArtifactStage? && store.stages[p].metadata.None?
                 && |Written(store.stages[p].payload)| <= ref.size
    case Describe => p in store.stages && store.stages[p].ArtifactStage? && store.stages[p].payload.Some?
                     && Hashed(store.stages[p].payload.value) == ref
    case Check => StagedArtifact(store, p, ref)
    case MakePrefix => StagedArtifact(store, p, ref)
    case Rename => StagedArtifact(store, p, ref) && prefix(ref.sha256) in store.artifactPrefixes
    case LookBack => ArtifactThere(store, ref)
    case CheckThere(_) => ArtifactThere(store, ref)
    case Sweep => ArtifactThere(store, ref)
  }

  ghost predicate EvidencePhaseOk(prefix: Digest -> nat, store: Store, p: nat, plan: Plan, phase: Phase) {
    var manifest := PlanManifest(plan);
    match phase
    case Exists => true
    case MakeStage => true
    case Fill => true
    case Describe => p in store.stages && store.stages[p] == EvidenceStage(Some(plan.analysis), None)
    case Check => p in store.stages && store.stages[p] == EvidenceStage(Some(plan.analysis), Some(manifest))
    case MakePrefix => StagedEvidence(store, p, manifest)
    case Rename => StagedEvidence(store, p, manifest) && prefix(manifest.evidenceId) in store.evidencePrefixes
    case LookBack => EvidenceThere(store, manifest)
    case CheckThere(_) => EvidenceThere(store, manifest)
    case Sweep => EvidenceThere(store, manifest)
  }

  /** Every artifact of the plan in front of an index has been published. */
  ghost predicate Behind(store: Store, plan: Plan, index: nat) {
    index <= |plan.refs| && forall i | 0 <= i < index :: ArtifactThere(store, plan.refs[i])
  }

  ghost predicate GoalOk(goal: Goal) {
    goal.Publish? ==> Honest(goal.plan)
  }

  /** What a process may rely on at each point of its program. */
  ghost predicate ProcOk(prefix: Digest -> nat, store: Store, p: nat, pc: PC) {
    match pc
    case Idle => true
    case FindMetadata(goal) => GoalOk(goal)
    case FindRoot(goal) => GoalOk(goal)
    case ListArtifacts(goal) => GoalOk(goal)
    case ListEvidence(goal) => GoalOk(goal)
    case ListRoot(goal) => GoalOk(goal)
    case FindAgain(goal) => GoalOk(goal) && store.metadata.Some?
    case MakeDir(plan, k) => Honest(plan) && k <= |DIRS| && forall i | 0 <= i < k :: DIRS[i] in store.dirs
    case WriteMetadata(plan) => Honest(plan) && forall d <- DIRS :: d in store.dirs
    case LinkMetadata(plan) => Honest(plan) && forall d <- DIRS :: d in store.dirs
    case UnlinkMetadata(plan) => Honest(plan) && store.metadata.Some?
    case CheckLayout(plan) => Honest(plan) && store.metadata.Some?
    case OnArtifact(plan, k, phase) =>
      && Honest(plan) && store.metadata.Some? && k < |plan.refs| && Behind(store, plan, k)
      && ArtifactPhaseOk(prefix, store, p, plan.refs[k], phase)
    case OnEvidence(plan, phase) =>
      && Honest(plan) && store.metadata.Some? && Behind(store, plan, |plan.refs|)
      && EvidencePhaseOk(prefix, store, p, plan, phase)
    case Published(plan) => EvidenceThere(store, PlanManifest(plan))
    case Opened => store.metadata.Some?
    case Absent => true
    case Failed(_) => true
    case Crashed => true
  }

  ghost predicate Inv(prefix: Digest -> nat, s: State) {
    StoreOk(prefix, s.store) && forall p: nat | p < |s.procs| :: ProcOk(prefix, s.store, p, s.procs[p])
  }

  /** Nothing visible is replaced or removed. */
  predicate Grows(before: Store, after: Store) {
    && before.dirs <= after.dirs
    && (before.metadata.Some? ==> after.metadata == before.metadata)
    && before.artifactPrefixes <= after.artifactPrefixes && before.evidencePrefixes <= after.evidencePrefixes
    && (forall d <- before.artifacts :: d in after.artifacts && after.artifacts[d] == before.artifacts[d])
    && (forall e <- before.evidence :: e in after.evidence && after.evidence[e] == before.evidence[e])
  }

  predicate SameStage(before: Store, after: Store, p: nat) {
    (p in before.stages <==> p in after.stages) && (p in before.stages ==> after.stages[p] == before.stages[p])
  }

  lemma FitsStays(before: Store, after: Store, b: EvidenceBundle, expected: Manifest)
    requires Grows(before, after) && EvidenceFits(before, b, expected)
    ensures EvidenceFits(after, b, expected)
  {
    forall ref <- expected.body.artifacts
      ensures ArtifactThere(after, ref)
    {
    }
  }

  lemma EvidenceStays(before: Store, after: Store, expected: Manifest)
    requires Grows(before, after) && EvidenceThere(before, expected)
    ensures EvidenceThere(after, expected)
  {
    hide EvidenceFits;
    FitsStays(before, after, before.evidence[expected.evidenceId], expected);
  }

  lemma BehindStays(before: Store, after: Store, plan: Plan, index: nat)
    requires Grows(before, after) && Behind(before, plan, index)
    ensures Behind(after, plan, index)
  {
    forall i | 0 <= i < index
      ensures ArtifactThere(after, plan.refs[i])
    {
    }
  }

  lemma ArtifactPhaseStays(prefix: Digest -> nat, before: Store, after: Store, p: nat, ref: Ref, phase: Phase)
    requires Grows(before, after) && SameStage(before, after, p) && ArtifactPhaseOk(prefix, before, p, ref, phase)
    ensures ArtifactPhaseOk(prefix, after, p, ref, phase)
  {
  }

  lemma EvidencePhaseStays(prefix: Digest -> nat, before: Store, after: Store, p: nat, plan: Plan, phase: Phase)
    requires Grows(before, after) && SameStage(before, after, p) && EvidencePhaseOk(prefix, before, p, plan, phase)
    ensures EvidencePhaseOk(prefix, after, p, plan, phase)
  {
    hide EvidenceFits, PlanManifest;
    var manifest := PlanManifest(plan);
    if EvidenceThere(before, manifest) {
      EvidenceStays(before, after, manifest);
    }
    if StagedEvidence(before, p, manifest) {
      FitsStays(before, after, EvidenceBundle(before.stages[p].data.value, before.stages[p].manifest.value), manifest);
    }
  }

  /** No step of another process disturbs a process. */
  lemma ProcStays(prefix: Digest -> nat, before: Store, after: Store, p: nat, pc: PC)
    requires Grows(before, after) && SameStage(before, after, p) && ProcOk(prefix, before, p, pc)
    ensures ProcOk(prefix, after, p, pc)
  {
    hide ArtifactPhaseOk, EvidencePhaseOk, Behind, Honest, EvidenceThere, PlanManifest;
    match pc
    case OnArtifact(plan, k, phase) =>
      BehindStays(before, after, plan, k);
      ArtifactPhaseStays(prefix, before, after, p, plan.refs[k], phase);
    case OnEvidence(plan, phase) =>
      BehindStays(before, after, plan, |plan.refs|);
      EvidencePhaseStays(prefix, before, after, p, plan, phase);
    case Published(plan) =>
      EvidenceStays(before, after, PlanManifest(plan));
    case _ =>
  }

  /** What a step of process p does to the store. */
  ghost predicate StepOk(prefix: Digest -> nat, before: Store, p: nat, next: Next) {
    && Grows(before, next.store) && StoreOk(prefix, next.store)
    && (forall q: nat | q != p :: SameStage(before, next.store, q))
    && ProcOk(prefix, next.store, p, next.pc)
  }

  lemma BundlesStay(before: Store, after: Store)
    requires Grows(before, after) && BundlesOk(before)
    requires after.artifacts == before.artifacts && after.evidence == before.evidence
    ensures BundlesOk(after)
  {
    forall e <- after.evidence
      ensures EvidenceFits(after, after.evidence[e], after.evidence[e].manifest)
    {
      FitsStays(before, after, before.evidence[e], before.evidence[e].manifest);
    }
  }

  /** A listing of the root shows nothing unfamiliar but the metadata. */
  lemma OnlyMetadata(prefix: Digest -> nat, store: Store)
    requires OrderOk(prefix, store)
    ensures Stranger(store) <==> store.metadata.Some?
    ensures RootNames(store) <= FAMILIAR + {"repository.json"}
  {
    if store.metadata.Some? {
      assert "repository.json" in RootNames(store) && "repository.json" !in FAMILIAR;
    }
  }

  /** Looking around leaves the store alone. */
  lemma LookOk(prefix: Digest -> nat, store: Store, p: nat, pc: PC, a: Action)
    requires StoreOk(prefix, store) && ProcOk(prefix, store, p, pc)
    requires pc.FindMetadata? || pc.FindRoot? || pc.ListArtifacts? || pc.ListEvidence? || pc.ListRoot? || pc.FindAgain?
             || pc.CheckLayout?
    ensures var next := Initialize(store, p, pc, a); next.store == store && ProcOk(prefix, store, p, next.pc)
  {
    hide BundlesOk, Honest, RootNames, Stranger, Onward;
    OnlyMetadata(prefix, store);
    if pc.CheckLayout? {
      OnwardOk(prefix, store, p, pc.plan, 0);
    }
  }

  lemma MakeDirOk(prefix: Digest -> nat, store: Store, p: nat, plan: Plan, k: nat, a: Action)
    requires StoreOk(prefix, store) && ProcOk(prefix, store, p, MakeDir(plan, k))
    ensures StepOk(prefix, store, p, Initialize(store, p, MakeDir(plan, k), a))
  {
    hide BundlesOk, Honest;
    DirsMade(store, k);
    BundlesStay(store, Initialize(store, p, MakeDir(plan, k), a).store);
  }

  lemma LinkOk(prefix: Digest -> nat, store: Store, p: nat, plan: Plan, a: Action)
    requires StoreOk(prefix, store) && ProcOk(prefix, store, p, LinkMetadata(plan))
    ensures StepOk(prefix, store, p, Initialize(store, p, LinkMetadata(plan), a))
  {
    hide BundlesOk, Honest;
    BundlesStay(store, Initialize(store, p, LinkMetadata(plan), a).store);
  }

  /** The temporary file of the metadata comes and goes in the staging directory. */
  lemma TemporaryOk(prefix: Digest -> nat, store: Store, p: nat, pc: PC, a: Action)
    requires StoreOk(prefix, store) && ProcOk(prefix, store, p, pc) && (pc.WriteMetadata? || pc.UnlinkMetadata?)
    ensures StepOk(prefix, store, p, Initialize(store, p, pc, a))
  {
    hide BundlesOk, Honest;
    BundlesStay(store, Initialize(store, p, pc, a).store);
  }

  lemma InitializeOk(prefix: Digest -> nat, store: Store, p: nat, pc: PC, a: Action)
    requires StoreOk(prefix, store) && ProcOk(prefix, store, p, pc) && !Resting(pc) && !pc.Crashed?
    requires !pc.OnArtifact? && !pc.OnEvidence?
    ensures StepOk(prefix, store, p, Initialize(store, p, pc, a))
  {
    hide StoreOk, ProcOk, Grows, SameStage, Initialize;
    match pc
    case MakeDir(plan, k) => MakeDirOk(prefix, store, p, plan, k, a);
    case WriteMetadata(_) => TemporaryOk(prefix, store, p, pc, a);
    case LinkMetadata(plan) => LinkOk(prefix, store, p, plan, a);
    case UnlinkMetadata(_) => TemporaryOk(prefix, store, p, pc, a);
    case _ =>
      LookOk(prefix, store, p, pc, a);
      Unmoved(prefix, store, p);
  }

  /** Once every mkdir is behind, every directory is there. */
  lemma DirsMade(store: Store, k: nat)
    requires k <= |DIRS| && forall i | 0 <= i < k :: DIRS[i] in store.dirs
    ensures k == |DIRS| ==> forall d <- DIRS :: d in store.dirs
    ensures k < |DIRS| ==> forall i | 0 <= i < k + 1 :: DIRS[i] in store.dirs + {DIRS[k]}
  {
    if k == |DIRS| {
      forall d <- DIRS
        ensures d in store.dirs
      {
        var i :| 0 <= i < |DIRS| && DIRS[i] == d;
      }
    }
  }

  /** An existing bundle is the one an honest publisher expects. */
  lemma HonestThere(store: Store, plan: Plan, k: nat)
    requires BundlesOk(store) && Honest(plan) && k < |plan.refs| && plan.refs[k].sha256 in store.artifacts
    ensures ArtifactThere(store, plan.refs[k])
  {
    var ref := plan.refs[k];
    assert ref in plan.refs;
    assert ArtifactFits(store.artifacts[ref.sha256], Ref(ref.sha256, |store.artifacts[ref.sha256].payload|));
  }

  /** What a process does on its own stage leaves everything visible as it was. */
  predicate OnlyStage(before: Store, after: Store, p: nat) {
    && after == before.(stages := after.stages, temps := after.temps)
    && after.stages - {p} == before.stages - {p} && after.temps.Values <= before.temps.Values
  }

  lemma StageStep(prefix: Digest -> nat, before: Store, after: Store, p: nat)
    requires StoreOk(prefix, before) && OnlyStage(before, after, p)
    ensures StoreOk(prefix, after) && Grows(before, after)
    ensures forall q: nat | q != p :: SameStage(before, after, q)
  {
    BundlesStay(before, after);
    forall q: nat | q != p
      ensures SameStage(before, after, q)
    {
      assert q in before.stages <==> q in before.stages - {p};
      assert q in after.stages <==> q in after.stages - {p};
      if q in before.stages {
        assert (before.stages - {p})[q] == before.stages[q] && (after.stages - {p})[q] == after.stages[q];
      }
    }
  }

  lemma DropOk(prefix: Digest -> nat, store: Store, p: nat)
    requires StoreOk(prefix, store)
    ensures StoreOk(prefix, Dropped(store, p)) && Grows(store, Dropped(store, p))
    ensures forall q: nat | q != p :: SameStage(store, Dropped(store, p), q)
  {
    hide StoreOk, Grows, SameStage;
    StageStep(prefix, store, Dropped(store, p), p);
  }

  lemma PrefixStep(prefix: Digest -> nat, before: Store, after: Store)
    requires StoreOk(prefix, before) && before.metadata.Some?
    requires after == before.(artifactPrefixes := after.artifactPrefixes, evidencePrefixes := after.evidencePrefixes)
    requires before.artifactPrefixes <= after.artifactPrefixes && before.evidencePrefixes <= after.evidencePrefixes
    ensures StoreOk(prefix, after) && Grows(before, after) && forall q: nat :: SameStage(before, after, q)
  {
    BundlesStay(before, after);
  }

  /** A staged artifact becomes visible in one step. */
  lemma ArtifactAppears(prefix: Digest -> nat, before: Store, p: nat, ref: Ref)
    requires StoreOk(prefix, before) && StagedArtifact(before, p, ref) && ref.sha256 !in before.artifacts
    requires before.metadata.Some? && prefix(ref.sha256) in before.artifactPrefixes
    ensures var b := ArtifactBundle(before.stages[p].payload.value, before.stages[p].metadata.value);
            var after := Dropped(before, p).(artifacts := before.artifacts[ref.sha256 := b]);
            && StoreOk(prefix, after) && Grows(before, after) && ArtifactThere(after, ref)
            && forall q: nat | q != p :: SameStage(before, after, q)
  {
    hide EvidenceFits;
    var b := ArtifactBundle(before.stages[p].payload.value, before.stages[p].metadata.value);
    var after := Dropped(before, p).(artifacts := before.artifacts[ref.sha256 := b]);
    assert Grows(before, after);
    forall e <- after.evidence
      ensures EvidenceFits(after, after.evidence[e], after.evidence[e].manifest)
    {
      FitsStays(before, after, before.evidence[e], before.evidence[e].manifest);
    }
  }

  lemma EvidenceAppears(prefix: Digest -> nat, before: Store, p: nat, manifest: Manifest)
    requires StoreOk(prefix, before) && StagedEvidence(before, p, manifest) && manifest.evidenceId !in before.evidence
    requires before.metadata.Some? && prefix(manifest.evidenceId) in before.evidencePrefixes
    ensures var b := EvidenceBundle(before.stages[p].data.value, before.stages[p].manifest.value);
            var after := Dropped(before, p).(evidence := before.evidence[manifest.evidenceId := b]);
            && StoreOk(prefix, after) && Grows(before, after) && EvidenceThere(after, manifest)
            && forall q: nat | q != p :: SameStage(before, after, q)
  {
    hide EvidenceFits;
    var b := EvidenceBundle(before.stages[p].data.value, before.stages[p].manifest.value);
    var after := Dropped(before, p).(evidence := before.evidence[manifest.evidenceId := b]);
    assert Grows(before, after);
    assert b.manifest == manifest && EvidenceFits(before, b, manifest) by {
      StagedFits(before, p, manifest);
    }
    FitsStays(before, after, b, manifest);
    forall e <- after.evidence
      ensures EvidenceFits(after, after.evidence[e], after.evidence[e].manifest)
    {
      if e != manifest.evidenceId {
        FitsStays(before, after, before.evidence[e], before.evidence[e].manifest);
      }
    }
  }

  lemma StagedFits(store: Store, p: nat, manifest: Manifest)
    requires StagedEvidence(store, p, manifest)
    ensures var b := EvidenceBundle(store.stages[p].data.value, store.stages[p].manifest.value);
            b.manifest == manifest && EvidenceFits(store, b, manifest)
  {
  }

  lemma OnwardOk(prefix: Digest -> nat, store: Store, p: nat, plan: Plan, index: nat)
    requires Honest(plan) && store.metadata.Some? && Behind(store, plan, index)
    ensures ProcOk(prefix, store, p, Onward(plan, index))
  {
  }

  lemma BehindNext(store: Store, plan: Plan, index: nat)
    requires Behind(store, plan, index) && index < |plan.refs| && ArtifactThere(store, plan.refs[index])
    ensures Behind(store, plan, index + 1)
  {
  }

  lemma CopyOk(prefix: Digest -> nat, store: Store, p: nat, plan: Plan, index: nat, a: Action)
    requires StoreOk(prefix, store) && ProcOk(prefix, store, p, OnArtifact(plan, index, Fill))
    ensures StepOk(prefix, store, p, CopyInput(store, p, plan.refs[index], plan, index, a))
  {
    hide StoreOk, Grows, SameStage, Honest;
    var ref := plan.refs[index];
    var next := CopyInput(store, p, ref, plan, index, a);
    assert OnlyStage(store, next.store, p);
    StageStep(prefix, store, next.store, p);
    BehindStays(store, next.store, plan, index);
  }

  /** A step that changes nothing but the point its process is at. */
  lemma Unmoved(prefix: Digest -> nat, store: Store, p: nat)
    requires StoreOk(prefix, store)
    ensures OnlyStage(store, store, p) && Grows(store, store) && forall q: nat :: SameStage(store, store, q)
  {
  }

  /** A staged artifact is renamed, or finds its place taken by the same artifact. */
  lemma ArtifactRenamed(prefix: Digest -> nat, store: Store, p: nat, plan: Plan, index: nat, a: Action)
    requires StoreOk(prefix, store) && ProcOk(prefix, store, p, OnArtifact(plan, index, Rename))
    ensures StepOk(prefix, store, p, OneArtifact(prefix, store, p, plan, index, Rename, a))
  {
    hide StoreOk, Grows, SameStage, Honest, Onward, CopyInput;
    var ref := plan.refs[index];
    var next := OneArtifact(prefix, store, p, plan, index, Rename, a);
    if ref.sha256 !in store.artifacts {
      ArtifactAppears(prefix, store, p, ref);
    } else {
      Unmoved(prefix, store, p);
      StoreParts(prefix, store);
      HonestThere(store, plan, index);
    }
    MetadataStays(store, next.store);
    BehindStays(store, next.store, plan, index);
  }

  /** An artifact that is there is behind its publisher. */
  lemma ArtifactBehind(prefix: Digest -> nat, store: Store, p: nat, plan: Plan, index: nat, phase: Phase, a: Action)
    requires StoreOk(prefix, store) && ProcOk(prefix, store, p, OnArtifact(plan, index, phase))
    requires phase.LookBack? || phase.CheckThere? || phase.Sweep?
    ensures StepOk(prefix, store, p, OneArtifact(prefix, store, p, plan, index, phase, a))
  {
    hide StoreOk, Grows, SameStage, Honest, Onward, CopyInput, Behind, ArtifactFits;
    var next := OneArtifact(prefix, store, p, plan, index, phase, a);
    if phase.Sweep? {
      DropOk(prefix, store, p);
    } else {
      Unmoved(prefix, store, p);
    }
    BehindNext(store, plan, index);
    BehindStays(store, next.store, plan, index + 1);
    MetadataStays(store, next.store);
    OnwardOk(prefix, next.store, p, plan, index + 1);
  }

  lemma ArtifactOk(prefix: Digest -> nat, store: Store, p: nat, plan: Plan, index: nat, phase: Phase, a: Action)
    requires StoreOk(prefix, store) && ProcOk(prefix, store, p, OnArtifact(plan, index, phase))
    ensures StepOk(prefix, store, p, OneArtifact(prefix, store, p, plan, index, phase, a))
  {
    if phase.Rename? {
      ArtifactRenamed(prefix, store, p, plan, index, a);
    } else if phase.LookBack? || phase.CheckThere? || phase.Sweep? {
      ArtifactBehind(prefix, store, p, plan, index, phase, a);
    } else if phase.Fill? {
      CopyOk(prefix, store, p, plan, index, a);
    } else {
      ArtifactStaged(prefix, store, p, plan, index, phase, a);
    }
  }

  /** From the look at the place of an artifact to its staged bundle. */
  lemma ArtifactStaged(prefix: Digest -> nat, store: Store, p: nat, plan: Plan, index: nat, phase: Phase, a: Action)
    requires StoreOk(prefix, store) && ProcOk(prefix, store, p, OnArtifact(plan, index, phase))
    requires phase.Exists? || phase.MakeStage? || phase.Describe? || phase.Check? || phase.MakePrefix?
    ensures StepOk(prefix, store, p, OneArtifact(prefix, store, p, plan, index, phase, a))
  {
    hide StoreOk, Grows, SameStage, Honest, Onward, CopyInput;
    var next := OneArtifact(prefix, store, p, plan, index, phase, a);
    if phase.Exists? && plan.refs[index].sha256 in store.artifacts {
      StoreParts(prefix, store);
      HonestThere(store, plan, index);
    }
    if phase.MakePrefix? {
      PrefixStep(prefix, store, next.store);
    } else {
      StageStep(prefix, store, next.store, p);
    }
    MetadataStays(store, next.store);
    BehindStays(store, next.store, plan, index);
  }

  lemma MetadataStays(before: Store, after: Store)
    requires Grows(before, after) && before.metadata.Some?
    ensures after.metadata.Some?
  {
  }

  lemma StoreParts(prefix: Digest -> nat, store: Store)
    requires StoreOk(prefix, store)
    ensures BundlesOk(store) && OrderOk(prefix, store)
  {
  }

  /** An existing evidence bundle is the one its identity stands for. */
  lemma EvidenceKnown(store: Store, plan: Plan)
    requires BundlesOk(store) && PlanManifest(plan).evidenceId in store.evidence
    ensures EvidenceThere(store, PlanManifest(plan))
  {
    var e := PlanManifest(plan).evidenceId;
    var b := store.evidence[e];
    assert EvidenceFits(store, b, b.manifest) && b.manifest.evidenceId == e;
    assert b.manifest.body == PlanManifest(plan).body;
  }

  /** A staged manifest refers to artifacts that are visible by now, so that its paths
      decide whether it is valid. */
  lemma StageComplete(store: Store, p: nat, plan: Plan)
    requires Behind(store, plan, |plan.refs|) && p in store.stages
    requires store.stages[p] == EvidenceStage(Some(plan.analysis), Some(PlanManifest(plan)))
    ensures StagedEvidence(store, p, PlanManifest(plan)) <==> Accepts(plan.paths)
  {
    hide Accepts;
    forall ref <- plan.refs
      ensures ArtifactThere(store, ref)
    {
      var i :| 0 <= i < |plan.refs| && plan.refs[i] == ref;
    }
  }

  lemma EvidenceRenamed(prefix: Digest -> nat, store: Store, p: nat, plan: Plan)
    requires StoreOk(prefix, store) && ProcOk(prefix, store, p, OnEvidence(plan, Rename))
    ensures StepOk(prefix, store, p, TheEvidence(prefix, store, p, plan, Rename))
  {
    hide StoreOk, Grows, SameStage, Honest, EvidenceFits, PlanManifest, StagedEvidence, EvidenceThere, Behind;
    var manifest := PlanManifest(plan);
    var next := TheEvidence(prefix, store, p, plan, Rename);
    WholeOfStaged(store, p, manifest);
    if manifest.evidenceId !in store.evidence {
      EvidenceAppears(prefix, store, p, manifest);
    } else {
      Unmoved(prefix, store, p);
      StoreParts(prefix, store);
      EvidenceKnown(store, plan);
    }
    MetadataStays(store, next.store);
    BehindStays(store, next.store, plan, |plan.refs|);
  }

  lemma EvidenceOk(prefix: Digest -> nat, store: Store, p: nat, plan: Plan, phase: Phase)
    requires StoreOk(prefix, store) && ProcOk(prefix, store, p, OnEvidence(plan, phase))
    ensures StepOk(prefix, store, p, TheEvidence(prefix, store, p, plan, phase))
  {
    hide StoreOk, Grows, SameStage, Honest, EvidenceFits, PlanManifest, StagedEvidence, EvidenceThere, Behind;
    var manifest := PlanManifest(plan);
    var next := TheEvidence(prefix, store, p, plan, phase);
    if phase.Rename? {
      EvidenceRenamed(prefix, store, p, plan);
    } else {
      if phase.Exists? && manifest.evidenceId in store.evidence {
        StoreParts(prefix, store);
        EvidenceKnown(store, plan);
      }
      if phase.MakePrefix? {
        PrefixStep(prefix, store, next.store);
        StagedStays(store, next.store, p, manifest);
      } else {
        StageStep(prefix, store, next.store, p);
      }
      if phase.Sweep? {
        EvidenceStays(store, next.store, manifest);
      }
      MetadataStays(store, next.store);
      BehindStays(store, next.store, plan, |plan.refs|);
    }
  }

  lemma WholeOfStaged(store: Store, p: nat, manifest: Manifest)
    requires StagedEvidence(store, p, manifest)
    ensures WholeEvidence(store, p)
  {
  }

  lemma StagedStays(before: Store, after: Store, p: nat, manifest: Manifest)
    requires Grows(before, after) && SameStage(before, after, p) && StagedEvidence(before, p, manifest)
    ensures StagedEvidence(after, p, manifest)
  {
    hide EvidenceFits, Grows;
    FitsStays(before, after, EvidenceBundle(before.stages[p].data.value, before.stages[p].manifest.value), manifest);
  }

  lemma AdvanceOk(prefix: Digest -> nat, store: Store, p: nat, pc: PC, a: Action)
    requires StoreOk(prefix, store) && ProcOk(prefix, store, p, pc) && !Resting(pc) && !pc.Crashed?
    ensures StepOk(prefix, store, p, Advance(prefix, store, p, pc, a))
  {
    hide StoreOk, StepOk, ProcOk;
    match pc
    case OnArtifact(plan, index, phase) => ArtifactOk(prefix, store, p, plan, index, phase, a);
    case OnEvidence(plan, phase) => EvidenceOk(prefix, store, p, plan, phase);
    case _ => InitializeOk(prefix, store, p, pc, a);
  }

  /** The other processes are where they were, in a store that only grew. */
  lemma OthersStay(prefix: Digest -> nat, s: State, p: nat, next: Next)
    requires Inv(prefix, s) && p < |s.procs| && StepOk(prefix, s.store, p, next)
    ensures Inv(prefix, State(next.store, s.procs[p := next.pc]))
  {
    hide StoreOk, ProcOk, Grows, SameStage;
    var procs := s.procs[p := next.pc];
    forall q: nat | q < |procs|
      ensures ProcOk(prefix, next.store, q, procs[q])
    {
      if q != p {
        ProcStays(prefix, s.store, next.store, q, s.procs[q]);
      }
    }
  }

  /** Every step keeps the invariant and everything visible. */
  lemma StepKeeps(prefix: Digest -> nat, s: State, p: nat, a: Action)
    requires Inv(prefix, s) && (a.Begin? ==> GoalOk(a.goal))
    ensures Inv(prefix, Step(prefix, s, p, a)) && Grows(s.store, Step(prefix, s, p, a).store)
  {
    hide StoreOk, Grows, SameStage, Advance, ArtifactPhaseOk, EvidencePhaseOk, Behind, EvidenceThere, PlanManifest, Honest;
    Unmoved(prefix, s.store, p);
    if p < |s.procs| && !s.procs[p].Crashed? {
      var pc := s.procs[p];
      match a
      case Crash => OthersStay(prefix, s, p, Next(s.store, Crashed));
      case Clean(dead) =>
        if dead < |s.procs| && s.procs[dead].Crashed? {
          DropOk(prefix, s.store, dead);
          assert s.procs[dead := Crashed] == s.procs;
          OthersStay(prefix, s, dead, Next(Dropped(s.store, dead), Crashed));
        }
      case Begin(goal) => OthersStay(prefix, s, p, Next(s.store, FindMetadata(goal)));
      case IoError(reading) =>
        DropOk(prefix, s.store, p);
        if !Resting(pc) {
          OthersStay(prefix, s, p, Next(Dropped(s.store, p), Failed(Struck(pc, reading))));
        }
      case _ =>
        if !Resting(pc) {
          AdvanceOk(prefix, s.store, p, pc, a);
          OthersStay(prefix, s, p, Advance(prefix, s.store, p, pc, a));
        }
    }
  }

  lemma InitialOk(prefix: Digest -> nat, s: State)
    requires Initial(s)
    ensures Inv(prefix, s)
  {
    forall p: nat | p < |s.procs|
      ensures ProcOk(prefix, s.store, p, s.procs[p])
    {
      assert s.procs[p] in s.procs;
    }
  }

  lemma {:induction false} RunKeeps(prefix: Digest -> nat, s: State, schedule: Schedule)
    requires Inv(prefix, s) && HonestSchedule(schedule)
    ensures Inv(prefix, Run(prefix, s, schedule)) && Grows(s.store, Run(prefix, s, schedule).store)
    decreases |schedule|
  {
    hide Inv, Grows, Step;
    if schedule == [] {
      GrowsReflexive(s.store);
    } else {
      var k := |schedule| - 1;
      assert schedule[k] in schedule;
      RunKeeps(prefix, s, schedule[..k]);
      var before := Run(prefix, s, schedule[..k]);
      StepKeeps(prefix, before, schedule[k].0, schedule[k].1);
      GrowsTransitive(s.store, before.store, Run(prefix, s, schedule).store);
    }
  }

  lemma GrowsReflexive(store: Store)
    ensures Grows(store, store)
  {
  }

  lemma GrowsTransitive(a: Store, b: Store, c: Store)
    requires Grows(a, b) && Grows(b, c)
    ensures Grows(a, c)
  {
  }

  lemma {:induction false} RunJoin(prefix: Digest -> nat, s: State, first: Schedule, second: Schedule)
    ensures Run(prefix, s, first + second) == Run(prefix, Run(prefix, s, first), second)
    decreases |second|
  {
    hide Step;
    if second == [] {
      assert first + second == first;
    } else {
      var k := |second| - 1;
      RunJoin(prefix, s, first, second[..k]);
      assert (first + second)[..|first| + k] == first + second[..k];
    }
  }
}
