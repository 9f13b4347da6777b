/**
 Nothing is left behind: what lies in the staging directory belongs to a call at work
 or to a process that crashed, and what the dead left can be removed.
 */
module RepositoryStaging {
  import opened RepositoryProtocol
  import opened RepositorySafety
  import opened RepositoryCorruption

  /** Where a process may have a stage, and where a temporary file of the metadata. */
  predicate MayStage(pc: PC) {
    || pc.Crashed?
    || (pc.OnArtifact? && MayStageIn(pc.phase)) || (pc.OnEvidence? && MayStageIn(pc.phase))
  }

  predicate MayStageIn(phase: Phase) {
    !phase.Exists? && !phase.MakeStage? && phase != CheckThere(false)
  }

  predicate MayWriteMetadata(pc: PC) {
    pc.Crashed? || pc.LinkMetadata? || pc.UnlinkMetadata?
  }

  predicate Tidy(store: Store, p: nat, pc: PC) {
    (p in store.stages ==> MayStage(pc)) && (p in store.temps ==> MayWriteMetadata(pc))
  }

  lemma ArtifactTidy(prefix: Digest -> nat, store: Store, p: nat, plan: Plan, index: nat, phase: Phase, a: Action)
    requires ProcOk(prefix, store, p, OnArtifact(plan, index, phase)) && Tidy(store, p, OnArtifact(plan, index, phase))
    ensures var next := OneArtifact(prefix, store, p, plan, index, phase, a); Tidy(next.store, p, next.pc)
  {
    hide Behind, Honest, ArtifactFits, PlanManifest, StagedArtifact, WholeArtifact, ArtifactThere, Hashed;
  }

  lemma EvidenceTidy(prefix: Digest -> nat, store: Store, p: nat, plan: Plan, phase: Phase)
    requires ProcOk(prefix, store, p, OnEvidence(plan, phase)) && Tidy(store, p, OnEvidence(plan, phase))
    ensures var next := TheEvidence(prefix, store, p, plan, phase); Tidy(next.store, p, next.pc)
  {
    hide Behind, Honest, EvidenceFits, PlanManifest, StagedEvidence, WholeEvidence, EvidenceThere;
  }

  lemma AdvanceTidy(prefix: Digest -> nat, store: Store, p: nat, pc: PC, a: Action)
    requires ProcOk(prefix, store, p, pc) && Tidy(store, p, pc) && !Resting(pc) && !pc.Crashed?
    ensures var next := Advance(prefix, store, p, pc, a); Tidy(next.store, p, next.pc)
  {
    match pc
    case OnArtifact(plan, index, phase) =>
      hide *;
      ArtifactTidy(prefix, store, p, plan, index, phase, a);
      AdvanceIs(prefix, store, p, pc, a);
    case OnEvidence(plan, phase) =>
      hide *;
      EvidenceTidy(prefix, store, p, plan, phase);
      AdvanceIs(prefix, store, p, pc, a);
    case _ =>
      hide OneArtifact, TheEvidence, Stranger, LayoutThere, Behind;
  }

  lemma AdvanceIs(prefix: Digest -> nat, store: Store, p: nat, pc: PC, a: Action)
    ensures pc.OnArtifact? ==> Advance(prefix, store, p, pc, a) == OneArtifact(prefix, store, p, pc.plan, pc.index, pc.phase, a)
    ensures pc.OnEvidence? ==> Advance(prefix, store, p, pc, a) == TheEvidence(prefix, store, p, pc.plan, pc.phase)
  {
    hide OneArtifact, TheEvidence;
  }

  lemma {:induction false} AllTidy(prefix: Digest -> nat, s: State, schedule: Schedule, p: nat)
    requires Initial(s) && HonestSchedule(schedule) && p < |s.procs|
    ensures |Run(prefix, s, schedule).procs| == |s.procs|
    ensures Tidy(Run(prefix, s, schedule).store, p, Run(prefix, s, schedule).procs[p])
    decreases |schedule|
  {
    hide Inv, Step, HonestSchedule, Grows, Tidy, Initial;
    SameProcesses(prefix, s, schedule);
    if schedule == [] {
      TidyFirst(s, p);
    } else {
      var n := |schedule| - 1;
      HonestFront(schedule, n);
      AllTidy(prefix, s, schedule[..n], p);
      InitialOk(prefix, s);
      RunKeeps(prefix, s, schedule[..n]);
      StepTidy(prefix, Run(prefix, s, schedule[..n]), schedule[n].0, schedule[n].1, p);
    }
  }

  lemma TidyFirst(s: State, p: nat)
    requires Initial(s) && p < |s.procs|
    ensures Tidy(s.store, p, s.procs[p])
  {
  }

  lemma StepTidy(prefix: Digest -> nat, s: State, q: nat, a: Action, p: nat)
    requires Inv(prefix, s) && p < |s.procs| && Tidy(s.store, p, s.procs[p])
    ensures |Step(prefix, s, q, a).procs| == |s.procs|
    ensures Tidy(Step(prefix, s, q, a).store, p, Step(prefix, s, q, a).procs[p])
  {
    hide StoreOk, Advance, ProcOk;
    if q < |s.procs| && !s.procs[q].Crashed? && !Resting(s.procs[q]) {
      assert ProcOk(prefix, s.store, q, s.procs[q]);
      if q == p {
        AdvanceTidy(prefix, s.store, p, s.procs[p], a);
      } else {
        OthersTidy(prefix, s.store, q, s.procs[q], a, p);
      }
    }
  }

  lemma OthersTidy(prefix: Digest -> nat, store: Store, p: nat, pc: PC, a: Action, q: nat)
    requires ProcOk(prefix, store, p, pc) && !Resting(pc) && !pc.Crashed? && q != p
    ensures var next := Advance(prefix, store, p, pc, a);
            (q in next.store.stages <==> q in store.stages) && (q in next.store.temps <==> q in store.temps)
  {
    AdvanceIs(prefix, store, p, pc, a);
    hide ProcOk, Advance;
    if pc.OnArtifact? {
      OthersArtifact(prefix, store, p, pc.plan, pc.index, pc.phase, a, q);
    } else if pc.OnEvidence? {
      OthersEvidence(prefix, store, p, pc.plan, pc.phase, q);
    } else {
      OthersInitialize(prefix, store, p, pc, a, q);
    }
  }

  lemma OthersArtifact(prefix: Digest -> nat, store: Store, p: nat, plan: Plan, index: nat, phase: Phase, a: Action, q: nat)
    requires q != p
    ensures var next := OneArtifact(prefix, store, p, plan, index, phase, a);
            (q in next.store.stages <==> q in store.stages) && (q in next.store.temps <==> q in store.temps)
  {
    hide ArtifactFits, PlanManifest, StagedArtifact, WholeArtifact, ArtifactThere, Hashed, Written;
  }

  lemma OthersEvidence(prefix: Digest -> nat, store: Store, p: nat, plan: Plan, phase: Phase, q: nat)
    requires q != p
    ensures var next := TheEvidence(prefix, store, p, plan, phase);
            (q in next.store.stages <==> q in store.stages) && (q in next.store.temps <==> q in store.temps)
  {
    hide EvidenceFits, PlanManifest, StagedEvidence, WholeEvidence, EvidenceThere;
  }

  lemma OthersInitialize(prefix: Digest -> nat, store: Store, p: nat, pc: PC, a: Action, q: nat)
    requires q != p && !pc.OnArtifact? && !pc.OnEvidence?
    ensures var next := Advance(prefix, store, p, pc, a);
            (q in next.store.stages <==> q in store.stages) && (q in next.store.temps <==> q in store.temps)
  {
    hide OneArtifact, TheEvidence, Stranger, LayoutThere, Onward;
  }

  /** A call that returned, published or failed, has left nothing in the staging
      directory, and no temporary file. */
  lemma NothingLeft(prefix: Digest -> nat, s: State, schedule: Schedule, p: nat)
    requires Initial(s) && HonestSchedule(schedule) && p < |s.procs|
    requires p < |Run(prefix, s, schedule).procs| && Resting(Run(prefix, s, schedule).procs[p])
    ensures p !in Run(prefix, s, schedule).store.stages && p !in Run(prefix, s, schedule).store.temps
  {
    AllTidy(prefix, s, schedule, p);
    hide Run;
  }

  /** What a crashed process left is removed by any other, and nothing else is. */
  lemma DeadRemoved(prefix: Digest -> nat, s: State, p: nat, dead: nat)
    requires p < |s.procs| && !s.procs[p].Crashed? && dead < |s.procs| && s.procs[dead].Crashed?
    ensures var after := Step(prefix, s, p, Clean(dead));
            && after.procs == s.procs && dead !in after.store.stages && dead !in after.store.temps
            && after.store == s.store.(stages := after.store.stages, temps := after.store.temps)
            && (forall q: nat | q != dead ::
                  && (q in after.store.stages <==> q in s.store.stages) && (q in after.store.temps <==> q in s.store.temps)
                  && (q in s.store.stages ==> after.store.stages[q] == s.store.stages[q])
                  && (q in s.store.temps ==> after.store.temps[q] == s.store.temps[q]))
  {
  }
}
