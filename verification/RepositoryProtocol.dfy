/**
 The content-addressed evidence repository as a protocol: any number of publishers
 and readers whose file-system steps interleave and who may crash between any two.
 SHA-256 and canonical JSON are injective by construction: a digest carries what
 was hashed.
 */
module RepositoryProtocol {
  import opened Results
  import opened RelativePaths

  type Bytes = string

  /** What a digest is taken of: a file, or the canonical bytes of a manifest body. */
  datatype Content = File(bytes: Bytes) | Canonical(body: Body)

  datatype Digest = Sha256(content: Content)

  /** artifact.json, and the reference to an artifact in a manifest. */
  datatype Ref = Ref(sha256: Digest, size: nat)

  /** A manifest body: the paths are those of the members of its directory sources. */
  datatype Body = Body(artifacts: seq<Ref>, paths: seq<string>, data: Ref, rest: string)

  datatype Manifest = Manifest(evidenceId: Digest, body: Body)

  datatype ArtifactBundle = ArtifactBundle(payload: Bytes, metadata: Ref)

  datatype EvidenceBundle = EvidenceBundle(data: Bytes, manifest: Manifest)

  /** The shared directories, in the order initialize makes them. */
  datatype Dir = Root | Artifacts | ArtifactNames | Evidence | EvidenceNames | Staging

  const DIRS: seq<Dir> := [Root, Artifacts, ArtifactNames, Evidence, EvidenceNames, Staging]

  /** A bundle under construction in its owner's staging directory. */
  datatype Stage =
    | ArtifactStage(payload: Option<Bytes>, metadata: Option<Ref>)
    | EvidenceStage(data: Option<Bytes>, manifest: Option<Manifest>)

  /** The directory tree.  Bundles live under a directory named by the first two
      digits of their name; metadata is repository.json, and temps says where the
      temporary file of a process that writes it lies. */
  datatype Store = Store(
    dirs: set<Dir>,
    metadata: Option<string>,
    artifactPrefixes: set<nat>,
    evidencePrefixes: set<nat>,
    artifacts: map<Digest, ArtifactBundle>,
    evidence: map<Digest, EvidenceBundle>,
    stages: map<nat, Stage>,
    temps: map<nat, Dir>)

  /** What one call of preserve is to publish. */
  datatype Plan = Plan(refs: seq<Ref>, paths: seq<string>, analysis: Bytes, rest: string)

  function Hashed(bytes: Bytes): Ref { Ref(Sha256(File(bytes)), |bytes|) }

  function PlanManifest(plan: Plan): Manifest {
    var body := Body(plan.refs, plan.paths, Hashed(plan.analysis), plan.rest);
    Manifest(Sha256(Canonical(body)), body)
  }

  /** Every source was hashed: its digest and its size are those of one file. */
  predicate Honest(plan: Plan) {
    forall ref <- plan.refs :: ref.sha256.content.File? && ref == Hashed(ref.sha256.content.bytes)
  }

  /** The manifest model accepts the paths of a body. */
  predicate Accepts(paths: seq<string>) {
    forall path <- paths :: MayBeHeld(path)
  }

  /** A publisher, or a reader that wants to know whether there is a repository. */
  datatype Goal = Publish(plan: Plan) | Look

  /** Where the publication of one bundle stands. */
  datatype Phase =
    | Exists
    | MakeStage
    | Fill
    | Describe
    | Check
    | MakePrefix
    | Rename
    | LookBack
    | CheckThere(staged: bool)
    | Sweep

  datatype Reason = Corruption | ChangedInput | Interrupted

  datatype PC =
    | Idle
    | FindMetadata(goal: Goal)
    | FindRoot(goal: Goal)
    | ListArtifacts(goal: Goal)
    | ListEvidence(goal: Goal)
    | ListRoot(goal: Goal)
    | FindAgain(goal: Goal)
    | MakeDir(plan: Plan, dir: nat)
    | WriteMetadata(plan: Plan)
    | LinkMetadata(plan: Plan)
    | UnlinkMetadata(plan: Plan)
    | CheckLayout(plan: Plan)
    | OnArtifact(plan: Plan, index: nat, phase: Phase)
    | OnEvidence(plan: Plan, phase: Phase)
    | Published(plan: Plan)
    | Opened
    | Absent
    | Failed(reason: Reason)
    | Crashed

  /** What a step adds to the state of its process: the goal it begins with, the
      bytes it reads from an input, the time it writes into the metadata; an error
      strikes a read of what is being validated, or anything else. */
  datatype Action =
    | Begin(goal: Goal)
    | Go
    | Chunk(bytes: Bytes)
    | EndOfInput(more: bool)
    | Stamp(time: string)
    | IoError(reading: bool)
    | Crash
    | Clean(dead: nat)

  datatype State = State(store: Store, procs: seq<PC>)

  datatype Next = Next(store: Store, pc: PC)

  predicate ArtifactFits(b: ArtifactBundle, expected: Ref) {
    b.metadata == expected && Sha256(File(b.payload)) == expected.sha256 && |b.payload| == expected.size
  }

  /** _validate_artifact on the place the digest names. */
  predicate ArtifactThere(store: Store, expected: Ref) {
    expected.sha256 in store.artifacts && ArtifactFits(store.artifacts[expected.sha256], expected)
  }

  predicate EvidenceFits(store: Store, b: EvidenceBundle, expected: Manifest) {
    && b.manifest == expected && Sha256(Canonical(expected.body)) == expected.evidenceId
    && Accepts(expected.body.paths) && Hashed(b.data) == expected.body.data
    && forall ref <- expected.body.artifacts :: ArtifactThere(store, ref)
  }

  /** _validate_evidence on the place the identity names. */
  predicate EvidenceThere(store: Store, expected: Manifest) {
    expected.evidenceId in store.evidence && EvidenceFits(store, store.evidence[expected.evidenceId], expected)
  }

  predicate StagedArtifact(store: Store, p: nat, ref: Ref) {
    && p in store.stages && store.stages[p].ArtifactStage?
    && store.stages[p].payload.Some? && store.stages[p].metadata.Some?
    && ArtifactFits(ArtifactBundle(store.stages[p].payload.value, store.stages[p].metadata.value), ref)
  }

  predicate StagedEvidence(store: Store, p: nat, manifest: Manifest) {
    && p in store.stages && store.stages[p].EvidenceStage?
    && store.stages[p].data.Some? && store.stages[p].manifest.Some?
    && EvidenceFits(store, EvidenceBundle(store.stages[p].data.value, store.stages[p].manifest.value), manifest)
  }

  const FAMILIAR: set<string> := {"artifacts", "evidence", ".staging"}

  /** What a listing of the root directory shows. */
  function RootNames(store: Store): set<string> {
    (if Artifacts in store.dirs then {"artifacts"} else {})
    + (if Evidence in store.dirs then {"evidence"} else {})
    + (if Staging in store.dirs then {".staging"} else {})
    + (if store.metadata.Some? then {"repository.json"} else {})
    + (if Root in store.temps.Values then {".repository.json.tmp"} else {})
  }

  /** Something in the root that no publisher puts there before the metadata. */
  predicate Stranger(store: Store) {
    !(RootNames(store) <= FAMILIAR)
  }

  /** _write_file: a temporary file lies beside its target, that of the metadata in
      the staging directory. */
  function TemporaryParent(parent: Dir, isMetadata: bool): Dir {
    if isMetadata then Staging else parent
  }

  predicate LayoutThere(store: Store) {
    store.metadata.Some? && forall d <- DIRS :: d in store.dirs
  }

  /** The next artifact, or the evidence once every artifact is there. */
  function Onward(plan: Plan, index: nat): PC {
    if index < |plan.refs| then OnArtifact(plan, index, Exists) else OnEvidence(plan, Exists)
  }

  function Dropped(store: Store, p: nat): Store {
    store.(stages := store.stages - {p}, temps := store.temps - {p})
  }

  function Suspect(suspicious: bool, goal: Goal, otherwise: PC): PC {
    if suspicious then FindAgain(goal) else otherwise
  }

  /** No metadata and nothing suspicious: a publisher goes on, a reader is done. */
  function Fresh(goal: Goal): PC {
    match goal
    case Publish(plan) => MakeDir(plan, 0)
    case Look => Absent
  }

  function Known(goal: Goal): PC {
    match goal
    case Publish(plan) => CheckLayout(plan)
    case Look => Opened
  }

  /** initialize and the checks in front of it. */
  function Initialize(store: Store, p: nat, pc: PC, a: Action): Next {
    match pc
    case FindMetadata(goal) => Next(store, if store.metadata.Some? then Known(goal) else FindRoot(goal))
    case FindRoot(goal) => Next(store, if Root in store.dirs then ListArtifacts(goal) else Fresh(goal))
    case ListArtifacts(goal) => Next(store, Suspect(store.artifactPrefixes != {}, goal, ListEvidence(goal)))
    case ListEvidence(goal) => Next(store, Suspect(store.evidencePrefixes != {}, goal, ListRoot(goal)))
    case ListRoot(goal) => Next(store, Suspect(Stranger(store), goal, Fresh(goal)))
    case FindAgain(goal) => Next(store, if store.metadata.Some? then Known(goal) else Failed(Corruption))
    case MakeDir(plan, k) =>
      if k < |DIRS| then Next(store.(dirs := store.dirs + {DIRS[k]}), MakeDir(plan, k + 1))
      else Next(store, WriteMetadata(plan))
    case WriteMetadata(plan) =>
      Next(store.(temps := store.temps[p := TemporaryParent(Root, true)]), LinkMetadata(plan))
    case LinkMetadata(plan) =>
      if a.Stamp? && store.metadata.None? then Next(store.(metadata := Some(a.time)), UnlinkMetadata(plan))
      else if a.Stamp? then Next(store, UnlinkMetadata(plan))
      else Next(store, pc)
    case UnlinkMetadata(plan) => Next(store.(temps := store.temps - {p}), CheckLayout(plan))
    case CheckLayout(plan) => Next(store, if LayoutThere(store) then Onward(plan, 0) else Failed(Corruption))
    case _ => Next(store, pc)
  }

  function Written(payload: Option<Bytes>): Bytes {
    match payload
    case None => ""
    case Some(bytes) => bytes
  }

  /** A staged bundle with both of its files, whatever they hold. */
  predicate WholeArtifact(store: Store, p: nat) {
    && p in store.stages && store.stages[p].ArtifactStage?
    && store.stages[p].payload.Some? && store.stages[p].metadata.Some?
  }

  predicate WholeEvidence(store: Store, p: nat) {
    && p in store.stages && store.stages[p].EvidenceStage?
    && store.stages[p].data.Some? && store.stages[p].manifest.Some?
  }

  /** copy_verified_file: chunks of at most the remaining bytes, then the verdict. */
  function CopyInput(store: Store, p: nat, ref: Ref, plan: Plan, index: nat, a: Action): Next {
    var here := OnArtifact(plan, index, Fill);
    if p !in store.stages || !store.stages[p].ArtifactStage? then Next(store, here)
    else
      var written := Written(store.stages[p].payload);
      match a
      case Chunk(bytes) =>
        if bytes == [] || |written| + |bytes| > ref.size then Next(store, here)
        else Next(store.(stages := store.stages[p := ArtifactStage(Some(written + bytes), None)]), here)
      case EndOfInput(more) =>
        if |written| < ref.size || more || Sha256(File(written)) != ref.sha256 then
          Next(Dropped(store, p), Failed(ChangedInput))
        else
          Next(store.(stages := store.stages[p := ArtifactStage(Some(written), None)]), OnArtifact(plan, index, Describe))
      case _ => Next(store, here)
  }

  /** _publish_artifact for the artifact at an index of the plan. */
  function OneArtifact(prefix: Digest -> nat, store: Store, p: nat, plan: Plan, index: nat, phase: Phase, a: Action): Next {
    if index >= |plan.refs| then Next(store, OnEvidence(plan, Exists))
    else
      var ref := plan.refs[index];
      var name := ref.sha256;
      match phase
      case Exists =>
        Next(store, OnArtifact(plan, index, if name in store.artifacts then CheckThere(false) else MakeStage))
      case MakeStage =>
        Next(store.(stages := store.stages[p := ArtifactStage(None, None)]), OnArtifact(plan, index, Fill))
      case Fill => CopyInput(store, p, ref, plan, index, a)
      case Describe =>
        if p in store.stages && store.stages[p].ArtifactStage? then
          Next(store.(stages := store.stages[p := store.stages[p].(metadata := Some(ref))]), OnArtifact(plan, index, Check))
        else Next(store, Failed(Interrupted))
      case Check =>
        if StagedArtifact(store, p, ref) then Next(store, OnArtifact(plan, index, MakePrefix))
        else Next(Dropped(store, p), Failed(Corruption))
      case MakePrefix =>
        Next(store.(artifactPrefixes := store.artifactPrefixes + {prefix(name)}), OnArtifact(plan, index, Rename))
      case Rename =>
        if WholeArtifact(store, p) && name !in store.artifacts then
          var b := ArtifactBundle(store.stages[p].payload.value, store.stages[p].metadata.value);
          Next(Dropped(store, p).(artifacts := store.artifacts[name := b]), OnArtifact(plan, index, LookBack))
        else Next(store, OnArtifact(plan, index, LookBack))
      case LookBack =>
        Next(store, if p in store.stages then OnArtifact(plan, index, CheckThere(true)) else Onward(plan, index + 1))
      case CheckThere(staged) =>
        if !ArtifactThere(store, ref) then Next(Dropped(store, p), Failed(Corruption))
        else Next(store, if staged then OnArtifact(plan, index, Sweep) else Onward(plan, index + 1))
      case Sweep => Next(Dropped(store, p), Onward(plan, index + 1))
  }

  /** The evidence bundle itself. */
  function TheEvidence(prefix: Digest -> nat, store: Store, p: nat, plan: Plan, phase: Phase): Next {
    var manifest := PlanManifest(plan);
    var name := manifest.evidenceId;
    match phase
    case Exists => Next(store, OnEvidence(plan, if name in store.evidence then CheckThere(false) else MakeStage))
    case MakeStage => Next(store.(stages := store.stages[p := EvidenceStage(None, None)]), OnEvidence(plan, Fill))
    case Fill =>
      Next(store.(stages := store.stages[p := EvidenceStage(Some(plan.analysis), None)]), OnEvidence(plan, Describe))
    case Describe =>
      if p in store.stages && store.stages[p].EvidenceStage? then
        Next(store.(stages := store.stages[p := store.stages[p].(manifest := Some(manifest))]), OnEvidence(plan, Check))
      else Next(store, Failed(Interrupted))
    case Check =>
      if StagedEvidence(store, p, manifest) then Next(store, OnEvidence(plan, MakePrefix))
      else Next(Dropped(store, p), Failed(Corruption))
    case MakePrefix =>
      Next(store.(evidencePrefixes := store.evidencePrefixes + {prefix(name)}), OnEvidence(plan, Rename))
    case Rename =>
      if WholeEvidence(store, p) && name !in store.evidence then
        var b := EvidenceBundle(store.stages[p].data.value, store.stages[p].manifest.value);
        Next(Dropped(store, p).(evidence := store.evidence[name := b]), OnEvidence(plan, LookBack))
      else Next(store, OnEvidence(plan, LookBack))
    case LookBack => Next(store, if p in store.stages then OnEvidence(plan, CheckThere(true)) else Published(plan))
    case CheckThere(staged) =>
      if !EvidenceThere(store, manifest) then Next(Dropped(store, p), Failed(Corruption))
      else Next(store, if staged then OnEvidence(plan, Sweep) else Published(plan))
    case Sweep => Next(Dropped(store, p), Published(plan))
  }

  predicate Resting(pc: PC) {
    pc.Idle? || pc.Published? || pc.Opened? || pc.Absent? || pc.Failed?
  }

  /** A step that reads what it validates: an error there is corruption to it. */
  predicate Validating(pc: PC) {
    || pc.CheckLayout?
    || (pc.OnArtifact? && (pc.phase.Check? || pc.phase.CheckThere?))
    || (pc.OnEvidence? && (pc.phase.Check? || pc.phase.CheckThere?))
  }

  function Struck(pc: PC, reading: bool): Reason {
    if reading && Validating(pc) then Corruption else Interrupted
  }

  /** One step of a process that is neither resting nor crashed. */
  function Advance(prefix: Digest -> nat, store: Store, p: nat, pc: PC, a: Action): Next {
    match pc
    case OnArtifact(plan, index, phase) => OneArtifact(prefix, store, p, plan, index, phase, a)
    case OnEvidence(plan, phase) => TheEvidence(prefix, store, p, plan, phase)
    case _ => Initialize(store, p, pc, a)
  }

  /** Any step of process p: its own next one, a crash, an input or output error,
      the start of a new call, or the removal of what a dead process left. */
  function Step(prefix: Digest -> nat, s: State, p: nat, a: Action): State {
    if p >= |s.procs| || s.procs[p].Crashed? then s
    else
      var pc := s.procs[p];
      match a
      case Crash => s.(procs := s.procs[p := Crashed])
      case Clean(dead) =>
        if dead < |s.procs| && s.procs[dead].Crashed? then s.(store := Dropped(s.store, dead)) else s
      case Begin(goal) => if Resting(pc) then s.(procs := s.procs[p := FindMetadata(goal)]) else s
      case IoError(reading) =>
        if Resting(pc) then s else State(Dropped(s.store, p), s.procs[p := Failed(Struck(pc, reading))])
      case _ =>
        if Resting(pc) then s
        else
          var next := Advance(prefix, s.store, p, pc, a);
          State(next.store, s.procs[p := next.pc])
  }

  /** A run: who moves, and how, one step after the other. */
  type Schedule = seq<(nat, Action)>

  function Run(prefix: Digest -> nat, s: State, schedule: Schedule): State
    decreases |schedule|
  {
    if schedule == [] then s
    else
      var k := |schedule| - 1;
      Step(prefix, Run(prefix, s, schedule[..k]), schedule[k].0, schedule[k].1)
  }

  /** No repository yet; its root directory may be there. */
  predicate Initial(s: State) {
    && s.store.dirs <= {Root} && s.store.metadata == None
    && s.store.artifactPrefixes == {} && s.store.evidencePrefixes == {}
    && s.store.artifacts == map[] && s.store.evidence == map[] && s.store.stages == map[]
    && s.store.temps == map[]
    && forall pc <- s.procs :: pc == Idle
  }

  /** Publishers describe their sources truthfully. */
  predicate HonestSchedule(schedule: Schedule) {
    forall move <- schedule :: move.1.Begin? && move.1.goal.Publish? ==> Honest(move.1.goal.plan)
  }
}
