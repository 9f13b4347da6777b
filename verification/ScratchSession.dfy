/**
 The session's scratch directory as the runtime manages it: cached analyses in the
 order of their last use, converted artifacts, protected sources and the
 reservations of running captures.
 */
module ScratchSession {
  import opened Results
  import opened ScratchLedger
  import opened ScratchPruning
  import opened Totals

  const MAX_ANALYSES: nat := 64

  datatype LimitExceeded = LimitExceeded

  method SumSizes(m: map<Path, nat>) returns (bytes: nat, count: nat)
    ensures bytes == Total(m) && count == |m|
  {
    bytes, count := 0, 0;
    var rest := m;
    while rest != map[]
      invariant bytes + Total(rest) == Total(m) && count + |rest| == |m|
      decreases |rest|
    {
      var path :| path in rest;
      TotalRemove(rest, path);
      bytes, count := bytes + rest[path], count + 1;
      rest := rest - {path};
    }
  }

  lemma UnderCount(files: map<Path, nat>, root: Path)
    ensures Total(Under(Ones(files), root)) == |Under(files, root)|
  {
    assert Under(Ones(files), root) == Ones(Under(files, root));
    OnesCount(Under(files, root));
  }

  /** One reservation of the sum, with what lies below it. */
  lemma GapsNext(files: map<Path, nat>, rest: map<Path, Amount>, root: Path)
    requires root in rest
    ensures Gaps(files, ReservedBytes(rest))
         == Over(rest[root].bytes - Total(Under(files, root))) + Gaps(files, ReservedBytes(rest - {root}))
    ensures Gaps(Ones(files), ReservedFiles(rest))
         == Over(rest[root].files - |Under(files, root)|) + Gaps(Ones(files), ReservedFiles(rest - {root}))
  {
    hide *;
    ReservedNext(rest, root);
    GapsAt(files, ReservedBytes(rest), root, rest[root].bytes);
    GapsAt(Ones(files), ReservedFiles(rest), root, rest[root].files);
    UnderCount(files, root);
  }

  lemma GapsAt(files: map<Path, nat>, reserved: map<Path, nat>, root: Path, n: nat)
    requires root in reserved && reserved[root] == n
    ensures Gaps(files, reserved) == Over(n - Total(Under(files, root))) + Gaps(files, reserved - {root})
  {
    hide *;
    GapsRemove(files, reserved, root);
    GapIs(files, root, n);
  }

  lemma GapIs(files: map<Path, nat>, root: Path, reserved: nat)
    ensures Gap(files, root, reserved) == Over(reserved - Total(Under(files, root)))
  {
  }

  lemma ReservedNext(rest: map<Path, Amount>, root: Path)
    requires root in rest
    ensures root in ReservedBytes(rest) && ReservedBytes(rest)[root] == rest[root].bytes
    ensures root in ReservedFiles(rest) && ReservedFiles(rest)[root] == rest[root].files
    ensures ReservedBytes(rest) - {root} == ReservedBytes(rest - {root})
    ensures ReservedFiles(rest) - {root} == ReservedFiles(rest - {root})
  {
  }

  lemma NoGaps(files: map<Path, nat>, rest: map<Path, Amount>)
    requires rest.Keys == {}
    ensures AllGaps(files, rest) == Amount(0, 0)
  {
    assert rest == map[];
    assert ReservedBytes(rest) == map[] && ReservedFiles(rest) == map[];
  }

  lemma CommittedIs(s: Scratch)
    ensures Committed(s).bytes == Total(s.files) + AllGaps(s.files, s.reserved).bytes
    ensures Committed(s).files == |s.files| + AllGaps(s.files, s.reserved).files
  {
    OnesCount(s.files);
  }

  /** The sum of what some reservations still allow. */
  ghost function AllGaps(files: map<Path, nat>, rest: map<Path, Amount>): Amount {
    Amount(Gaps(files, ReservedBytes(rest)), Gaps(Ones(files), ReservedFiles(rest)))
  }

  /** One turn of the loop over the reservations. */
  method AddGap(files: map<Path, nat>, rest: map<Path, Amount>, root: Path, used: Amount)
    returns (more: Amount, others: map<Path, Amount>)
    requires root in rest
    ensures more.bytes + AllGaps(files, others).bytes == used.bytes + AllGaps(files, rest).bytes
    ensures more.files + AllGaps(files, others).files == used.files + AllGaps(files, rest).files
    ensures |others| < |rest|
  {
    hide Gaps, Total, Under, ReservedBytes, ReservedFiles, Ones;
    var reserved := rest[root];
    var bytes, count := SumSizes(Under(files, root));
    GapsNext(files, rest, root);
    others := rest - {root};
    more := Amount(used.bytes + Over(reserved.bytes - bytes), used.files + Over(reserved.files - count));
  }

  /** The files there are, and what each reservation still allows. */
  method CommitmentOf(files: map<Path, nat>, reservations: map<Path, Amount>) returns (used: Amount)
    ensures used == Committed(Scratch(files, reservations))
  {
    hide *;
    ghost var whole := Committed(Scratch(files, reservations));
    var bytes, count := SumSizes(files);
    CommittedIs(Scratch(files, reservations));
    used := Amount(bytes, count);
    var rest := reservations;
    while rest.Keys != {}
      invariant used.bytes + AllGaps(files, rest).bytes == whole.bytes
      invariant used.files + AllGaps(files, rest).files == whole.files
      decreases |rest|
    {
      var root :| root in rest.Keys;
      used, rest := AddGap(files, rest, root, used);
    }
    NoGaps(files, rest);
  }

  /** The capture roots and evidence bundles that sources lie in. */
  method CollectUnits(scratch: Path, sources: seq<Path>) returns (roots: set<Path>)
    ensures roots == Units(scratch, sources)
  {
    hide *;
    roots := {};
    UnitsEmpty(scratch);
    for i := 0 to |sources|
      invariant roots == Units(scratch, sources[..i])
    {
      UnitsNext(scratch, sources, i);
      var unit := UnitOf(scratch, sources[i]);
      if unit.Some? {
        roots := roots + {unit.value};
      }
    }
    assert sources[..|sources|] == sources;
  }

  predicate Fitting(used: Amount, more: Amount) {
    used.bytes + more.bytes <= MAX_BYTES && used.files + more.files <= MAX_FILES
  }

  lemma RoomIs(s: Scratch, used: Amount, more: Amount)
    requires used == Committed(s)
    ensures Room(s, more) <==> Fitting(used, more)
  {
    hide Committed;
  }

  /** The analyses with one of them last, as an ordered dictionary moves it there. */
  function WithLast(analyses: seq<Analysis>, cached: Analysis): seq<Analysis> {
    OtherIds(analyses, cached.id) + [cached]
  }

  function OtherIds(analyses: seq<Analysis>, id: string): seq<Analysis> {
    if analyses == [] then []
    else (if analyses[0].id == id then [] else [analyses[0]]) + OtherIds(analyses[1..], id)
  }

  lemma {:induction false} OtherIdsDistinct(analyses: seq<Analysis>, id: string)
    requires DistinctIds(analyses)
    ensures DistinctIds(OtherIds(analyses, id))
    ensures forall a <- OtherIds(analyses, id) :: a in analyses && a.id != id
  {
    if analyses != [] {
      OtherIdsDistinct(analyses[1..], id);
      var rest := OtherIds(analyses[1..], id);
      forall j | 0 <= j < |rest|
        ensures rest[j].id != analyses[0].id
      {
        assert rest[j] in analyses[1..];
      }
    }
  }

  lemma WithLastDistinct(analyses: seq<Analysis>, cached: Analysis)
    requires DistinctIds(analyses)
    ensures DistinctIds(WithLast(analyses, cached))
  {
    OtherIdsDistinct(analyses, cached.id);
    var rest := OtherIds(analyses, cached.id);
    forall j | 0 <= j < |rest|
      ensures rest[j].id != cached.id
    {
      assert rest[j] in rest;
    }
  }

  /** The analyses none of whose sources overlaps a root. */
  function Apart(analyses: seq<Analysis>, root: Path): seq<Analysis> {
    if analyses == [] then []
    else (if Touches(analyses[0].sources, {root}) then [] else [analyses[0]]) + Apart(analyses[1..], root)
  }

  lemma {:induction false} ApartDistinct(analyses: seq<Analysis>, root: Path)
    requires DistinctIds(analyses)
    ensures DistinctIds(Apart(analyses, root)) && forall a <- Apart(analyses, root) :: a in analyses
  {
    hide Touches;
    if analyses != [] {
      ApartDistinct(analyses[1..], root);
      var rest := Apart(analyses[1..], root);
      forall j | 0 <= j < |rest|
        ensures rest[j].id != analyses[0].id
      {
        assert rest[j] in analyses[1..];
      }
    }
  }

  /** An analysis that was not preserved has a source that overlaps root. */
  predicate Needed(analyses: seq<Analysis>, root: Path) {
    exists a <- analyses :: !a.preserved && Touches(a.sources, {root})
  }

  lemma NeededIs(analyses: seq<Analysis>, root: Path)
    ensures Needed(analyses, root) <==> exists a <- analyses, source <- a.sources :: !a.preserved && Overlap(source, root)
  {
    assert forall path :: Guards({root}, path) <==> Overlap(path, root);
  }

  /** A capture admitted with room for it, to the ledger. */
  lemma AdmittedThere(s: Scratch, root: Path, amount: Amount)
    requires ScratchLedger.Inv(s) && Room(s, amount) && Under(s.files, root) == map[]
    requires forall other <- s.reserved :: !Overlap(root, other)
    ensures ScratchLedger.Inv(s.(reserved := s.reserved[root := amount]))
  {
    hide Room, ScratchLedger.Inv;
    AdmitStep(s, root, amount);
  }

  lemma NothingUnder(before: Scratch, after: Scratch, root: Path)
    requires Removal(before, after) && Under(before.files, root) == map[]
    ensures Under(after.files, root) == map[] && after.reserved == before.reserved
  {
    assert forall path <- before.files :: root <= path ==> path in Under(before.files, root);
  }

  /** Giving up a reservation and deleting a tree, to the ledger. */
  lemma ScopeEnds(before: Scratch, root: Path, gone: set<Path>)
    requires DisjointRoots(before.reserved.Keys)
    ensures var after := Scratch(Without(before.files, gone), before.reserved - {root});
            && (ScratchLedger.Inv(before) ==> ScratchLedger.Inv(after))
            && Committed(after).bytes <= Committed(before).bytes && Committed(after).files <= Committed(before).files
  {
    hide ScratchLedger.Inv, Committed, Without;
    var mid := Scratch(before.files, before.reserved - {root});
    WithoutIsRemoval(before.files, gone, mid.reserved);
    ReleaseLowers(before, root);
    DeletingLowers(before.files, gone, mid.reserved);
    if ScratchLedger.Inv(before) {
      ReleaseStep(before, root);
      RemovalKeeps(mid, Scratch(Without(before.files, gone), mid.reserved));
    }
  }

  /** Analyses with no source near a root are all that a failed capture leaves. */
  lemma {:induction false} ApartIs(analyses: seq<Analysis>, root: Path)
    ensures forall a :: a in Apart(analyses, root) <==> a in analyses && !Touches(a.sources, {root})
  {
    hide Touches;
    if analyses != [] {
      ApartIs(analyses[1..], root);
    }
  }

  /** One tree gone: what lies below it and nothing else. */
  lemma OneTreeGone(files: map<Path, nat>, root: Path)
    ensures forall path <- files :: path in Without(files, {root}) <==> !(root <= path)
  {
    forall path <- files
      ensures Within({root}, path) <==> root <= path
    {
      assert root in {root};
    }
  }

  /** The end of a capture takes nothing from an analysis that was not preserved. */
  lemma ScopeKeeps(analyses: seq<Analysis>, root: Path, files: map<Path, nat>, a: Analysis, source: Path, path: Path)
    requires a in analyses && !a.preserved && source in a.sources && path in files && source <= path
    ensures var after := if Needed(analyses, root) then files else Without(files, {root});
            path in after && after[path] == files[path]
  {
    if !Needed(analyses, root) {
      assert !Guards({root}, source);
      assert !Overlap(source, root);
      if root <= path {
        assert false;
      }
    }
  }

  /** What is left when the units of an analysis that nothing else needs are gone. */
  lemma LeftIs(scratch: Path, cached: Analysis, others: seq<Analysis>, guards: set<Path>, files: map<Path, nat>, artifacts: seq<Artifact>)
    ensures var freed := Freed(scratch, cached, others, guards);
            && (forall path: Path :: path in Without(files, freed) <==> path in files && !Released(scratch, cached, others, guards, path))
            && (forall path <- Without(files, freed) :: Without(files, freed)[path] == files[path])
            && (forall x: Artifact :: x in Kept(artifacts, freed) <==> x in artifacts && !Released(scratch, cached, others, guards, x.path))
  {
    hide Freed, Released;
    KeptIs(artifacts, Freed(scratch, cached, others, guards));
    forall path: Path
      ensures Within(Freed(scratch, cached, others, guards), path) <==> Released(scratch, cached, others, guards, path)
    {
      ReleasedIs(scratch, cached, others, guards, path);
    }
  }

  lemma StepsStart(scratch: Path, guards: set<Path>, roots: set<Path>, h: Holding)
    ensures PruneSteps(scratch, guards, roots, h, 0) == h
  {
  }

  lemma StepsNext(scratch: Path, guards: set<Path>, roots: set<Path>, h: Holding, n: nat)
    ensures var before := PruneSteps(scratch, guards, roots, h, n);
            var next := PruneOne(scratch, guards, roots, before);
            PruneSteps(scratch, guards, roots, h, n + 1) == if next.Some? then next.value else before
  {
  }

  lemma EvictStart(scratch: Path, guards: set<Path>, roots: set<Path>, h: Holding)
    ensures EvictSteps(scratch, guards, roots, h, 0) == h
  {
  }

  lemma EvictNext(scratch: Path, guards: set<Path>, roots: set<Path>, h: Holding, n: nat)
    ensures var before := EvictSteps(scratch, guards, roots, h, n);
            EvictSteps(scratch, guards, roots, h, n + 1) == Else(EvictOne(scratch, guards, roots, before), before)
  {
  }

  /** A turn of pruning leaves fewer things that could go. */
  lemma OneSmaller(scratch: Path, guards: set<Path>, roots: set<Path>, h: Holding)
    ensures var next := PruneOne(scratch, guards, roots, h);
            next.Some? ==> |next.value.analyses| + |next.value.artifacts| < |h.analyses| + |h.artifacts|
  {
    hide Freed, Kept, Without, FirstLoose, FirstLooseArtifact;
    var i := FirstLoose(h.analyses, roots);
    if i < |h.analyses| {
      KeptShorter(h.artifacts, Freed(scratch, h.analyses[i], h.analyses[..i] + h.analyses[i + 1..], guards));
    }
  }

  class Session {
    const scratch: Path
    var analyses: seq<Analysis>
    var artifacts: seq<Artifact>
    var protectedSources: set<Path>
    var reservations: map<Path, Amount>
    var files: map<Path, nat>

    ghost predicate Valid()
      reads this`analyses, this`reservations
    {
      DistinctIds(analyses) && DisjointRoots(reservations.Keys)
    }

    /** The paths no eviction may touch. */
    function Guarded(): (r: set<Path>)
      reads this`protectedSources, this`reservations
      ensures forall path :: path in r <==> path in protectedSources || path in reservations
    {
      protectedSources + reservations.Keys
    }

    ghost function Disk(): Scratch
      reads this
    {
      Scratch(files, reservations)
    }

    constructor (scratch: Path)
      ensures Valid() && this.scratch == scratch && files == map[] && analyses == [] && artifacts == []
      ensures reservations == map[] && protectedSources == {} && ScratchLedger.Inv(Disk())
    {
      this.scratch := scratch;
      analyses, artifacts, protectedSources, reservations, files := [], [], {}, map[], map[];
      new;
      CeilingsHold([]);
    }

    method ScratchCommitment() returns (used: Amount)
      ensures used == Committed(Disk())
    {
      used := CommitmentOf(files, reservations);
    }

    /** Deletes the units of an analysis nothing else needs. */
    method ReleaseAnalysisScratch(cached: Analysis)
      requires Valid()
      modifies this`files, this`artifacts
      ensures Valid()
      ensures var freed := Freed(scratch, cached, analyses, Guarded());
              files == Without(old(files), freed) && artifacts == Kept(old(artifacts), freed)
      ensures forall path: Path :: path in files <==> path in old(files) && !Released(scratch, cached, analyses, Guarded(), path)
      ensures forall path <- files :: files[path] == old(files)[path]
      ensures forall x: Artifact ::
                x in artifacts <==> x in old(artifacts) && !Released(scratch, cached, analyses, Guarded(), x.path)
    {
      hide *;
      var rest := CollectUnits(scratch, cached.sources);
      ghost var freed, done: set<Path> := Freed(scratch, cached, analyses, Guarded()), {};
      FreedIs(scratch, cached, analyses, Guarded());
      WithoutNothing(files);
      KeptNothing(artifacts);
      while rest != {}
        invariant rest <= Units(scratch, cached.sources) && done == freed - rest
        invariant files == Without(old(files), done) && artifacts == Kept(old(artifacts), done)
        decreases |rest|
      {
        var root :| root in rest;
        if !Retained(analyses, cached.id, root) && !Guards(Guarded(), root) {
          OneMoreGone(old(files), old(artifacts), done, root);
          files := Without(files, {root});
          artifacts := Kept(artifacts, {root});
          done := done + {root};
        }
        rest := rest - {root};
      }
      assert done == freed;
      LeftIs(scratch, cached, analyses, Guarded(), old(files), old(artifacts));
    }

    ghost function Held(): Holding
      reads this`analyses, this`artifacts, this`files
    {
      Holding(analyses, artifacts, files)
    }

    /** The least recently used analysis that touches no protected root goes, with the
        units nothing else needs. */
    method EvictOldestAnalysis(protectedRoots: set<Path>) returns (evicted: bool)
      requires Valid()
      modifies this`analyses, this`files, this`artifacts
      ensures Valid()
      ensures evicted == EvictOne(scratch, Guarded(), protectedRoots, old(Held())).Some?
      ensures Held() == Else(EvictOne(scratch, Guarded(), protectedRoots, old(Held())), old(Held()))
    {
      hide Touches, Freed, Without, Kept, Guarded, FirstLoose;
      var i := 0;
      while i < |analyses| && Touches(analyses[i].sources, protectedRoots)
        invariant i <= |analyses|
        invariant analyses == old(analyses) && files == old(files) && artifacts == old(artifacts)
        invariant forall j | 0 <= j < i :: Touches(analyses[j].sources, protectedRoots)
      {
        i := i + 1;
      }
      FirstLooseIs(analyses, protectedRoots, i);
      if i == |analyses| {
        return false;
      }
      var cached := analyses[i];
      OneFewer(analyses, i);
      analyses := analyses[..i] + analyses[i + 1..];
      ReleaseAnalysisScratch(cached);
      evicted := true;
    }

    /** The oldest artifact that overlaps no protected root goes. */
    method DropArtifact(roots: set<Path>) returns (found: bool)
      requires Valid()
      modifies this`files, this`artifacts
      ensures Valid() && found == DropOne(roots, old(Held())).Some? && Held() == Else(DropOne(roots, old(Held())), old(Held()))
    {
      hide Guards, Without, FirstLooseArtifact;
      var i := 0;
      while i < |artifacts| && Guards(roots, artifacts[i].path)
        invariant i <= |artifacts|
        invariant files == old(files) && artifacts == old(artifacts)
        invariant forall j | 0 <= j < i :: Guards(roots, artifacts[j].path)
      {
        i := i + 1;
      }
      FirstLooseArtifactIs(artifacts, roots, i);
      if i == |artifacts| {
        return false;
      }
      files := Without(files, {artifacts[i].path});
      artifacts := artifacts[..i] + artifacts[i + 1..];
      found := true;
    }

    function Protected(protectedRoot: Option<Path>): (r: set<Path>)
      reads this`protectedSources, this`reservations
      ensures forall path ::
                path in r <==> path in protectedSources || path in reservations || protectedRoot == Some(path)
    {
      match protectedRoot
      case None => Guarded()
      case Some(root) => Guarded() + {root}
    }

    /** Makes room: least recently used analyses first, then the oldest artifacts, one
        after the other and none more than it takes; gives up only when nothing that
        may go is left. */
    method PruneScratch(protectedRoot: Option<Path>, reserve: Amount) returns (r: Option<LimitExceeded>, ghost steps: nat)
      requires Valid()
      modifies this`analyses, this`files, this`artifacts
      ensures Valid() && Held() == PruneSteps(scratch, Guarded(), Protected(protectedRoot), old(Held()), steps)
      ensures forall n: nat | n < steps ::
                var h := PruneSteps(scratch, Guarded(), Protected(protectedRoot), old(Held()), n);
                !Room(Scratch(h.files, reservations), reserve) && PruneOne(scratch, Guarded(), Protected(protectedRoot), h).Some?
      ensures r.None? <==> Room(Disk(), reserve)
      ensures r.Some? ==> PruneOne(scratch, Guarded(), Protected(protectedRoot), Held()).None?
      ensures ScratchLedger.Inv(old(Disk())) ==> ScratchLedger.Inv(Disk())
    {
      hide *;
      DiskIs();
      var used := ScratchCommitment();
      var roots := Protected(protectedRoot);
      ghost var start := Held();
      steps := 0;
      StepsStart(scratch, Guarded(), roots, start);
      var stuck := false;
      RoomIs(Disk(), used, reserve);
      while !Fitting(used, reserve) && !stuck
        invariant Valid() && used == Committed(Disk()) && (Fitting(used, reserve) <==> Room(Disk(), reserve))
        invariant Held() == PruneSteps(scratch, Guarded(), roots, start, steps)
        invariant forall n: nat | n < steps ::
                    var h := PruneSteps(scratch, Guarded(), roots, start, n);
                    !Room(Scratch(h.files, reservations), reserve) && PruneOne(scratch, Guarded(), roots, h).Some?
        invariant stuck ==> PruneOne(scratch, Guarded(), roots, Held()).None?
        decreases |analyses| + |artifacts|, !stuck
      {
        DiskIs();
        var found := PruneOnce(roots);
        if found {
          StepsNext(scratch, Guarded(), roots, start, steps);
          DiskIs();
          steps := steps + 1;
          used := ScratchCommitment();
          RoomIs(Disk(), used, reserve);
        } else {
          stuck := true;
        }
      }
      DiskIs();
      if ScratchLedger.Inv(old(Disk())) {
        StepsRemove(scratch, Guarded(), roots, start, steps, reservations);
        RemovalKeeps(old(Disk()), Disk());
      }
      r := if Fitting(used, reserve) then None else Some(LimitExceeded);
    }

    /** One turn of the loop. */
    method PruneOnce(roots: set<Path>) returns (found: bool)
      requires Valid()
      modifies this`analyses, this`files, this`artifacts
      ensures Valid() && found == PruneOne(scratch, Guarded(), roots, old(Held())).Some?
      ensures found ==> Held() == PruneOne(scratch, Guarded(), roots, old(Held())).value
      ensures found ==> |analyses| + |artifacts| < |old(analyses)| + |old(artifacts)|
      ensures !found ==> analyses == old(analyses) && artifacts == old(artifacts) && files == old(files)
      ensures !found ==> Held() == old(Held()) && Disk() == old(Disk())
      ensures !found ==> PruneOne(scratch, Guarded(), roots, Held()).None?
    {
      hide EvictOne, DropOne, Guarded;
      OneSmaller(scratch, Guarded(), roots, Held());
      var evicted := EvictOldestAnalysis(roots);
      if evicted {
        return true;
      }
      found := DropArtifact(roots);
    }

    lemma DiskIs()
      ensures Disk() == Scratch(Held().files, reservations) && Held().files == files
    {
    }

    /** A capture is admitted with room for all it may write, or not at all. */
    method ReserveCaptureCapacity(root: Path, amount: Amount) returns (r: Option<LimitExceeded>, ghost steps: nat)
      requires Valid() && forall other <- reservations :: !Overlap(root, other)
      modifies this`analyses, this`files, this`artifacts, this`reservations
      ensures Valid() && Held() == PruneSteps(scratch, old(Guarded()), old(Guarded()), old(Held()), steps)
      ensures r.None? <==> Room(Scratch(files, old(reservations)), amount)
      ensures reservations == if r.None? then old(reservations)[root := amount] else old(reservations)
      ensures ScratchLedger.Inv(old(Disk())) && Under(old(files), root) == map[] ==> ScratchLedger.Inv(Disk())
    {
      hide Room, PruneSteps, ScratchLedger.Inv, PruneOne;
      ghost var start := Held();
      r, steps := PruneScratch(None, amount);
      if r.None? {
        if ScratchLedger.Inv(old(Disk())) && Under(old(files), root) == map[] {
          StepsRemove(scratch, Guarded(), Guarded(), start, steps, reservations);
          NothingUnder(old(Disk()), Disk(), root);
          AdmittedThere(Disk(), root, amount);
        }
        reservations := reservations[root := amount];
      }
    }

    /** Keeps the newest analysis and the most recently used others, as many as fit. */
    method CacheAnalysis(cached: Analysis)
      requires Valid()
      modifies this`analyses, this`files, this`artifacts
      ensures Valid() && 0 < |analyses| <= MAX_ANALYSES && analyses[|analyses| - 1] == cached
      ensures var all := WithLast(old(analyses), cached);
              var excess: nat := Over(|all| - MAX_ANALYSES);
              && analyses == all[excess..]
              && Held() == EvictSteps(scratch, Guarded(), {}, Holding(all, old(artifacts), old(files)), excess)
      ensures ScratchLedger.Inv(old(Disk())) ==> ScratchLedger.Inv(Disk())
    {
      hide EvictOne, EvictSteps, ScratchLedger.Inv, Guarded;
      WithLastDistinct(analyses, cached);
      ghost var all := WithLast(analyses, cached);
      analyses := WithLast(analyses, cached);
      ghost var start := Held();
      ghost var k: nat := 0;
      EvictStart(scratch, Guarded(), {}, start);
      while |analyses| > MAX_ANALYSES
        invariant Valid() && k <= Over(|all| - MAX_ANALYSES) && analyses == all[k..]
        invariant Held() == EvictSteps(scratch, Guarded(), {}, start, k)
        decreases |analyses|
      {
        EvictNext(scratch, Guarded(), {}, start, k);
        EvictFront(scratch, Guarded(), start, k + 1);
        var evicted := EvictOldestAnalysis({});
        assert Held() == EvictSteps(scratch, Guarded(), {}, start, k + 1);
        assert analyses == Held().analyses;
        k := k + 1;
      }
      DiskIs();
      if ScratchLedger.Inv(old(Disk())) {
        StepsRemove(scratch, Guarded(), {}, start, k, reservations);
        RemovalKeeps(old(Disk()), Disk());
      }
    }

    /** The end of a capture: its reservation is given up, and a failed capture takes
        the analyses of its sources with it.  No file of an analysis that was not
        preserved is lost; where none needs the root, all below it is gone; nothing else
        changes, and the session is committed to no more than before. */
    method ReleaseCaptureScope(root: Path, failed: bool)
      requires Valid()
      modifies this`analyses, this`files, this`reservations
      ensures Valid() && reservations == old(reservations) - {root}
      ensures analyses == if failed then Apart(old(analyses), root) else old(analyses)
      ensures failed ==> forall a :: a in analyses <==> a in old(analyses) && !Touches(a.sources, {root})
      ensures forall a <- analyses, source <- a.sources, path <- old(files) :: !a.preserved && source <= path ==> path in files
      ensures forall path :: path in files <==>
                && path in old(files)
                && (root <= path ==> exists a <- analyses, source <- a.sources :: !a.preserved && Overlap(source, root))
      ensures forall path <- files :: files[path] == old(files)[path]
      ensures Committed(Disk()).bytes <= Committed(old(Disk())).bytes && Committed(Disk()).files <= Committed(old(Disk())).files
      ensures ScratchLedger.Inv(old(Disk())) ==> ScratchLedger.Inv(Disk())
    {
      hide Needed, Apart, Touches, Committed, ScratchLedger.Inv;
      ApartDistinct(analyses, root);
      ApartIs(analyses, root);
      NeededIs(if failed then Apart(analyses, root) else analyses, root);
      OneTreeGone(files, root);
      if failed {
        analyses := Apart(analyses, root);
      }
      forall a <- analyses, source <- a.sources, path <- files | !a.preserved && source <= path
        ensures Needed(analyses, root) || path in Without(files, {root})
      {
        ScopeKeeps(analyses, root, files, a, source, path);
      }
      WithoutNothing(files);
      ScopeEnds(old(Disk()), root, if Needed(analyses, root) then {} else {root});
      reservations := reservations - {root};
      if !Needed(analyses, root) {
        files := Without(files, {root});
      }
    }
  }
}
