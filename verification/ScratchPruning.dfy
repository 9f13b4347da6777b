/**
 What pruning a session's scratch directory does: analyses go in the order of their
 last use, then converted artifacts in theirs, each with the trees nothing needs.
 */
module ScratchPruning {
  import opened Results
  import opened ScratchLedger

  datatype Analysis = Analysis(id: string, sources: seq<Path>, preserved: bool)

  datatype Artifact = Artifact(key: string, path: Path)

  predicate Guards(roots: set<Path>, path: Path) {
    exists root <- roots :: Overlap(path, root)
  }

  predicate Touches(paths: seq<Path>, roots: set<Path>) {
    exists path <- paths :: Guards(roots, path)
  }

  /** The capture root or evidence bundle a source lies in. */
  function UnitOf(scratch: Path, source: Path): Option<Path> {
    if !(scratch <= source) then None
    else
      var relative := source[|scratch|..];
      if relative != [] && "capture-" <= relative[0] then Some(scratch + relative[..1])
      else if |relative| >= 2 && relative[0] == "evidence-sources" then Some(scratch + relative[..2])
      else None
  }

  function Units(scratch: Path, sources: seq<Path>): set<Path> {
    set source | source in sources && UnitOf(scratch, source).Some? :: UnitOf(scratch, source).value
  }

  /** An analysis other than the given one that has not been preserved needs root. */
  predicate Retained(analyses: seq<Analysis>, id: string, root: Path) {
    exists a <- analyses :: a.id != id && !a.preserved && exists source <- a.sources :: Overlap(source, root)
  }

  /** The units of an analysis that may be deleted with it. */
  function Freed(scratch: Path, cached: Analysis, analyses: seq<Analysis>, guards: set<Path>): set<Path> {
    set root | root in Units(scratch, cached.sources) && !Retained(analyses, cached.id, root) && !Guards(guards, root)
  }

  predicate Within(gone: set<Path>, path: Path) {
    exists root <- gone :: root <= path
  }

  /** What is left when whole trees are removed. */
  function Without(files: map<Path, nat>, gone: set<Path>): map<Path, nat> {
    map path | path in files && !Within(gone, path) :: files[path]
  }

  function Kept(artifacts: seq<Artifact>, gone: set<Path>): seq<Artifact> {
    if artifacts == [] then []
    else (if Within(gone, artifacts[0].path) then [] else [artifacts[0]]) + Kept(artifacts[1..], gone)
  }

  /** The analyses without the first k that touch no protected root. */
  function DropAnalyses(analyses: seq<Analysis>, roots: set<Path>, k: nat): seq<Analysis>
    decreases |analyses|
  {
    if analyses == [] || k == 0 then analyses
    else if Touches(analyses[0].sources, roots) then [analyses[0]] + DropAnalyses(analyses[1..], roots, k)
    else DropAnalyses(analyses[1..], roots, k - 1)
  }

  /** The artifacts without the first k that overlap no protected root. */
  function DropArtifacts(artifacts: seq<Artifact>, roots: set<Path>, k: nat): seq<Artifact>
    decreases |artifacts|
  {
    if artifacts == [] || k == 0 then artifacts
    else if Guards(roots, artifacts[0].path) then [artifacts[0]] + DropArtifacts(artifacts[1..], roots, k)
    else DropArtifacts(artifacts[1..], roots, k - 1)
  }

  /** Dropping the first droppable analysis of what k drops left is one more drop. */
  lemma {:induction false} DropOneMore(analyses: seq<Analysis>, roots: set<Path>, k: nat, i: nat)
    requires var left := DropAnalyses(analyses, roots, k);
             && i < |left| && !Touches(left[i].sources, roots)
             && forall j | 0 <= j < i :: Touches(left[j].sources, roots)
    ensures var left := DropAnalyses(analyses, roots, k);
            DropAnalyses(analyses, roots, k + 1) == left[..i] + left[i + 1..]
    decreases |analyses|
  {
    hide Touches;
    var left := DropAnalyses(analyses, roots, k);
    if Touches(analyses[0].sources, roots) {
      if k == 0 {
        assert left == [analyses[0]] + analyses[1..];
        assert DropAnalyses(analyses[1..], roots, 0) == analyses[1..];
      }
      assert left[1..] == DropAnalyses(analyses[1..], roots, k);
      assert i > 0;
      DropOneMore(analyses[1..], roots, k, i - 1);
      assert left[..i] + left[i + 1..] == [left[0]] + (left[1..][..i - 1] + left[1..][i..]);
    } else if k == 0 {
      assert i == 0;
      assert DropAnalyses(analyses[1..], roots, 0) == analyses[1..];
    } else {
      DropOneMore(analyses[1..], roots, k - 1, i);
    }
  }

  lemma {:induction false} DropOneArtifact(artifacts: seq<Artifact>, roots: set<Path>, k: nat, i: nat)
    requires var left := DropArtifacts(artifacts, roots, k);
             && i < |left| && !Guards(roots, left[i].path)
             && forall j | 0 <= j < i :: Guards(roots, left[j].path)
    ensures var left := DropArtifacts(artifacts, roots, k);
            DropArtifacts(artifacts, roots, k + 1) == left[..i] + left[i + 1..]
    decreases |artifacts|
  {
    hide Guards;
    var left := DropArtifacts(artifacts, roots, k);
    if Guards(roots, artifacts[0].path) {
      if k == 0 {
        assert left == [artifacts[0]] + artifacts[1..];
        assert DropArtifacts(artifacts[1..], roots, 0) == artifacts[1..];
      }
      assert left[1..] == DropArtifacts(artifacts[1..], roots, k);
      assert i > 0;
      DropOneArtifact(artifacts[1..], roots, k, i - 1);
      assert left[..i] + left[i + 1..] == [left[0]] + (left[1..][..i - 1] + left[1..][i..]);
    } else if k == 0 {
      assert i == 0;
      assert DropArtifacts(artifacts[1..], roots, 0) == artifacts[1..];
    } else {
      DropOneArtifact(artifacts[1..], roots, k - 1, i);
    }
  }

  lemma WithoutTwice(files: map<Path, nat>, a: set<Path>, b: set<Path>)
    ensures Without(Without(files, a), b) == Without(files, a + b)
  {
    forall path | path in files
      ensures Within(a + b, path) <==> Within(a, path) || Within(b, path)
    {
      if root :| root in a + b && root <= path {
        assert root in a || root in b;
      }
      if root :| root in a && root <= path {
        assert root in a + b;
      }
      if root :| root in b && root <= path {
        assert root in a + b;
      }
    }
  }

  lemma {:induction false} KeptTwice(artifacts: seq<Artifact>, a: set<Path>, b: set<Path>)
    ensures Kept(Kept(artifacts, a), b) == Kept(artifacts, a + b)
  {
    if artifacts != [] {
      KeptTwice(artifacts[1..], a, b);
      var path := artifacts[0].path;
      KeptJoin(if Within(a, path) then [] else [artifacts[0]], Kept(artifacts[1..], a), b);
    }
  }

  /** What is left of a list, piece by piece: its order is kept. */
  lemma {:induction false} KeptJoin(xs: seq<Artifact>, ys: seq<Artifact>, gone: set<Path>)
    ensures Kept(xs + ys, gone) == Kept(xs, gone) + Kept(ys, gone)
  {
    hide Within;
    if xs == [] {
      assert xs + ys == ys;
    } else {
      KeptJoin(xs[1..], ys, gone);
      assert (xs + ys)[1..] == xs[1..] + ys;
      assert (xs + ys)[0] == xs[0];
      var head := if Within(gone, xs[0].path) then [] else [xs[0]];
      assert head + (Kept(xs[1..], gone) + Kept(ys, gone)) == (head + Kept(xs[1..], gone)) + Kept(ys, gone);
    }
  }

  lemma {:induction false} KeptNothing(artifacts: seq<Artifact>)
    ensures Kept(artifacts, {}) == artifacts
  {
    if artifacts != [] {
      KeptNothing(artifacts[1..]);
    }
  }

  lemma WithoutNothing(files: map<Path, nat>)
    ensures Without(files, {}) == files
  {
  }

  lemma {:induction false} KeptShorter(artifacts: seq<Artifact>, gone: set<Path>)
    ensures |Kept(artifacts, gone)| <= |artifacts|
  {
    if artifacts != [] {
      KeptShorter(artifacts[1..], gone);
    }
  }

  lemma UnitsNext(scratch: Path, sources: seq<Path>, i: nat)
    requires i < |sources|
    ensures Units(scratch, sources[..i + 1])
         == Units(scratch, sources[..i]) + match UnitOf(scratch, sources[i]) case None => {} case Some(unit) => {unit}
    ensures Units(scratch, sources[..0]) == {}
  {
    hide UnitOf;
    assert sources[..i + 1] == sources[..i] + [sources[i]];
  }

  lemma UnitsEmpty(scratch: Path)
    ensures Units(scratch, []) == {}
  {
  }

  lemma FreedIs(scratch: Path, cached: Analysis, analyses: seq<Analysis>, guards: set<Path>)
    ensures var freed := Freed(scratch, cached, analyses, guards);
            && freed <= Units(scratch, cached.sources)
            && forall root <- Units(scratch, cached.sources) ::
                 root in freed <==> !Retained(analyses, cached.id, root) && !Guards(guards, root)
  {
  }

  /** Removing one more tree from what is left. */
  lemma OneMoreGone(files: map<Path, nat>, artifacts: seq<Artifact>, done: set<Path>, root: Path)
    ensures Without(Without(files, done), {root}) == Without(files, done + {root})
    ensures Kept(Kept(artifacts, done), {root}) == Kept(artifacts, done + {root})
  {
    hide *;
    WithoutTwice(files, done, {root});
    KeptTwice(artifacts, done, {root});
  }

  /** A capture root, or the copy of an evidence bundle. */
  ghost predicate IsUnit(scratch: Path, unit: Path) {
    || (exists token: string :: unit == scratch + ["capture-" + token])
    || (exists name: string :: unit == scratch + ["evidence-sources", name])
  }

  /** A source belongs to the unit it lies in, and to no other. */
  lemma UnitIs(scratch: Path, source: Path, unit: Path)
    ensures UnitOf(scratch, source) == Some(unit) <==> IsUnit(scratch, unit) && unit <= source
  {
    if UnitOf(scratch, source) == Some(unit) {
      var relative := source[|scratch|..];
      assert source == scratch + relative;
      if "capture-" <= relative[0] {
        var token := relative[0][|"capture-"|..];
        assert relative[0] == "capture-" + token && relative[..1] == ["capture-" + token];
      } else {
        assert relative[..2] == ["evidence-sources", relative[1]];
      }
    }
    if IsUnit(scratch, unit) && unit <= source {
      UnitHolds(scratch, source, unit);
    }
  }

  lemma UnitHolds(scratch: Path, source: Path, unit: Path)
    requires IsUnit(scratch, unit) && unit <= source
    ensures UnitOf(scratch, source) == Some(unit)
  {
    var relative := source[|scratch|..];
    assert scratch <= source;
    assert source[|scratch|] == unit[|scratch|] == relative[0];
    if token: string :| unit == scratch + ["capture-" + token] {
      assert unit[|scratch|] == "capture-" + token;
      assert scratch + relative[..1] == unit;
    } else {
      var name: string :| unit == scratch + ["evidence-sources", name];
      assert unit[|scratch|] == "evidence-sources" && relative[1] == source[|scratch| + 1] == unit[|scratch| + 1];
      assert !("capture-" <= "evidence-sources") by {
        assert "capture-"[0] != "evidence-sources"[0];
      }
      assert scratch + relative[..2] == unit;
    }
  }

  /** Nothing else needs a unit: no source of another analysis that is not preserved
      overlaps it, and nothing that is protected or reserved. */
  ghost predicate Unneeded(others: seq<Analysis>, id: string, guards: set<Path>, unit: Path) {
    && (forall a <- others, source <- a.sources :: a.id != id && !a.preserved ==> !Overlap(source, unit))
    && (forall guard <- guards :: !Overlap(unit, guard))
  }

  /** Exactly the units of the analysis that nothing else needs are freed. */
  lemma FreedExactly(scratch: Path, cached: Analysis, analyses: seq<Analysis>, guards: set<Path>, unit: Path)
    ensures unit in Freed(scratch, cached, analyses, guards) <==>
            && IsUnit(scratch, unit) && (exists source <- cached.sources :: unit <= source)
            && Unneeded(analyses, cached.id, guards, unit)
  {
    hide IsUnit;
    forall source <- cached.sources
      ensures UnitOf(scratch, source) == Some(unit) <==> IsUnit(scratch, unit) && unit <= source
    {
      UnitIs(scratch, source, unit);
    }
    hide UnitOf;
    assert unit in Units(scratch, cached.sources) <==> exists source <- cached.sources :: UnitOf(scratch, source) == Some(unit);
  }

  /** The artifacts that are left are those that lie in no deleted tree. */
  lemma {:induction false} KeptIs(artifacts: seq<Artifact>, gone: set<Path>)
    ensures forall x: Artifact :: x in Kept(artifacts, gone) <==> x in artifacts && !Within(gone, x.path)
  {
    hide Within;
    if artifacts != [] {
      var first, rest := artifacts[0], artifacts[1..];
      KeptIs(rest, gone);
      assert artifacts == [first] + rest;
      forall x: Artifact
        ensures x in artifacts <==> x == first || x in rest
      {
      }
    }
  }

  /** How many analyses and artifacts pruning dropped, and the trees it deleted with
      the analyses and with the artifacts. */
  datatype Gone = Gone(analyses: nat, artifacts: nat, units: set<Path>, trees: set<Path>)

  /** A deleted unit belonged to a dropped analysis that touched nothing protected,
      and no analysis that is left and not preserved needs it. */
  ghost predicate UnitGone(scratch: Path, before: seq<Analysis>, after: seq<Analysis>, guards: set<Path>, roots: set<Path>, unit: Path) {
    && !Guards(guards, unit)
    && (exists a <- before :: !Touches(a.sources, roots) && unit in Units(scratch, a.sources))
    && (forall a <- after, source <- a.sources :: !a.preserved ==> !Overlap(source, unit))
  }

  /** What a session holds. */
  datatype Holding = Holding(analyses: seq<Analysis>, artifacts: seq<Artifact>, files: map<Path, nat>)

  /** What pruning has done so far: so many analyses and artifacts are gone from the
      front of their orders, and these trees from the disk. */
  ghost predicate Pruned(scratch: Path, guards: set<Path>, roots: set<Path>, before: Holding, now: Holding, gone: Gone) {
    && now.analyses == DropAnalyses(before.analyses, roots, gone.analyses)
    && now.artifacts == DropArtifacts(Kept(before.artifacts, gone.units), roots, gone.artifacts)
    && now.files == Without(before.files, gone.units + gone.trees)
    && (gone.artifacts > 0 ==> forall a <- now.analyses :: Touches(a.sources, roots))
    && (forall unit <- gone.units :: UnitGone(scratch, before.analyses, now.analyses, guards, roots, unit))
    && (forall tree <- gone.trees :: !Guards(roots, tree))
  }

  lemma NothingPruned(scratch: Path, guards: set<Path>, roots: set<Path>, h: Holding)
    ensures Pruned(scratch, guards, roots, h, h, Gone(0, 0, {}, {}))
  {
    hide Touches, Guards, UnitGone, Kept, Without;
    KeptNothing(h.artifacts);
    WithoutNothing(h.files);
    var none: set<Path> := {};
    assert none + none == none;
  }

  lemma {:induction false} DropMember(analyses: seq<Analysis>, roots: set<Path>, k: nat)
    ensures forall a <- DropAnalyses(analyses, roots, k) :: a in analyses
    decreases |analyses|
  {
    hide Touches;
    if analyses != [] && k > 0 {
      DropMember(analyses[1..], roots, k);
      DropMember(analyses[1..], roots, k - 1);
    }
  }

  ghost predicate DistinctIds(analyses: seq<Analysis>) {
    forall i, j | 0 <= i < j < |analyses| :: analyses[i].id != analyses[j].id
  }

  /** The units freed with an analysis are gone for good reason. */
  lemma FreedGone(scratch: Path, before: seq<Analysis>, mid: seq<Analysis>, guards: set<Path>, roots: set<Path>, i: nat)
    requires i < |mid| && DistinctIds(mid) && mid[i] in before && !Touches(mid[i].sources, roots)
    ensures var after := mid[..i] + mid[i + 1..];
            forall unit <- Freed(scratch, mid[i], after, guards) :: UnitGone(scratch, before, after, guards, roots, unit)
  {
    hide Guards, UnitOf, Touches;
    var after := mid[..i] + mid[i + 1..];
    forall unit <- Freed(scratch, mid[i], after, guards)
      ensures UnitGone(scratch, before, after, guards, roots, unit)
    {
      forall a <- after, source <- a.sources | !a.preserved
        ensures !Overlap(source, unit)
      {
        assert a.id != mid[i].id;
      }
    }
  }

  /** Fewer analyses need no more units. */
  lemma StillGone(scratch: Path, before: seq<Analysis>, mid: seq<Analysis>, after: seq<Analysis>, guards: set<Path>, roots: set<Path>, unit: Path)
    requires UnitGone(scratch, before, mid, guards, roots, unit) && forall a <- after :: a in mid
    ensures UnitGone(scratch, before, after, guards, roots, unit)
  {
  }

  lemma Evicted(scratch: Path, guards: set<Path>, roots: set<Path>, before: Holding, mid: Holding, now: Holding, gone: Gone,
                i: nat, freed: set<Path>)
    requires Pruned(scratch, guards, roots, before, mid, gone) && DistinctIds(mid.analyses)
    requires i < |mid.analyses| && !Touches(mid.analyses[i].sources, roots)
    requires forall j | 0 <= j < i :: Touches(mid.analyses[j].sources, roots)
    requires now.analyses == mid.analyses[..i] + mid.analyses[i + 1..]
    requires freed == Freed(scratch, mid.analyses[i], now.analyses, guards)
    requires now.files == Without(mid.files, freed) && now.artifacts == Kept(mid.artifacts, freed)
    ensures Pruned(scratch, guards, roots, before, now, gone.(analyses := gone.analyses + 1, units := gone.units + freed))
  {
    hide Touches, Guards, UnitGone, Kept, Without, Freed, DropAnalyses;
    DropOneMore(before.analyses, roots, gone.analyses, i);
    DropMember(before.analyses, roots, gone.analyses);
    assert mid.analyses[i] in mid.analyses;
    assert gone.artifacts == 0;
    KeptTwice(before.artifacts, gone.units, freed);
    WithoutTwice(before.files, gone.units + gone.trees, freed);
    assert gone.units + gone.trees + freed == (gone.units + freed) + gone.trees;
    FreedGone(scratch, before.analyses, mid.analyses, guards, roots, i);
    forall unit <- gone.units
      ensures UnitGone(scratch, before.analyses, now.analyses, guards, roots, unit)
    {
      StillGone(scratch, before.analyses, mid.analyses, now.analyses, guards, roots, unit);
    }
  }

  lemma Dropped(scratch: Path, guards: set<Path>, roots: set<Path>, before: Holding, mid: Holding, now: Holding, gone: Gone, i: nat)
    requires Pruned(scratch, guards, roots, before, mid, gone) && forall a <- mid.analyses :: Touches(a.sources, roots)
    requires i < |mid.artifacts| && !Guards(roots, mid.artifacts[i].path)
    requires forall j | 0 <= j < i :: Guards(roots, mid.artifacts[j].path)
    requires now.analyses == mid.analyses && now.artifacts == mid.artifacts[..i] + mid.artifacts[i + 1..]
    requires now.files == Without(mid.files, {mid.artifacts[i].path})
    ensures Pruned(scratch, guards, roots, before, now,
                   gone.(artifacts := gone.artifacts + 1, trees := gone.trees + {mid.artifacts[i].path}))
  {
    hide Touches, Guards, UnitGone, Kept, Without, DropAnalyses, DropArtifacts;
    var path := mid.artifacts[i].path;
    DropOneArtifact(Kept(before.artifacts, gone.units), roots, gone.artifacts, i);
    WithoutTwice(before.files, gone.units + gone.trees, {path});
    assert gone.units + gone.trees + {path} == gone.units + (gone.trees + {path});
  }

  /** A unit freed with an analysis that touches no protected root overlaps a
      protected root only where that root lies strictly inside the unit. */
  lemma UnitSpares(scratch: Path, sources: seq<Path>, root: Path, unit: Path)
    requires unit in Units(scratch, sources) && !Touches(sources, {root})
    ensures Overlap(unit, root) <==> unit <= root && unit != root
  {
    var source :| source in sources && UnitOf(scratch, source) == Some(unit);
    assert unit <= source;
    assert !Guards({root}, source);
    assert !Overlap(source, root);
    if root <= unit {
      assert false;
    }
  }

  /** Deleting trees never raises what the session is committed to. */
  lemma DeletingLowers(files: map<Path, nat>, gone: set<Path>, reserved: map<Path, Amount>)
    requires DisjointRoots(reserved.Keys)
    ensures var before, after := Committed(Scratch(files, reserved)), Committed(Scratch(Without(files, gone), reserved));
            after.bytes <= before.bytes && after.files <= before.files
  {
    var deleted := set path | path in files && Within(gone, path);
    var b, f := ReservedBytes(reserved), ReservedFiles(reserved);
    assert b.Keys == reserved.Keys && f.Keys == reserved.Keys;
    assert Without(files, gone) == files - deleted;
    assert Ones(files - deleted) == Ones(files) - deleted;
    RemoveRaisesNothing(files, b, deleted);
    RemoveRaisesNothing(Ones(files), f, deleted);
  }

  /** The ledger's view of a deletion. */
  ghost predicate Removal(before: Scratch, after: Scratch) {
    exists gone: set<Path> :: after == Step(before, Remove(gone))
  }

  lemma WithoutIsRemoval(files: map<Path, nat>, gone: set<Path>, reserved: map<Path, Amount>)
    ensures Removal(Scratch(files, reserved), Scratch(Without(files, gone), reserved))
  {
    var deleted := set path | path in files && Within(gone, path);
    assert Without(files, gone) == files - deleted;
    assert Scratch(Without(files, gone), reserved) == Step(Scratch(files, reserved), Remove(deleted));
  }

  lemma RemovalTwice(a: Scratch, b: Scratch, c: Scratch)
    requires Removal(a, b) && Removal(b, c)
    ensures Removal(a, c)
  {
    var x :| b == Step(a, Remove(x));
    var y :| c == Step(b, Remove(y));
    assert a.files - x - y == a.files - (x + y);
    assert c == Step(a, Remove(x + y));
  }

  /** A deletion keeps the ledger's invariant. */
  lemma RemovalKeeps(before: Scratch, after: Scratch)
    requires Removal(before, after) && ScratchLedger.Inv(before)
    ensures ScratchLedger.Inv(after)
  {
    hide Step, ScratchLedger.Inv;
    var gone :| after == Step(before, Remove(gone));
    RemoveStep(before, gone);
  }

  /** The first analysis that touches no protected root, or their number. */
  function FirstLoose(analyses: seq<Analysis>, roots: set<Path>): (i: nat)
    ensures i <= |analyses| && forall j | 0 <= j < i :: Touches(analyses[j].sources, roots)
    ensures i < |analyses| ==> !Touches(analyses[i].sources, roots)
  {
    if analyses == [] || !Touches(analyses[0].sources, roots) then 0 else 1 + FirstLoose(analyses[1..], roots)
  }

  function FirstLooseArtifact(artifacts: seq<Artifact>, roots: set<Path>): (i: nat)
    ensures i <= |artifacts| && forall j | 0 <= j < i :: Guards(roots, artifacts[j].path)
    ensures i < |artifacts| ==> !Guards(roots, artifacts[i].path)
  {
    if artifacts == [] || !Guards(roots, artifacts[0].path) then 0 else 1 + FirstLooseArtifact(artifacts[1..], roots)
  }

  /** The least recently used analysis that may go is gone with all it alone needed. */
  function EvictOne(scratch: Path, guards: set<Path>, roots: set<Path>, h: Holding): Option<Holding> {
    var i := FirstLoose(h.analyses, roots);
    if i == |h.analyses| then None
    else
      var left := h.analyses[..i] + h.analyses[i + 1..];
      var freed := Freed(scratch, h.analyses[i], left, guards);
      Some(Holding(left, Kept(h.artifacts, freed), Without(h.files, freed)))
  }

  /** An eviction, exactly: the analysis is gone; a file is gone if and only if it lies
      in a unit of that analysis that no analysis left behind needs unless preserved, and
      nothing protected or reserved; and so is an artifact. */
  lemma EvictedExactly(scratch: Path, guards: set<Path>, roots: set<Path>, h: Holding)
    requires EvictOne(scratch, guards, roots, h).Some? && DistinctIds(h.analyses)
    ensures var next := EvictOne(scratch, guards, roots, h).value;
            exists i: nat :: i < |h.analyses| && next.analyses == h.analyses[..i] + h.analyses[i + 1..]
              && (forall source <- h.analyses[i].sources, root <- roots :: !Overlap(source, root))
              && (forall path: Path :: path in next.files <==> path in h.files && !Released(scratch, h.analyses[i], next.analyses, guards, path))
              && (forall path <- next.files :: next.files[path] == h.files[path])
              && (forall x: Artifact :: x in next.artifacts <==> x in h.artifacts && !Released(scratch, h.analyses[i], next.analyses, guards, x.path))
  {
    var i := FirstLoose(h.analyses, roots);
    var next := EvictOne(scratch, guards, roots, h).value;
    var cached := h.analyses[i];
    var freed := Freed(scratch, cached, next.analyses, guards);
    hide IsUnit, Unneeded, Freed;
    KeptIs(h.artifacts, freed);
    forall path: Path
      ensures Within(freed, path) <==> Released(scratch, cached, next.analyses, guards, path)
    {
      ReleasedIs(scratch, cached, next.analyses, guards, path);
    }
    hide Released;
    forall source <- cached.sources, root <- roots
      ensures !Overlap(source, root)
    {
      assert !Guards(roots, source);
    }
    assert next.analyses == h.analyses[..i] + h.analyses[i + 1..];
  }

  /** The path lies in a unit that goes with the analysis. */
  ghost predicate Released(scratch: Path, cached: Analysis, others: seq<Analysis>, guards: set<Path>, path: Path) {
    exists unit: Path ::
      && IsUnit(scratch, unit) && unit <= path && (exists source <- cached.sources :: unit <= source)
      && Unneeded(others, cached.id, guards, unit)
  }

  lemma ReleasedIs(scratch: Path, cached: Analysis, others: seq<Analysis>, guards: set<Path>, path: Path)
    ensures Within(Freed(scratch, cached, others, guards), path) <==> Released(scratch, cached, others, guards, path)
  {
    hide IsUnit, Unneeded, Freed;
    var freed := Freed(scratch, cached, others, guards);
    forall unit: Path
      ensures unit in freed <==> IsUnit(scratch, unit) && (exists source <- cached.sources :: unit <= source)
                                 && Unneeded(others, cached.id, guards, unit)
    {
      FreedExactly(scratch, cached, others, guards, unit);
    }
  }

  /** The oldest artifact that may go is gone. */
  function DropOne(roots: set<Path>, h: Holding): Option<Holding> {
    var i := FirstLooseArtifact(h.artifacts, roots);
    if i == |h.artifacts| then None
    else Some(Holding(h.analyses, h.artifacts[..i] + h.artifacts[i + 1..], Without(h.files, {h.artifacts[i].path})))
  }

  /** One turn of pruning: an analysis if one may go, else an artifact. */
  function PruneOne(scratch: Path, guards: set<Path>, roots: set<Path>, h: Holding): Option<Holding> {
    match EvictOne(scratch, guards, roots, h)
    case Some(next) => Some(next)
    case None => DropOne(roots, h)
  }

  function Else(next: Option<Holding>, h: Holding): Holding {
    match next
    case Some(it) => it
    case None => h
  }

  function PruneSteps(scratch: Path, guards: set<Path>, roots: set<Path>, h: Holding, n: nat): Holding {
    if n == 0 then h
    else
      var before := PruneSteps(scratch, guards, roots, h, n - 1);
      Else(PruneOne(scratch, guards, roots, before), before)
  }

  function EvictSteps(scratch: Path, guards: set<Path>, roots: set<Path>, h: Holding, n: nat): Holding {
    if n == 0 then h
    else
      var before := EvictSteps(scratch, guards, roots, h, n - 1);
      Else(EvictOne(scratch, guards, roots, before), before)
  }

  /** To the ledger, pruning is nothing but deletion. */
  lemma {:induction false} StepsRemove(scratch: Path, guards: set<Path>, roots: set<Path>, h: Holding, n: nat, reserved: map<Path, Amount>)
    ensures Removal(Scratch(h.files, reserved), Scratch(PruneSteps(scratch, guards, roots, h, n).files, reserved))
    ensures Removal(Scratch(h.files, reserved), Scratch(EvictSteps(scratch, guards, roots, h, n).files, reserved))
  {
    hide Removal, EvictOne, DropOne, Without;
    if n == 0 {
      WithoutNothing(h.files);
      WithoutIsRemoval(h.files, {}, reserved);
    } else {
      StepsRemove(scratch, guards, roots, h, n - 1, reserved);
      var pruned, evicted := PruneSteps(scratch, guards, roots, h, n - 1), EvictSteps(scratch, guards, roots, h, n - 1);
      OneRemoves(scratch, guards, roots, pruned, reserved);
      OneRemoves(scratch, guards, roots, evicted, reserved);
      var start := Scratch(h.files, reserved);
      RemovalTwice(start, Scratch(pruned.files, reserved), Scratch(PruneSteps(scratch, guards, roots, h, n).files, reserved));
      RemovalTwice(start, Scratch(evicted.files, reserved), Scratch(EvictSteps(scratch, guards, roots, h, n).files, reserved));
    }
  }

  lemma OneRemoves(scratch: Path, guards: set<Path>, roots: set<Path>, h: Holding, reserved: map<Path, Amount>)
    ensures Removal(Scratch(h.files, reserved), Scratch(Else(PruneOne(scratch, guards, roots, h), h).files, reserved))
    ensures Removal(Scratch(h.files, reserved), Scratch(Else(EvictOne(scratch, guards, roots, h), h).files, reserved))
  {
    hide Removal, Without, Freed, Kept, FirstLoose, FirstLooseArtifact;
    WithoutNothing(h.files);
    WithoutIsRemoval(h.files, {}, reserved);
    var i, j := FirstLoose(h.analyses, roots), FirstLooseArtifact(h.artifacts, roots);
    if i < |h.analyses| {
      WithoutIsRemoval(h.files, Freed(scratch, h.analyses[i], h.analyses[..i] + h.analyses[i + 1..], guards), reserved);
    }
    if j < |h.artifacts| {
      WithoutIsRemoval(h.files, {h.artifacts[j].path}, reserved);
    }
  }

  lemma EvictHead(scratch: Path, guards: set<Path>, h: Holding)
    requires h.analyses != []
    ensures var next := EvictOne(scratch, guards, {}, h); next.Some? && next.value.analyses == h.analyses[1..]
  {
    hide Freed, Kept, Without;
    assert !Touches(h.analyses[0].sources, {});
    assert h.analyses[..0] + h.analyses[1..] == h.analyses[1..];
  }

  /** With nothing protected, eviction takes analyses from the front. */
  lemma {:induction false} EvictFront(scratch: Path, guards: set<Path>, h: Holding, n: nat)
    requires n <= |h.analyses|
    ensures EvictSteps(scratch, guards, {}, h, n).analyses == h.analyses[n..]
  {
    hide EvictOne;
    if n > 0 {
      EvictFront(scratch, guards, h, n - 1);
      EvictHead(scratch, guards, EvictSteps(scratch, guards, {}, h, n - 1));
    }
  }

  /** A position in front of which everything is protected is the first loose one. */
  lemma {:induction false} FirstLooseIs(analyses: seq<Analysis>, roots: set<Path>, i: nat)
    requires i <= |analyses| && forall j | 0 <= j < i :: Touches(analyses[j].sources, roots)
    requires i < |analyses| ==> !Touches(analyses[i].sources, roots)
    ensures FirstLoose(analyses, roots) == i
  {
    hide Touches;
    var k := FirstLoose(analyses, roots);
    if k < i {
      assert false;
    } else if i < k {
      assert false;
    }
  }

  lemma FirstLooseArtifactIs(artifacts: seq<Artifact>, roots: set<Path>, i: nat)
    requires i <= |artifacts| && forall j | 0 <= j < i :: Guards(roots, artifacts[j].path)
    requires i < |artifacts| ==> !Guards(roots, artifacts[i].path)
    ensures FirstLooseArtifact(artifacts, roots) == i
  {
    hide Guards;
    var k := FirstLooseArtifact(artifacts, roots);
    if k < i {
      assert false;
    } else if i < k {
      assert false;
    }
  }

  /** Where nothing more may go, every analysis and every artifact is protected. */
  lemma StuckMeans(scratch: Path, guards: set<Path>, roots: set<Path>, h: Holding)
    ensures PruneOne(scratch, guards, roots, h).None? <==>
            (forall a <- h.analyses :: Touches(a.sources, roots)) && forall a <- h.artifacts :: Guards(roots, a.path)
  {
    hide Touches, Guards, Freed, Kept, Without;
    var i, j := FirstLoose(h.analyses, roots), FirstLooseArtifact(h.artifacts, roots);
    if i < |h.analyses| {
      assert h.analyses[i] in h.analyses;
    } else if j < |h.artifacts| {
      assert h.artifacts[j] in h.artifacts;
    }
  }

  lemma OneFewer(analyses: seq<Analysis>, i: nat)
    requires i < |analyses| && DistinctIds(analyses)
    ensures DistinctIds(analyses[..i] + analyses[i + 1..])
  {
  }

  lemma EvictPruned(scratch: Path, guards: set<Path>, roots: set<Path>, before: Holding, mid: Holding, gone: Gone)
    returns (more: Gone)
    requires Pruned(scratch, guards, roots, before, mid, gone) && DistinctIds(mid.analyses)
    requires EvictOne(scratch, guards, roots, mid).Some?
    ensures var now := EvictOne(scratch, guards, roots, mid).value;
            Pruned(scratch, guards, roots, before, now, more) && DistinctIds(now.analyses)
  {
    hide Touches, Pruned, Freed, Kept, Without;
    var i := FirstLoose(mid.analyses, roots);
    var now := EvictOne(scratch, guards, roots, mid).value;
    var freed := Freed(scratch, mid.analyses[i], now.analyses, guards);
    Evicted(scratch, guards, roots, before, mid, now, gone, i, freed);
    OneFewer(mid.analyses, i);
    more := gone.(analyses := gone.analyses + 1, units := gone.units + freed);
  }

  lemma DropPruned(scratch: Path, guards: set<Path>, roots: set<Path>, before: Holding, mid: Holding, gone: Gone)
    returns (more: Gone)
    requires Pruned(scratch, guards, roots, before, mid, gone)
    requires EvictOne(scratch, guards, roots, mid).None? && DropOne(roots, mid).Some?
    ensures Pruned(scratch, guards, roots, before, DropOne(roots, mid).value, more)
  {
    hide Touches, Guards, Pruned, Kept, Without;
    var i := FirstLooseArtifact(mid.artifacts, roots);
    forall a <- mid.analyses
      ensures Touches(a.sources, roots)
    {
    }
    Dropped(scratch, guards, roots, before, mid, DropOne(roots, mid).value, gone, i);
    more := gone.(artifacts := gone.artifacts + 1, trees := gone.trees + {mid.artifacts[i].path});
  }

  /** However far pruning goes, analyses are gone from the front of their order, then
      artifacts from theirs, and each deleted tree is gone for good reason. */
  lemma {:induction false} StepsPruned(scratch: Path, guards: set<Path>, roots: set<Path>, h: Holding, n: nat) returns (gone: Gone)
    requires DistinctIds(h.analyses)
    ensures var now := PruneSteps(scratch, guards, roots, h, n);
            Pruned(scratch, guards, roots, h, now, gone) && DistinctIds(now.analyses)
  {
    hide Pruned, EvictOne, DropOne, DistinctIds;
    if n == 0 {
      NothingPruned(scratch, guards, roots, h);
      gone := Gone(0, 0, {}, {});
    } else {
      gone := StepsPruned(scratch, guards, roots, h, n - 1);
      var mid := PruneSteps(scratch, guards, roots, h, n - 1);
      if EvictOne(scratch, guards, roots, mid).Some? {
        gone := EvictPruned(scratch, guards, roots, h, mid, gone);
      } else if DropOne(roots, mid).Some? {
        gone := DropPruned(scratch, guards, roots, h, mid, gone);
        SameAnalyses(roots, mid);
      }
    }
  }

  lemma SameAnalyses(roots: set<Path>, h: Holding)
    requires DropOne(roots, h).Some?
    ensures DropOne(roots, h).value.analyses == h.analyses
  {
  }

  /** A root that lies strictly inside no capture root and no evidence bundle. */
  predicate SafeRoot(scratch: Path, root: Path) {
    UnitOf(scratch, root) == None || UnitOf(scratch, root) == Some(root)
  }

  lemma UnitShape(scratch: Path, source: Path, unit: Path, root: Path)
    requires UnitOf(scratch, source) == Some(unit) && unit <= root
    ensures UnitOf(scratch, root) == Some(unit)
  {
    var relative, inner := source[|scratch|..], root[|scratch|..];
    assert scratch <= unit;
    assert scratch <= root;
    assert inner[0] == root[|scratch|] == unit[|scratch|] == relative[0];
    if "capture-" <= relative[0] {
      assert scratch + inner[..1] == scratch + relative[..1];
    } else {
      assert inner[1] == root[|scratch| + 1] == unit[|scratch| + 1] == relative[1];
      assert inner[..2] == relative[..2];
    }
  }

  lemma UnitsMember(scratch: Path, sources: seq<Path>, unit: Path) returns (source: Path)
    requires unit in Units(scratch, sources)
    ensures source in sources && UnitOf(scratch, source) == Some(unit)
  {
    source :| source in sources && UnitOf(scratch, source) == Some(unit);
  }

  lemma TouchesMore(paths: seq<Path>, roots: set<Path>, more: set<Path>)
    requires roots <= more && Touches(paths, roots)
    ensures Touches(paths, more)
  {
    var path :| path in paths && Guards(roots, path);
    var root :| root in roots && Overlap(path, root);
    assert root in more;
    assert Guards(more, path);
  }

  /** No deleted tree overlaps a safe protected root. */
  lemma NoneOverlaps(scratch: Path, guards: set<Path>, root: Path, before: Holding, now: Holding, gone: Gone, tree: Path)
    requires Pruned(scratch, guards, guards + {root}, before, now, gone) && tree in gone.units + gone.trees
    ensures !Guards(guards, tree)
    ensures SafeRoot(scratch, root) ==> !Overlap(tree, root)
  {
    hide DropAnalyses, DropArtifacts, Without, Kept, UnitOf;
    var roots := guards + {root};
    if tree in gone.units {
      assert UnitGone(scratch, before.analyses, now.analyses, guards, roots, tree);
      var a :| a in before.analyses && !Touches(a.sources, roots) && tree in Units(scratch, a.sources);
      if Touches(a.sources, {root}) {
        TouchesMore(a.sources, {root}, roots);
      }
      UnitSpares(scratch, a.sources, root, tree);
      if Overlap(tree, root) {
        var source := UnitsMember(scratch, a.sources, tree);
        UnitShape(scratch, source, tree, root);
      }
    } else {
      forall guard <- guards
        ensures !Overlap(tree, guard)
      {
        assert guard in roots;
      }
      assert root in roots;
    }
  }

  /** Pruning deletes nothing at or below a protected source or a reservation, nor at
      or below the protected root of its caller, if that root is a safe one. */
  lemma PruningSpares(scratch: Path, guards: set<Path>, root: Path, before: Holding, n: nat)
    requires DistinctIds(before.analyses)
    ensures var now := PruneSteps(scratch, guards, guards + {root}, before, n);
            && (forall path <- before.files, guard <- guards :: guard <= path ==>
                  path in now.files && now.files[path] == before.files[path])
            && (SafeRoot(scratch, root) ==> forall path <- before.files :: root <= path ==>
                  path in now.files && now.files[path] == before.files[path])
  {
    hide SafeRoot;
    var now := PruneSteps(scratch, guards, guards + {root}, before, n);
    var gone := StepsPruned(scratch, guards, guards + {root}, before, n);
    FilesLeft(scratch, guards, guards + {root}, before, now, gone);
    hide Pruned, PruneSteps;
    forall path <- before.files, top | Within(gone.units + gone.trees, path) && top <= path && (top in guards || top == root)
      ensures top !in guards && !SafeRoot(scratch, root)
    {
      var tree :| tree in gone.units + gone.trees && tree <= path;
      NoneOverlaps(scratch, guards, root, before, now, gone, tree);
      Nested(tree, top, path);
    }
  }

  lemma Nested(a: Path, b: Path, path: Path)
    requires a <= path && b <= path
    ensures Overlap(a, b)
  {
  }

  lemma FilesLeft(scratch: Path, guards: set<Path>, roots: set<Path>, before: Holding, now: Holding, gone: Gone)
    requires Pruned(scratch, guards, roots, before, now, gone)
    ensures forall path <- before.files :: !Within(gone.units + gone.trees, path) ==>
              path in now.files && now.files[path] == before.files[path]
  {
  }

  /** An analysis beside a root, and a file of any size below it. */
  function Beside(unit: Path, root: Path, size: nat): Holding
    requires unit < root
  {
    Holding([Analysis("a", [unit + [root[|unit|] + "x"]], false)], [], map[root := size])
  }

  /** A root strictly inside a capture root or an evidence bundle is not safe: pruning
      releases the unit with an analysis beside the root, and takes the root's files. */
  lemma InsideUnitIsLost(scratch: Path, root: Path, unit: Path, size: nat)
    requires UnitOf(scratch, root) == Some(unit) && unit != root
    ensures unit < root && DistinctIds(Beside(unit, root, size).analyses)
    ensures PruneSteps(scratch, {}, {root}, Beside(unit, root, size), 1) == Holding([], [], map[])
  {
    UnitIsAbove(scratch, root, unit);
    var source := unit + [root[|unit|] + "x"];
    var h := Beside(unit, root, size);
    var cached := h.analyses[0];
    assert source[|unit|] != root[|unit|];
    assert cached.sources == [source];
    assert !Touches(cached.sources, {root});
    UnitShape(scratch, root, unit, source);
    assert source in cached.sources && unit in Units(scratch, cached.sources);
    var freed := Freed(scratch, cached, [], {});
    assert unit in freed && Within(freed, root);
    assert h.analyses[..0] + h.analyses[1..] == [];
    assert EvictOne(scratch, {}, {root}, h) == Some(Holding([], Kept([], freed), Without(h.files, freed)));
    assert PruneSteps(scratch, {}, {root}, h, 0) == h;
  }

  lemma UnitIsAbove(scratch: Path, root: Path, unit: Path)
    requires UnitOf(scratch, root) == Some(unit) && unit != root
    ensures unit < root
  {
    var relative := root[|scratch|..];
    assert root == scratch + relative;
  }

  /** Pruning spares what lies below a protected root, whatever the session holds and
      however far it goes, if and only if the root is safe. */
  lemma SparesExactly(scratch: Path, root: Path)
    ensures SafeRoot(scratch, root) <==>
            forall guards: set<Path>, h: Holding, n: nat, path: Path ::
              DistinctIds(h.analyses) && path in h.files && root <= path ==>
                path in PruneSteps(scratch, guards, guards + {root}, h, n).files
  {
    if SafeRoot(scratch, root) {
      forall guards: set<Path>, h: Holding, n: nat, path: Path | DistinctIds(h.analyses) && path in h.files && root <= path
        ensures path in PruneSteps(scratch, guards, guards + {root}, h, n).files
      {
        PruningSpares(scratch, guards, root, h, n);
      }
    } else {
      var unit := UnitOf(scratch, root).value;
      InsideUnitIsLost(scratch, root, unit, 1);
      var none: set<Path> := {};
      assert none + {root} == {root};
      var h := Beside(unit, root, 1);
      assert root in h.files && root !in PruneSteps(scratch, none, none + {root}, h, 1).files;
    }
  }

  /** The roots the callers of pruning pass: a whole capture root, and a conversion. */
  lemma CallersAreSafe(scratch: Path, token: string, below: Path)
    ensures SafeRoot(scratch, scratch + ["capture-" + token])
    ensures SafeRoot(scratch, scratch + (["conversions"] + below))
  {
    var capture := scratch + ["capture-" + token];
    assert capture[|scratch|..] == ["capture-" + token];
    assert capture[|scratch|..][..1] == ["capture-" + token];
    var conversion := scratch + (["conversions"] + below);
    assert conversion[|scratch|..] == ["conversions"] + below;
    assert !("capture-" <= "conversions") by {
      assert "capture-"[1] != "conversions"[1];
    }
    assert "conversions"[0] != "evidence-sources"[0];
  }
}
