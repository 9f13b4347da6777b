/**
 The validator of a manifest's source layout, and the two theorems about published
 layouts: they always pass it, and replay finds in them what was analyzed.
 */
module ManifestMembership {
  import opened Results
  import opened LayoutRoles
  import opened PublicationLayout
  import RelativePaths

  function TotalSize(members: seq<Artifact>): nat {
    if members == [] then 0 else TotalSize(members[..|members| - 1]) + members[|members| - 1].size
  }

  function MemberPairs(paths: seq<string>, members: seq<Artifact>): (r: seq<(string, string)>)
    requires |paths| == |members|
    ensures |r| == |paths| && forall i | 0 <= i < |r| :: r[i] == (paths[i], members[i].sha256)
  {
    seq(|paths|, i requires 0 <= i < |paths| => (paths[i], members[i].sha256))
  }

  /** LogicalSource.validate_members. */
  predicate ValidMembers(rules: Rules, l: Logical, members: seq<Artifact>) {
    && l.size == TotalSize(members)
    && if l.isDirectory then
         && |l.paths| == |members| && Distinct(l.paths) && (forall p <- l.paths :: rules.validPath(p))
         && (forall i, j | 0 <= i < |l.paths| && 0 <= j < |l.paths| :: !IsAncestor(l.paths[i], l.paths[j]))
         && l.sha256 == rules.bundle(MemberPairs(l.paths, members))
       else |members| == 1 && members[0].role == l.role && l.paths == [] && l.sha256 == members[0].sha256
  }

  function LogicalRoles(sources: seq<Logical>): (r: seq<string>)
    ensures |r| == |sources| && forall i | 0 <= i < |r| :: r[i] == sources[i].role
  {
    seq(|sources|, i requires 0 <= i < |sources| => sources[i].role)
  }

  /** The artifact indices of the first n sources. */
  function AllIndices(sources: seq<Logical>, n: nat): seq<nat>
    requires n <= |sources|
  {
    if n == 0 then [] else AllIndices(sources, n - 1) + sources[n - 1].indices
  }

  predicate NoRepeats(indices: seq<nat>) {
    forall i, j | 0 <= i < j < |indices| :: indices[i] != indices[j]
  }

  predicate InRange(indices: seq<nat>, n: nat) {
    forall k | 0 <= k < |indices| :: indices[k] < n
  }

  function MembersOf(artifacts: seq<Artifact>, indices: seq<nat>): (r: seq<Artifact>)
    requires InRange(indices, |artifacts|)
    ensures |r| == |indices| && forall k | 0 <= k < |r| :: r[k] == artifacts[indices[k]]
  {
    seq(|indices|, k requires 0 <= k < |indices| => artifacts[indices[k]])
  }

  /** A logical source fits the artifacts it names. */
  predicate SourceOk(rules: Rules, l: Logical, artifacts: seq<Artifact>) {
    && InRange(l.indices, |artifacts|)
    && (forall i | 0 <= i < |l.indices| ::
          artifacts[l.indices[i]].format == l.format && artifacts[l.indices[i]].producer == l.producer)
    && ValidMembers(rules, l, MembersOf(artifacts, l.indices))
  }

  predicate SameIdentity(l: Logical, item: Input) {
    l.isDirectory == item.isDirectory && l.sha256 == item.sha256 && l.format == item.format && l.producer == item.producer
  }

  /** ManifestBody.membership: the artifacts are partitioned among the sources, each
      source fits its artifacts, each analyzed input is one of the sources. */
  predicate Membership(rules: Rules, artifacts: seq<Artifact>, layout: Layout, inputs: seq<Input>) {
    var sources := layout.sources;
    var indices := AllIndices(sources, |sources|);
    && Distinct(Roles(artifacts)) && Distinct(LogicalRoles(sources))
    && NoRepeats(indices) && (forall k | 0 <= k < |artifacts| :: k in indices)
    && (forall l <- sources :: SourceOk(rules, l, artifacts))
    && |layout.analysisSources| == |inputs|
    && forall k | 0 <= k < |inputs| ::
         layout.analysisSources[k] < |sources| && SameIdentity(sources[layout.analysisSources[k]], inputs[k])
  }

  lemma {:induction false} TotalIsSum(s: Source, role: string, n: nat)
    requires n <= |s.files|
    ensures TotalSize(Members(s, role)[..n]) == Sum(s.files[..n])
  {
    if n > 0 {
      TotalIsSum(s, role, n - 1);
      assert Members(s, role)[..n][..n - 1] == Members(s, role)[..n - 1];
      assert s.files[..n][..n - 1] == s.files[..n - 1];
    } else {
      assert Members(s, role)[..0] == [] && s.files[..0] == [];
    }
  }

  /** The members of a published source stand where the layout says. */
  lemma {:induction false} MembersAt(sources: seq<Source>, namespace: bool, i: nat, n: nat)
    requires i < n <= |sources|
    ensures var start := |Artifacts(sources, namespace, i)|;
            var all := Artifacts(sources, namespace, n);
            && start + |sources[i].files| <= |all|
            && all[start..start + |sources[i].files|] == Members(sources[i], RoleOf(sources, namespace, i))
  {
    hide Members, RoleOf;
    var front, last := Artifacts(sources, namespace, n - 1), Members(sources[n - 1], RoleOf(sources, namespace, n - 1));
    assert Artifacts(sources, namespace, n) == front + last;
    if i < n - 1 {
      MembersAt(sources, namespace, i, n - 1);
      var start := |Artifacts(sources, namespace, i)|;
      assert (front + last)[start..start + |sources[i].files|] == front[start..start + |sources[i].files|];
    } else {
      assert (front + last)[|front|..] == last && |last| == |sources[i].files|;
    }
  }

  lemma RangeMembers(artifacts: seq<Artifact>, start: nat, n: nat)
    requires start + n <= |artifacts|
    ensures InRange(Range(start, n), |artifacts|) && MembersOf(artifacts, Range(start, n)) == artifacts[start..start + n]
  {
  }

  /** The paths a manifest may hold. */
  predicate PathsValid(rules: Rules, s: Source) {
    s.isDirectory ==> forall f <- s.files :: rules.validPath(f.relative)
  }

  lemma PublishedMembers(rules: Rules, sources: seq<Source>, namespace: bool, i: nat)
    requires i < |sources| && Current(rules, sources[i]) && Listed(sources[i])
    ensures SourceOk(rules, LogicalOf(sources, namespace, i), Artifacts(sources, namespace, |sources|))
            <==> PathsValid(rules, sources[i])
    ensures InRange(LogicalOf(sources, namespace, i).indices, |Artifacts(sources, namespace, |sources|)|)
    ensures MembersOf(Artifacts(sources, namespace, |sources|), LogicalOf(sources, namespace, i).indices)
         == Members(sources[i], RoleOf(sources, namespace, i))
  {
    hide Artifacts;
    var s, l := sources[i], LogicalOf(sources, namespace, i);
    var all, role := Artifacts(sources, namespace, |sources|), RoleOf(sources, namespace, i);
    MembersAt(sources, namespace, i, |sources|);
    RangeMembers(all, |Artifacts(sources, namespace, i)|, |s.files|);
    var members := Members(s, role);
    assert MembersOf(all, l.indices) == members;
    forall j | 0 <= j < |l.indices|
      ensures all[l.indices[j]].format == l.format && all[l.indices[j]].producer == l.producer
    {
      assert members[j] == all[l.indices[j]];
    }
    ValidIffPaths(rules, s, l, role);
  }

  lemma ValidIffPaths(rules: Rules, s: Source, l: Logical, role: string)
    requires Current(rules, s) && Listed(s)
    requires l.role == role && l.sha256 == s.sha256 && l.size == s.size && l.isDirectory == s.isDirectory
    requires l.paths == Relatives(s)
    ensures ValidMembers(rules, l, Members(s, role)) <==> PathsValid(rules, s)
  {
    var members := Members(s, role);
    TotalIsSum(s, role, |s.files|);
    assert members[..|s.files|] == members && s.files[..|s.files|] == s.files;
    if s.isDirectory {
      assert MemberPairs(l.paths, members) == Pairs(s.files);
      SamePaths(rules, s);
    }
  }

  lemma SamePaths(rules: Rules, s: Source)
    requires s.isDirectory && |Relatives(s)| == |s.files|
    requires forall k | 0 <= k < |s.files| :: Relatives(s)[k] == s.files[k].relative
    ensures PathsValid(rules, s) <==> forall p <- Relatives(s) :: rules.validPath(p)
  {
    var paths := Relatives(s);
    hide Relatives;
    if PathsValid(rules, s) {
      forall p <- paths
        ensures rules.validPath(p)
      {
        var k :| 0 <= k < |paths| && paths[k] == p;
        assert s.files[k] in s.files;
      }
    }
    if forall p <- paths :: rules.validPath(p) {
      forall f <- s.files
        ensures rules.validPath(f.relative)
      {
        var k :| 0 <= k < |s.files| && s.files[k] == f;
        assert paths[k] in paths;
      }
    }
  }

  /** Published indices are the artifacts in order. */
  lemma {:induction false} IndicesInOrder(sources: seq<Source>, namespace: bool, logical: seq<Logical>, n: nat)
    requires n <= |sources| == |logical|
    requires forall i | 0 <= i < |sources| :: logical[i] == LogicalOf(sources, namespace, i)
    ensures AllIndices(logical, n) == Range(0, |Artifacts(sources, namespace, n)|)
  {
    if n > 0 {
      IndicesInOrder(sources, namespace, logical, n - 1);
      assert logical[n - 1].indices == Range(|Artifacts(sources, namespace, n - 1)|, |sources[n - 1].files|);
    }
  }

  /** The roles inside one source differ by their paths. */
  lemma MembersDistinct(s: Source, role: string, i: nat, j: nat)
    requires Listed(s) && i < j < |s.files|
    ensures Members(s, role)[i].role != Members(s, role)[j].role
  {
    var a, b := s.files[i].relative, s.files[j].relative;
    if role + (":" + a) == role + (":" + b) {
      SameTail(role, ":" + a, role, ":" + b);
      SameTail(":", a, ":", b);
      assert false;
    }
  }

  /** A namespaced artifact of source i carries the number of source i. */
  lemma NumberedRole(sources: seq<Source>, i: nat, k: nat)
    requires i < |sources| && k < |sources[i].files|
    ensures exists tail: string :: Members(sources[i], RoleOf(sources, true, i))[k].role == Namespaced(i, tail)
  {
    var s := sources[i];
    var tail := MemberRole(s.role, s, s.files[k]);
    if s.isDirectory {
      var number, path := Padded(i + 1), ":" + s.files[k].relative;
      assert ("source-" + (number + ("/" + s.role))) + path == "source-" + (number + ("/" + (s.role + path)));
    }
    assert Members(s, RoleOf(sources, true, i))[k].role == Namespaced(i, tail);
  }

  /** Which source and which of its files an artifact comes from. */
  lemma {:induction false} Origin(sources: seq<Source>, namespace: bool, n: nat, p: nat) returns (i: nat, k: nat)
    requires n <= |sources| && p < |Artifacts(sources, namespace, n)|
    ensures i < n && k < |sources[i].files| && p == |Artifacts(sources, namespace, i)| + k
    ensures Artifacts(sources, namespace, n)[p] == Members(sources[i], RoleOf(sources, namespace, i))[k]
  {
    var before := |Artifacts(sources, namespace, n - 1)|;
    if p >= before {
      i, k := n - 1, p - before;
    } else {
      i, k := Origin(sources, namespace, n - 1, p);
    }
  }

  lemma NamespacedDistinct(sources: seq<Source>)
    requires forall s <- sources :: Listed(s)
    ensures Distinct(Roles(Artifacts(sources, true, |sources|)))
  {
    hide Listed, Artifacts, Namespaced, RoleOf;
    var all := Artifacts(sources, true, |sources|);
    forall p, q | 0 <= p < q < |all|
      ensures all[p].role != all[q].role
    {
      var i, k := Origin(sources, true, |sources|, p);
      var j, l := Origin(sources, true, |sources|, q);
      if i == j {
        assert sources[i] in sources;
        MembersDistinct(sources[i], RoleOf(sources, true, i), k, l);
      } else {
        NumberedRole(sources, i, k);
        NumberedRole(sources, j, l);
        var a: string :| all[p].role == Namespaced(i, a);
        var b: string :| all[q].role == Namespaced(j, b);
        if all[p].role == all[q].role {
          NamespaceSeparates(i, a, j, b);
          assert false;
        }
      }
    }
  }

  /** With or without the namespace, roles of artifacts and sources are unique. */
  lemma RolesUnique(sources: seq<Source>, artifacts: seq<Artifact>, logical: seq<Logical>)
    requires forall s <- sources :: Listed(s)
    requires var namespace := NeedsNamespace(sources);
             && artifacts == Artifacts(sources, namespace, |sources|) && |logical| == |sources|
             && forall i | 0 <= i < |sources| :: logical[i] == LogicalOf(sources, namespace, i)
    ensures Distinct(Roles(artifacts)) && Distinct(LogicalRoles(logical))
  {
    hide Artifacts, Listed;
    if NeedsNamespace(sources) {
      NamespacedDistinct(sources);
      forall i, j | 0 <= i < j < |logical|
        ensures logical[i].role != logical[j].role
      {
        if logical[i].role == logical[j].role {
          NamespaceSeparates(i, sources[i].role, j, sources[j].role);
          assert false;
        }
      }
    } else {
      forall i, j | 0 <= i < j < |logical|
        ensures logical[i].role != logical[j].role
      {
        assert SourceRoles(sources)[i] != SourceRoles(sources)[j];
      }
    }
  }

  /** A file of a source, by its number. */
  datatype Spot = Spot(source: nat, file: nat)

  predicate IsSpot(sources: seq<Source>, a: Spot) {
    a.source < |sources| && a.file < |sources[a.source].files|
  }

  /** The role of a source's file as the source's own role gives it. */
  function PlainRole(sources: seq<Source>, a: Spot): string
    requires IsSpot(sources, a)
  {
    var s := sources[a.source];
    MemberRole(s.role, s, s.files[a.file])
  }

  ghost predicate SourcesCollide(sources: seq<Source>) {
    exists i, j | 0 <= i < j < |sources| :: sources[i].role == sources[j].role
  }

  ghost predicate FilesCollide(sources: seq<Source>) {
    exists a: Spot, b: Spot :: SameRole(sources, a, b)
  }

  /** Two files, of one source or of two, share a role. */
  predicate SameRole(sources: seq<Source>, a: Spot, b: Spot) {
    IsSpot(sources, a) && IsSpot(sources, b) && a != b && PlainRole(sources, a) == PlainRole(sources, b)
  }

  /** Where a file stands among the artifacts. */
  lemma PlaceOf(sources: seq<Source>, a: Spot) returns (p: nat)
    requires IsSpot(sources, a)
    ensures p == |Artifacts(sources, false, a.source)| + a.file < |Artifacts(sources, false, |sources|)|
    ensures Roles(Artifacts(sources, false, |sources|))[p] == PlainRole(sources, a)
  {
    MembersAt(sources, false, a.source, |sources|);
    RoleAt(sources, a);
    hide Artifacts, Members, PlainRole, MemberRole, RoleOf;
    var i := a.source;
    var all, members := Artifacts(sources, false, |sources|), Members(sources[i], RoleOf(sources, false, i));
    var start := |Artifacts(sources, false, i)|;
    p := start + a.file;
    SliceAt(all, start, members, a.file);
  }

  lemma RoleAt(sources: seq<Source>, a: Spot)
    requires IsSpot(sources, a)
    ensures Members(sources[a.source], RoleOf(sources, false, a.source))[a.file].role == PlainRole(sources, a)
  {
  }

  lemma SliceAt(all: seq<Artifact>, start: nat, members: seq<Artifact>, k: nat)
    requires start + |members| <= |all| && all[start..start + |members|] == members && k < |members|
    ensures all[start + k] == members[k]
  {
    assert all[start..start + |members|][k] == all[start + k];
  }

  lemma PlacesDiffer(sources: seq<Source>, a: Spot, b: Spot, p: nat, q: nat)
    requires IsSpot(sources, a) && IsSpot(sources, b) && a != b
    requires p == |Artifacts(sources, false, a.source)| + a.file && q == |Artifacts(sources, false, b.source)| + b.file
    ensures p != q
  {
    hide Artifacts;
    if a.source < b.source {
      MembersAt(sources, false, a.source, b.source);
    } else if b.source < a.source {
      MembersAt(sources, false, b.source, a.source);
    }
  }

  /** Files that share a role make two artifacts that do. */
  lemma FilesToRoles(sources: seq<Source>, a: Spot, b: Spot)
    requires SameRole(sources, a, b)
    ensures !Distinct(Roles(Artifacts(sources, false, |sources|)))
  {
    hide Artifacts, PlainRole, Distinct;
    var p := PlaceOf(sources, a);
    var q := PlaceOf(sources, b);
    PlacesDiffer(sources, a, b, p, q);
    NotDistinct(Roles(Artifacts(sources, false, |sources|)), p, q);
  }

  lemma NotDistinct(roles: seq<string>, p: nat, q: nat)
    requires p < |roles| && q < |roles| && p != q && roles[p] == roles[q]
    ensures !Distinct(roles)
  {
  }

  /** Artifacts that share a role come from two files that do. */
  lemma RolesToFiles(sources: seq<Source>, p: nat, q: nat) returns (a: Spot, b: Spot)
    requires var roles := Roles(Artifacts(sources, false, |sources|)); p < q < |roles| && roles[p] == roles[q]
    ensures SameRole(sources, a, b)
  {
    hide Artifacts, PlainRole;
    var i, k := Origin(sources, false, |sources|, p);
    var j, l := Origin(sources, false, |sources|, q);
    a, b := Spot(i, k), Spot(j, l);
    var p' := PlaceOf(sources, a);
    var q' := PlaceOf(sources, b);
  }

  lemma Shared(roles: seq<string>) returns (p: nat, q: nat)
    requires !Distinct(roles)
    ensures p < q < |roles| && roles[p] == roles[q]
  {
    p, q :| p < q < |roles| && roles[p] == roles[q];
  }

  lemma FilesCollideIff(sources: seq<Source>)
    ensures FilesCollide(sources) <==> !Distinct(Roles(Artifacts(sources, false, |sources|)))
  {
    hide Artifacts, Distinct, SameRole;
    if a: Spot, b: Spot :| SameRole(sources, a, b) {
      FilesToRoles(sources, a, b);
    } else if !Distinct(Roles(Artifacts(sources, false, |sources|))) {
      var p, q := Shared(Roles(Artifacts(sources, false, |sources|)));
      var a, b := RolesToFiles(sources, p, q);
    }
  }

  /** The namespace is used exactly if roles as they are given would collide. */
  lemma NamespaceNeeded(sources: seq<Source>)
    ensures NeedsNamespace(sources) <==> SourcesCollide(sources) || FilesCollide(sources)
  {
    hide Artifacts, FilesCollide;
    FilesCollideIff(sources);
    if SourcesCollide(sources) {
      var i, j :| 0 <= i < j < |sources| && sources[i].role == sources[j].role;
      NotDistinct(SourceRoles(sources), i, j);
    } else {
      assert forall i, j | 0 <= i < j < |sources| :: SourceRoles(sources)[i] != SourceRoles(sources)[j];
    }
  }

  /** The roles of a published layout: those given, wherever they are distinct, and the
      namespaced ones otherwise. */
  lemma RolesAsGiven(sources: seq<Source>, indices: seq<int>, artifacts: seq<Artifact>, layout: Layout)
    requires IsLayout(sources, indices, artifacts, layout)
    ensures forall i | 0 <= i < |sources| ::
              layout.sources[i].role == if SourcesCollide(sources) || FilesCollide(sources) then Namespaced(i, sources[i].role)
                                         else sources[i].role
  {
    hide NeedsNamespace, SourcesCollide, FilesCollide, Artifacts;
    NamespaceNeeded(sources);
  }

  /** A published layout passes the validator exactly when the paths inside its
      directories are ones a manifest may hold. */
  lemma PublishedPasses(rules: Rules, sources: seq<Source>, inputs: seq<Input>, indices: seq<int>,
                        artifacts: seq<Artifact>, layout: Layout)
    requires (forall s <- sources :: Listed(s) && Current(rules, s)) && MappingOk(sources, inputs, indices)
    requires IsLayout(sources, indices, artifacts, layout)
    ensures Membership(rules, artifacts, layout, inputs) <==> forall s <- sources :: PathsValid(rules, s)
  {
    hide Listed, Current, Artifacts, PathsValid, NeedsNamespace, SourceOk, RoleOf;
    var namespace := NeedsNamespace(sources);
    RolesUnique(sources, artifacts, layout.sources);
    IndicesInOrder(sources, namespace, layout.sources, |sources|);
    var all := AllIndices(layout.sources, |layout.sources|);
    RangeCovers(|artifacts|);
    forall i | 0 <= i < |sources|
      ensures SourceOk(rules, layout.sources[i], artifacts) <==> PathsValid(rules, sources[i])
    {
      assert sources[i] in sources;
      PublishedMembers(rules, sources, namespace, i);
    }
    forall k | 0 <= k < |inputs|
      ensures layout.analysisSources[k] < |sources| && SameIdentity(layout.sources[layout.analysisSources[k]], inputs[k])
    {
      assert SameInput(sources[indices[k]], inputs[k]);
    }
  }

  lemma RangeCovers(n: nat)
    ensures NoRepeats(Range(0, n)) && forall k | 0 <= k < n :: k in Range(0, n)
  {
    forall k | 0 <= k < n
      ensures k in Range(0, n)
    {
      assert Range(0, n)[k] == k;
    }
  }

  /** One source of the validator's loop: used holds the indices taken so far. */
  method CheckSource(rules: Rules, artifacts: seq<Artifact>, l: Logical, used: set<nat>, ghost before: seq<nat>)
    returns (ok: bool, more: set<nat>)
    requires NoRepeats(before) && forall k: nat :: k in used <==> k in before
    ensures ok <==> NoRepeats(before + l.indices) && SourceOk(rules, l, artifacts)
    ensures ok ==> forall k: nat :: k in more <==> k in before + l.indices
  {
    more := used;
    var members: seq<Artifact> := [];
    assert before + l.indices[..0] == before;
    for i := 0 to |l.indices|
      invariant InRange(l.indices[..i], |artifacts|) && members == MembersOf(artifacts, l.indices[..i])
      invariant NoRepeats(before + l.indices[..i]) && forall k: nat :: k in more <==> k in before + l.indices[..i]
      invariant forall j | 0 <= j < i ::
                  artifacts[l.indices[j]].format == l.format && artifacts[l.indices[j]].producer == l.producer
    {
      var index := l.indices[i];
      assert before + l.indices[..i + 1] == before + l.indices[..i] + [l.indices[i]];
      assert l.indices[i] !in before + l.indices[..i] ==> NoRepeats(before + l.indices[..i + 1]);
      if index >= |artifacts| || index in more {
        if index < |artifacts| {
          Repeated(before, l.indices, i);
        }
        return false, more;
      }
      more := more + {index};
      if artifacts[index].format != l.format || artifacts[index].producer != l.producer {
        return false, more;
      }
      members := members + [artifacts[index]];
      assert l.indices[..i + 1] == l.indices[..i] + [index];
    }
    assert l.indices[..|l.indices|] == l.indices;
    ok := ValidateMembers(rules, l, members);
  }

  /** A path leads through another exactly if its first parts are the other's parts. */
  lemma AncestorIs(p: string, s: string)
    ensures IsAncestor(p, s) <==> RelativePaths.Parts(p) < RelativePaths.Parts(s)
  {
    hide RelativePaths.Parts;
    if IsAncestor(p, s) {
      AncestorText(p, s);
      var rest := s[|p| + 1..];
      RelativePaths.PartsBehind(p, rest);
    }
    if RelativePaths.Parts(p) < RelativePaths.Parts(s) {
      AncestorParts(p, s);
    }
  }

  lemma AncestorText(p: string, s: string)
    requires IsAncestor(p, s)
    ensures s == p + ("/" + s[|p| + 1..])
  {
    assert s == s[..|p|] + [s[|p|]] + s[|p| + 1..];
  }

  lemma AncestorParts(p: string, s: string)
    requires RelativePaths.Parts(p) < RelativePaths.Parts(s)
    ensures IsAncestor(p, s)
  {
    hide RelativePaths.Parts, RelativePaths.Joined;
    var a, b := RelativePaths.Parts(p), RelativePaths.Parts(s);
    RelativePaths.JoinedParts(p);
    RelativePaths.JoinedParts(s);
    assert b == a + b[|a|..];
    RelativePaths.JoinedTwo(a, b[|a|..]);
    assert s == p + ("/" + RelativePaths.Joined(b[|a|..]));
  }

  /** LogicalSource.validate_members, check by check. */
  method ValidateMembers(rules: Rules, l: Logical, members: seq<Artifact>) returns (ok: bool)
    ensures ok <==> ValidMembers(rules, l, members)
  {
    var digest: string;
    if l.isDirectory {
      if |l.paths| != |members| || exists i, j | 0 <= i < j < |l.paths| :: l.paths[i] == l.paths[j] {
        return false;
      }
      for i := 0 to |l.paths|
        invariant forall j | 0 <= j < i :: rules.validPath(l.paths[j])
      {
        if !rules.validPath(l.paths[i]) {
          assert l.paths[i] in l.paths;
          return false;
        }
      }
      for i := 0 to |l.paths|
        invariant forall k, j | 0 <= k < i && 0 <= j < |l.paths| :: !IsAncestor(l.paths[j], l.paths[k])
      {
        if exists j | 0 <= j < |l.paths| :: IsAncestor(l.paths[j], l.paths[i]) {
          return false;
        }
      }
      digest := rules.bundle(MemberPairs(l.paths, members));
    } else {
      if |members| != 1 || members[0].role != l.role || l.paths != [] {
        return false;
      }
      digest := members[0].sha256;
    }
    var total: nat := 0;
    assert members[..0] == [];
    for i := 0 to |members|
      invariant total == TotalSize(members[..i])
    {
      assert members[..i + 1][..i] == members[..i];
      total := total + members[i].size;
    }
    assert members[..|members|] == members;
    return l.sha256 == digest && l.size == total;
  }

  lemma Repeated(before: seq<nat>, indices: seq<nat>, i: nat)
    requires i < |indices| && indices[i] in before + indices[..i]
    ensures !NoRepeats(before + indices)
  {
    var all := before + indices;
    var a :| 0 <= a < |before| + i && (before + indices[..i])[a] == indices[i];
    assert all[a] == all[|before| + i];
  }

  /** membership as the loop it is. */
  method CheckMembership(rules: Rules, artifacts: seq<Artifact>, layout: Layout, inputs: seq<Input>) returns (ok: bool)
    ensures ok <==> Membership(rules, artifacts, layout, inputs)
  {
    hide SourceOk, Distinct, SameIdentity, InRange;
    var sources := layout.sources;
    if !Distinct(Roles(artifacts)) || !Distinct(LogicalRoles(sources)) {
      return false;
    }
    var used: set<nat> := {};
    for n := 0 to |sources|
      invariant NoRepeats(AllIndices(sources, n)) && forall k: nat :: k in used <==> k in AllIndices(sources, n)
      invariant forall j | 0 <= j < n :: SourceOk(rules, sources[j], artifacts)
    {
      var fits, more := CheckSource(rules, artifacts, sources[n], used, AllIndices(sources, n));
      if !fits {
        NotAll(sources, n);
        assert sources[n] in sources;
        return false;
      }
      used := more;
    }
    if exists k | 0 <= k < |artifacts| :: k !in used {
      return false;
    }
    if |layout.analysisSources| != |inputs| {
      return false;
    }
    for k := 0 to |inputs|
      invariant forall j | 0 <= j < k ::
                  layout.analysisSources[j] < |sources| && SameIdentity(sources[layout.analysisSources[j]], inputs[j])
    {
      if layout.analysisSources[k] >= |sources| {
        return false;
      }
      var source, item := sources[layout.analysisSources[k]], inputs[k];
      IdentityIs(source, item);
      if item.isDirectory != source.isDirectory {
        return false;
      }
      if source.sha256 != item.sha256 || source.format != item.format || source.producer != item.producer {
        return false;
      }
    }
    return true;
  }

  /** A repetition among the first sources is one among all. */
  lemma IdentityIs(l: Logical, item: Input)
    ensures SameIdentity(l, item) <==>
            l.isDirectory == item.isDirectory && l.sha256 == item.sha256 && l.format == item.format && l.producer == item.producer
  {
  }

  lemma NotAll(sources: seq<Logical>, n: nat)
    requires n < |sources|
    ensures NoRepeats(AllIndices(sources, |sources|)) ==> NoRepeats(AllIndices(sources, n) + sources[n].indices)
  {
    IndicesGrow(sources, n + 1, |sources|);
    var some, all := AllIndices(sources, n + 1), AllIndices(sources, |sources|);
    if NoRepeats(all) {
      forall i, j | 0 <= i < j < |some|
        ensures some[i] != some[j]
      {
        assert all[i] == some[i] && all[j] == some[j];
      }
    }
  }

  lemma {:induction false} IndicesGrow(sources: seq<Logical>, n: nat, m: nat)
    requires n <= m <= |sources|
    ensures AllIndices(sources, n) <= AllIndices(sources, m)
  {
    if n < m {
      IndicesGrow(sources, n, m - 1);
    }
  }

  /** artifact_selector hashes its arguments, injectively. */
  datatype Selector = Selector(evidenceId: string, collection: string, index: nat)

  datatype Selection = Selection(source: Logical, members: seq<(Option<string>, Artifact)>)

  /** An artifact as a source of its own. */
  function FileSource(artifacts: seq<Artifact>, i: nat): Logical
    requires i < |artifacts|
  {
    var a := artifacts[i];
    Logical(a.role, a.sha256, a.size, a.format, a.producer, false, [i], [])
  }

  /** The first item a selector addresses, artifacts before logical sources. */
  method FindSource(evidenceId: string, artifacts: seq<Artifact>, layout: Layout, selector: Selector)
    returns (r: Option<Logical>)
    ensures forall i: nat | i < |artifacts| :: selector == Selector(evidenceId, "artifact", i) ==>
              && r == Some(FileSource(artifacts, i))
              && !r.value.isDirectory && r.value.paths == [] && r.value.indices == [i]
    ensures forall i: nat | i < |layout.sources| :: selector == Selector(evidenceId, "logical", i) ==> r == Some(layout.sources[i])
    ensures r.Some? ==> exists i: nat ::
              || (i < |artifacts| && selector == Selector(evidenceId, "artifact", i))
              || (i < |layout.sources| && selector == Selector(evidenceId, "logical", i))
  {
    for i := 0 to |artifacts|
      invariant forall j: nat | j < i :: selector != Selector(evidenceId, "artifact", j)
    {
      if Selector(evidenceId, "artifact", i) == selector {
        return Some(FileSource(artifacts, i));
      }
    }
    for i := 0 to |layout.sources|
      invariant forall j: nat | j < i :: selector != Selector(evidenceId, "logical", j)
    {
      if Selector(evidenceId, "logical", i) == selector {
        return Some(layout.sources[i]);
      }
    }
    return None;
  }

  /** _source_selection: the members of a source with their relative paths. */
  function SelectionOf(artifacts: seq<Artifact>, l: Logical): Selection
    requires InRange(l.indices, |artifacts|) && (l.isDirectory ==> |l.paths| == |l.indices|)
  {
    Selection(l, seq(|l.indices|, i requires 0 <= i < |l.indices| =>
      (if l.isDirectory then Some(l.paths[i]) else None, artifacts[l.indices[i]])))
  }

  /** A selection that gives a source back: its identity, and its files in order. */
  predicate Recovers(selection: Selection, s: Source) {
    && selection.source.isDirectory == s.isDirectory && selection.source.sha256 == s.sha256
    && selection.source.size == s.size && selection.source.format == s.format && selection.source.producer == s.producer
    && |selection.members| == |s.files|
    && forall i | 0 <= i < |s.files| ::
         && selection.members[i].0 == (if s.isDirectory then Some(s.files[i].relative) else None)
         && selection.members[i].1.sha256 == s.files[i].sha256 && selection.members[i].1.size == s.files[i].size
         && selection.members[i].1.format == s.format && selection.members[i].1.producer == s.producer
  }

  /** Replay: the selector published for an analyzed input gives back the source that
      was analyzed, with its members in order. */
  method Replay(evidenceId: string, rules: Rules, sources: seq<Source>, inputs: seq<Input>, indices: seq<int>,
                artifacts: seq<Artifact>, layout: Layout, k: nat) returns (selection: Selection)
    requires (forall s <- sources :: Listed(s) && Current(rules, s)) && MappingOk(sources, inputs, indices)
    requires IsLayout(sources, indices, artifacts, layout) && k < |inputs|
    ensures Recovers(selection, sources[indices[k]])
    ensures SameIdentity(selection.source, inputs[k])
  {
    hide Artifacts, NeedsNamespace, RoleOf, Current, Listed;
    var i := layout.analysisSources[k];
    var found := FindSource(evidenceId, artifacts, layout, Selector(evidenceId, "logical", i));
    assert sources[i] in sources;
    PublishedMembers(rules, sources, NeedsNamespace(sources), i);
    assert SameInput(sources[indices[k]], inputs[k]);
    selection := SelectionOf(artifacts, found.value);
    ghost var members := Members(sources[i], RoleOf(sources, NeedsNamespace(sources), i));
    forall j | 0 <= j < |sources[i].files|
      ensures selection.members[j].1 == members[j]
    {
      assert MembersOf(artifacts, found.value.indices)[j] == artifacts[found.value.indices[j]];
    }
  }
}
