/**
 What a publication preserves: the layout of artifacts and logical sources that the
 builder makes, the validator every manifest must pass, and the selectors by which a
 replay finds its sources again.
 */
module PublicationLayout {
  import opened Results
  import opened LayoutRoles

  datatype File = File(relative: string, sha256: string, size: nat)

  /** A source with the files found at its path now; the files of a directory are its
      members, a file source has one. */
  datatype Source = Source(
    role: string, sha256: string, size: nat, format: string, producer: Option<string>,
    isDirectory: bool, directoryNow: bool, files: seq<File>)

  datatype Artifact = Artifact(role: string, sha256: string, size: nat, format: string, producer: Option<string>)

  datatype Logical = Logical(
    role: string, sha256: string, size: nat, format: string, producer: Option<string>,
    isDirectory: bool, indices: seq<nat>, paths: seq<string>)

  datatype Layout = Layout(sources: seq<Logical>, analysisSources: seq<nat>)

  datatype Input = Input(sha256: string, format: string, producer: Option<string>, isDirectory: bool)

  /** bundle_digest, a function of the paths and digests of the members, and the check of
      a relative path. */
  datatype Rules = Rules(bundle: seq<(string, string)> -> string, validPath: string -> bool)

  function Sum(files: seq<File>): nat {
    if files == [] then 0 else Sum(files[..|files| - 1]) + files[|files| - 1].size
  }

  function Pairs(files: seq<File>): (r: seq<(string, string)>)
    ensures |r| == |files| && forall i | 0 <= i < |r| :: r[i] == (files[i].relative, files[i].sha256)
  {
    seq(|files|, i requires 0 <= i < |files| => (files[i].relative, files[i].sha256))
  }

  /** A path leads through another file. */
  predicate IsAncestor(p: string, s: string) {
    |p| < |s| && s[..|p|] == p && s[|p|] == '/'
  }

  /** What the file system guarantees of a directory's files. */
  predicate Listed(s: Source) {
    if s.isDirectory then
      && (forall i, j | 0 <= i < j < |s.files| :: s.files[i].relative != s.files[j].relative)
      && (forall i, j | 0 <= i < |s.files| && 0 <= j < |s.files| :: !IsAncestor(s.files[i].relative, s.files[j].relative))
    else |s.files| == 1
  }

  /** The source is still what it was when it was hashed. */
  predicate Current(rules: Rules, s: Source) {
    && s.directoryNow == s.isDirectory && Sum(s.files) == s.size
    && (if s.isDirectory then rules.bundle(Pairs(s.files)) == s.sha256
        else s.files != [] && s.files[0].sha256 == s.sha256)
  }

  function MemberRole(role: string, s: Source, f: File): string {
    if s.isDirectory then role + (":" + f.relative) else role
  }

  function RoleOf(sources: seq<Source>, namespace: bool, i: nat): string
    requires i < |sources|
  {
    if namespace then Namespaced(i, sources[i].role) else sources[i].role
  }

  function Members(s: Source, role: string): (r: seq<Artifact>)
    ensures |r| == |s.files|
    ensures forall k | 0 <= k < |r| ::
              r[k] == Artifact(MemberRole(role, s, s.files[k]), s.files[k].sha256, s.files[k].size, s.format, s.producer)
  {
    seq(|s.files|, k requires 0 <= k < |s.files| =>
      Artifact(MemberRole(role, s, s.files[k]), s.files[k].sha256, s.files[k].size, s.format, s.producer))
  }

  /** The artifacts of the first n sources, source by source. */
  function Artifacts(sources: seq<Source>, namespace: bool, n: nat): seq<Artifact>
    requires n <= |sources|
  {
    if n == 0 then [] else Artifacts(sources, namespace, n - 1) + Members(sources[n - 1], RoleOf(sources, namespace, n - 1))
  }

  function Roles(artifacts: seq<Artifact>): (r: seq<string>)
    ensures |r| == |artifacts| && forall i | 0 <= i < |r| :: r[i] == artifacts[i].role
  {
    seq(|artifacts|, i requires 0 <= i < |artifacts| => artifacts[i].role)
  }

  function SourceRoles(sources: seq<Source>): (r: seq<string>)
    ensures |r| == |sources| && forall i | 0 <= i < |r| :: r[i] == sources[i].role
  {
    seq(|sources|, i requires 0 <= i < |sources| => sources[i].role)
  }

  /** Roles are namespaced as soon as any two would collide. */
  predicate NeedsNamespace(sources: seq<Source>) {
    !Distinct(SourceRoles(sources)) || !Distinct(Roles(Artifacts(sources, false, |sources|)))
  }

  function Range(from: nat, n: nat): (r: seq<nat>)
    ensures |r| == n && forall i | 0 <= i < n :: r[i] == from + i
  {
    seq(n, i => from + i)
  }

  function Relatives(s: Source): (r: seq<string>)
    ensures s.isDirectory ==> |r| == |s.files| && forall i | 0 <= i < |r| :: r[i] == s.files[i].relative
    ensures !s.isDirectory ==> r == []
  {
    if s.isDirectory then seq(|s.files|, i requires 0 <= i < |s.files| => s.files[i].relative) else []
  }

  /** Source i as the layout records it. */
  function LogicalOf(sources: seq<Source>, namespace: bool, i: nat): Logical
    requires i < |sources|
  {
    var s := sources[i];
    Logical(RoleOf(sources, namespace, i), s.sha256, s.size, s.format, s.producer, s.isDirectory,
            Range(|Artifacts(sources, namespace, i)|, |s.files|), Relatives(s))
  }

  predicate SameInput(s: Source, item: Input) {
    s.isDirectory == item.isDirectory && s.sha256 == item.sha256 && s.format == item.format && s.producer == item.producer
  }

  /** The mapping from analyzed inputs to sources; without one every source is an input. */
  function Mapping(sources: seq<Source>, mapping: Option<seq<int>>): seq<int> {
    match mapping
    case None => Range(0, |sources|)
    case Some(indices) => indices
  }

  predicate MappingOk(sources: seq<Source>, inputs: seq<Input>, indices: seq<int>) {
    && |indices| == |inputs|
    && forall k | 0 <= k < |indices| :: 0 <= indices[k] < |sources| && SameInput(sources[indices[k]], inputs[k])
  }

  /** The layout a publication gets. */
  predicate IsLayout(sources: seq<Source>, indices: seq<int>, artifacts: seq<Artifact>, layout: Layout) {
    var namespace := NeedsNamespace(sources);
    && artifacts == Artifacts(sources, namespace, |sources|)
    && |layout.sources| == |sources| && (forall i | 0 <= i < |sources| :: layout.sources[i] == LogicalOf(sources, namespace, i))
    && |layout.analysisSources| == |indices| && forall k | 0 <= k < |indices| :: layout.analysisSources[k] == indices[k]
  }

  /** The loop over the files of a source: sizes are charged against the remaining one. */
  method IsCurrent(rules: Rules, s: Source) returns (ok: bool)
    requires Listed(s)
    ensures ok <==> Current(rules, s)
  {
    if s.directoryNow != s.isDirectory {
      return false;
    }
    var remaining: nat := s.size;
    assert s.files[..0] == [];
    for i := 0 to |s.files|
      invariant remaining == s.size - Sum(s.files[..i])
    {
      assert s.files[..i + 1][..i] == s.files[..i];
      assert Sum(s.files[..i + 1]) == Sum(s.files[..i]) + s.files[i].size;
      if s.files[i].size > remaining {
        SumGrows(s.files, i + 1);
        return false;
      }
      remaining := remaining - s.files[i].size;
    }
    assert s.files[..|s.files|] == s.files;
    var digest := if s.isDirectory then rules.bundle(Pairs(s.files)) else s.files[0].sha256;
    return digest == s.sha256 && remaining == 0;
  }

  lemma {:induction false} SumGrows(files: seq<File>, n: nat)
    requires n <= |files|
    ensures Sum(files[..n]) <= Sum(files)
    decreases |files| - n
  {
    if n == |files| {
      assert files[..n] == files;
    } else {
      SumGrows(files, n + 1);
      assert files[..n + 1][..n] == files[..n];
    }
  }

  /** The loop over the analyzed inputs. */
  method CheckMapping(sources: seq<Source>, inputs: seq<Input>, indices: seq<int>) returns (r: Result<seq<nat>, string>)
    ensures r.Ok? <==> MappingOk(sources, inputs, indices)
    ensures r.Ok? ==> |r.value| == |indices| && forall k | 0 <= k < |indices| :: r.value[k] == indices[k]
  {
    if |indices| != |inputs| {
      return Err("Analysis source mapping does not match the analyzed input count.");
    }
    var analysis: seq<nat> := [];
    for k := 0 to |inputs|
      invariant forall j | 0 <= j < k :: 0 <= indices[j] < |sources| && SameInput(sources[indices[j]], inputs[j])
      invariant |analysis| == k && forall j | 0 <= j < k :: analysis[j] == indices[j]
    {
      if !(0 <= indices[k] < |sources|) {
        return Err("Analysis source mapping is out of range.");
      }
      if !SameInput(sources[indices[k]], inputs[k]) {
        return Err("Analysis input is absent from preserved sources.");
      }
      analysis := analysis + [indices[k]];
    }
    return Ok(analysis);
  }

  lemma MappingIs(sources: seq<Source>, inputs: seq<Input>, mapping: Option<seq<int>>)
    ensures mapping.None? ==>
              |Mapping(sources, mapping)| == |sources| && forall k | 0 <= k < |sources| :: Mapping(sources, mapping)[k] == k
    ensures MappingOk(sources, inputs, Mapping(sources, mapping)) ==> |Mapping(sources, mapping)| == |inputs|
  {
  }

  /** The loop that lays the sources out. */
  method LayOut(sources: seq<Source>, namespace: bool) returns (artifacts: seq<Artifact>, logical: seq<Logical>)
    ensures artifacts == Artifacts(sources, namespace, |sources|)
    ensures |logical| == |sources| && forall i | 0 <= i < |sources| :: logical[i] == LogicalOf(sources, namespace, i)
  {
    hide LogicalOf;
    artifacts, logical := [], [];
    for i := 0 to |sources|
      invariant artifacts == Artifacts(sources, namespace, i)
      invariant |logical| == i && forall j | 0 <= j < i :: logical[j] == LogicalOf(sources, namespace, j)
    {
      logical := logical + [LogicalOf(sources, namespace, i)];
      artifacts := artifacts + Members(sources[i], RoleOf(sources, namespace, i));
    }
  }

  /** _publication_layout: it succeeds exactly when every source is unchanged and the
      mapping matches the analyzed inputs. */
  method BuildLayout(rules: Rules, sources: seq<Source>, inputs: seq<Input>, mapping: Option<seq<int>>)
    returns (r: Result<(seq<Artifact>, Layout), string>)
    requires forall s <- sources :: Listed(s)
    ensures r.Ok? <==> (forall s <- sources :: Current(rules, s)) && MappingOk(sources, inputs, Mapping(sources, mapping))
    ensures r.Ok? ==> IsLayout(sources, Mapping(sources, mapping), r.value.0, r.value.1)
    ensures r.Ok? && mapping.None? ==>
              |inputs| == |sources| == |r.value.1.analysisSources| && forall k | 0 <= k < |sources| :: r.value.1.analysisSources[k] == k
  {
    hide Current, Listed, NeedsNamespace, LogicalOf, Artifacts, MappingOk, Mapping;
    for i := 0 to |sources|
      invariant forall j | 0 <= j < i :: Current(rules, sources[j])
    {
      var current := IsCurrent(rules, sources[i]);
      if !current {
        return Err("Input changed before preservation.");
      }
    }
    var artifacts, logical := LayOut(sources, NeedsNamespace(sources));
    var indices := Mapping(sources, mapping);
    MappingIs(sources, inputs, mapping);
    var analysis := CheckMapping(sources, inputs, indices);
    if analysis.Err? {
      return Err(analysis.error);
    }
    return Ok((artifacts, Layout(logical, analysis.value)));
  }
}
