/**
 The digest of a directory: its members are sorted by path before they are hashed, so
 that producer and validator agree whatever order they list them in.
 */
module BundleDigest {
  import opened RelativePaths

  /** A member's relative path, and the digest of its bytes. */
  datatype Member = Member(path: string, sha256: string)

  function Place(m: Member, members: seq<Member>): seq<Member> {
    if members == [] then [m]
    else if PathLess(m.path, members[0].path) then [m] + members
    else [members[0]] + Place(m, members[1..])
  }

  /** sorted(members, key=Path): by the parts of their paths. */
  function SortedMembers(members: seq<Member>): seq<Member> {
    if members == [] then [] else Place(members[|members| - 1], SortedMembers(members[..|members| - 1]))
  }

  /** The bytes the digest is updated with. */
  function Stream(members: seq<Member>): string {
    if members == [] then "" else members[0].path + members[0].sha256 + Stream(members[1..])
  }

  function BundleDigestOf(hash: string -> string, members: seq<Member>): string {
    hash(Stream(SortedMembers(members)))
  }

  predicate InOrder(members: seq<Member>) {
    forall i, j | 0 <= i < j < |members| :: !PathLess(members[j].path, members[i].path)
  }

  predicate DistinctPaths(members: seq<Member>) {
    forall i, j | 0 <= i < |members| && 0 <= j < |members| && i != j :: members[i].path != members[j].path
  }

  lemma {:induction false} PlaceInOrder(m: Member, members: seq<Member>)
    requires InOrder(members)
    ensures InOrder(Place(m, members)) && multiset(Place(m, members)) == multiset(members) + multiset{m}
  {
    hide PathLess;
    if members != [] {
      var rest := members[1..];
      assert members == [members[0]] + rest;
      if PathLess(m.path, members[0].path) {
        forall j | 0 <= j < |members|
          ensures !PathLess(members[j].path, m.path)
        {
          PathLessTotal(members[0].path, members[0].path);
          if PathLess(members[j].path, m.path) {
            PathLessTransitive(members[j].path, m.path, members[0].path);
          }
        }
      } else {
        PlaceInOrder(m, rest);
        BehindFirst(members, m, Place(m, rest));
      }
    }
  }

  lemma BehindFirst(members: seq<Member>, m: Member, tail: seq<Member>)
    requires members != [] && InOrder(members) && !PathLess(m.path, members[0].path) && InOrder(tail)
    requires multiset(tail) == multiset(members[1..]) + multiset{m}
    ensures InOrder([members[0]] + tail)
  {
    hide PathLess;
    forall j | 0 <= j < |tail|
      ensures !PathLess(tail[j].path, members[0].path)
    {
      assert tail[j] in multiset(tail);
      if tail[j] != m {
        assert tail[j] in members[1..];
      }
    }
  }

  lemma {:induction false} SortedInOrder(members: seq<Member>)
    ensures InOrder(SortedMembers(members)) && multiset(SortedMembers(members)) == multiset(members)
    decreases |members|
  {
    if members != [] {
      var k := |members| - 1;
      assert members == members[..k] + [members[k]];
      SortedInOrder(members[..k]);
      PlaceInOrder(members[k], SortedMembers(members[..k]));
    }
  }

  ghost predicate ToldApart(members: seq<Member>) {
    forall m <- members, n <- members :: m.path == n.path ==> m == n
  }

  lemma FirstsAgree(a: seq<Member>, b: seq<Member>)
    requires a != [] && b != [] && InOrder(a) && InOrder(b) && multiset(a) == multiset(b) && ToldApart(a)
    ensures a[0] == b[0]
  {
    hide PathLess;
    assert b[0] in multiset(a) && a[0] in multiset(b);
    var i :| 0 <= i < |a| && a[i] == b[0];
    var j :| 0 <= j < |b| && b[j] == a[0];
    PathLessTotal(a[0].path, b[0].path);
    assert a[0] in a && a[i] in a;
  }

  lemma RestsAgree(a: seq<Member>, b: seq<Member>)
    requires a != [] && b != [] && multiset(a) == multiset(b) && a[0] == b[0]
    ensures multiset(a[1..]) == multiset(b[1..])
  {
    assert a == [a[0]] + a[1..] && b == [b[0]] + b[1..];
    assert multiset(a[1..]) == multiset(a) - multiset{a[0]};
    assert multiset(b[1..]) == multiset(b) - multiset{a[0]};
  }

  /** Members with distinct paths have one order. */
  lemma {:induction false} OneOrder(a: seq<Member>, b: seq<Member>)
    requires InOrder(a) && InOrder(b) && multiset(a) == multiset(b) && ToldApart(a) && ToldApart(b)
    ensures a == b
  {
    assert |a| == |multiset(a)| == |multiset(b)| == |b|;
    if a != [] {
      hide *;
      FirstsAgree(a, b);
      RestsAgree(a, b);
      OneOrder(a[1..], b[1..]);
      assert a == [a[0]] + a[1..] && b == [b[0]] + b[1..];
    }
  }

  lemma Distinguished(members: seq<Member>)
    requires DistinctPaths(members)
    ensures ToldApart(members)
  {
    forall m <- members, n <- members | m.path == n.path
      ensures m == n
    {
      var i :| 0 <= i < |members| && members[i] == m;
      var j :| 0 <= j < |members| && members[j] == n;
      assert i == j;
    }
  }

  lemma SameMembers(a: seq<Member>, b: seq<Member>)
    requires multiset(a) == multiset(b) && ToldApart(a)
    ensures ToldApart(b)
  {
    forall m <- b
      ensures m in a
    {
      assert m in multiset(b);
    }
  }

  /** The digest does not depend on the order in which the members are listed. */
  lemma AnyListing(hash: string -> string, a: seq<Member>, b: seq<Member>)
    requires multiset(a) == multiset(b) && DistinctPaths(a)
    ensures BundleDigestOf(hash, a) == BundleDigestOf(hash, b)
  {
    hide DistinctPaths, InOrder;
    SortedInOrder(a);
    SortedInOrder(b);
    Distinguished(a);
    SameMembers(a, SortedMembers(a));
    SameMembers(a, SortedMembers(b));
    OneOrder(SortedMembers(a), SortedMembers(b));
  }

  /** Two listings of the same paths. */
  predicate SamePaths(a: seq<Member>, b: seq<Member>) {
    |a| == |b| && forall i | 0 <= i < |a| :: a[i].path == b[i].path
  }

  lemma {:induction false} PlaceSamePaths(m: Member, a: seq<Member>, n: Member, b: seq<Member>)
    requires SamePaths(a, b) && m.path == n.path
    ensures SamePaths(Place(m, a), Place(n, b))
  {
    hide PathLess;
    if a != [] && !PathLess(m.path, a[0].path) {
      PlaceSamePaths(m, a[1..], n, b[1..]);
    }
  }

  lemma {:induction false} SortSamePaths(a: seq<Member>, b: seq<Member>)
    requires SamePaths(a, b)
    ensures SamePaths(SortedMembers(a), SortedMembers(b))
    decreases |a|
  {
    if a != [] {
      var k := |a| - 1;
      SortSamePaths(a[..k], b[..k]);
      PlaceSamePaths(a[k], SortedMembers(a[..k]), b[k], SortedMembers(b[..k]));
    }
  }

  predicate Digests(members: seq<Member>, width: nat) {
    forall m <- members :: |m.sha256| == width
  }

  /** Under the same paths the bytes tell the digests. */
  lemma {:induction false} StreamTells(a: seq<Member>, b: seq<Member>, width: nat)
    requires SamePaths(a, b) && Digests(a, width) && Digests(b, width) && Stream(a) == Stream(b)
    ensures a == b
  {
    if a != [] {
      var p := |a[0].path|;
      assert a[0] in a && b[0] in b;
      assert Stream(a)[p..p + width] == a[0].sha256 && Stream(b)[p..p + width] == b[0].sha256;
      assert Stream(a)[p + width..] == Stream(a[1..]) && Stream(b)[p + width..] == Stream(b[1..]);
      StreamTells(a[1..], b[1..], width);
      assert a == [a[0]] + a[1..] && b == [b[0]] + b[1..];
    }
  }

  /** A changed member changes the digest of a directory: directories with the same paths
      have one digest exactly if all members are the same. */
  lemma DigestTells(hash: string -> string, a: seq<Member>, b: seq<Member>, width: nat)
    requires forall x: string, y: string :: hash(x) == hash(y) ==> x == y
    requires SamePaths(a, b) && DistinctPaths(a) && Digests(a, width) && Digests(b, width)
    ensures BundleDigestOf(hash, a) == BundleDigestOf(hash, b) <==> a == b
  {
    if BundleDigestOf(hash, a) == BundleDigestOf(hash, b) {
      hide Stream, SortedMembers, InOrder, ToldApart;
      SortSamePaths(a, b);
      SortedInOrder(a);
      SortedInOrder(b);
      SortedDigests(a, width);
      SortedDigests(b, width);
      StreamTells(SortedMembers(a), SortedMembers(b), width);
      assert multiset(a) == multiset(b);
      forall i | 0 <= i < |a|
        ensures a[i] == b[i]
      {
        assert b[i] in multiset(a);
        var j :| 0 <= j < |a| && a[j] == b[i];
        assert a[j].path == a[i].path;
      }
    }
  }

  lemma SortedDigests(members: seq<Member>, width: nat)
    requires Digests(members, width) && multiset(SortedMembers(members)) == multiset(members)
    ensures Digests(SortedMembers(members), width)
  {
    forall m <- SortedMembers(members)
      ensures m in members
    {
      assert m in multiset(SortedMembers(members));
    }
  }
}
