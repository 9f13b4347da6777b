/**
 Relative paths as pathlib reads them: their parts, the order of their parts, and
 which of them a manifest may hold.
 */
module RelativePaths {
  import opened Decimals

  /** The text between slashes. */
  function Parts(path: string): (r: seq<string>)
    ensures r != []
  {
    if path == "" then [""]
    else
      var rest := Parts(path[1..]);
      if path[0] == '/' then [""] + rest else [[path[0]] + rest[0]] + rest[1..]
  }

  function Joined(parts: seq<string>): string
    requires parts != []
  {
    if |parts| == 1 then parts[0] else parts[0] + ("/" + Joined(parts[1..]))
  }

  lemma PartsOf(c: char, rest: string)
    ensures Parts([c] + rest) == if c == '/' then [""] + Parts(rest) else [[c] + Parts(rest)[0]] + Parts(rest)[1..]
  {
    assert ([c] + rest)[1..] == rest;
  }

  lemma JoinedFront(part: string, rest: seq<string>)
    requires rest != []
    ensures Joined([part] + rest) == part + ("/" + Joined(rest))
  {
    assert ([part] + rest)[1..] == rest;
  }

  lemma JoinedOne(part: string)
    ensures Joined([part]) == part
  {
  }

  lemma JoinedHead(c: char, parts: seq<string>)
    requires parts != []
    ensures Joined([[c] + parts[0]] + parts[1..]) == [c] + Joined(parts)
  {
    hide Joined;
    assert parts == [parts[0]] + parts[1..];
    if |parts| == 1 {
      JoinedOne(parts[0]);
      JoinedOne([c] + parts[0]);
      assert parts == [parts[0]] && [[c] + parts[0]] + parts[1..] == [[c] + parts[0]];
    } else {
      var tail := "/" + Joined(parts[1..]);
      JoinedFront([c] + parts[0], parts[1..]);
      JoinedFront(parts[0], parts[1..]);
      assert ([c] + parts[0]) + tail == [c] + (parts[0] + tail);
    }
  }

  lemma {:induction false} JoinedParts(path: string)
    ensures Joined(Parts(path)) == path
  {
    if path != "" {
      hide Parts, Joined;
      var c, rest := path[0], path[1..];
      JoinedParts(rest);
      assert path == [c] + rest;
      PartsOf(c, rest);
      if c == '/' {
        JoinedFront("", Parts(rest));
        assert "" + ("/" + rest) == [c] + rest;
      } else {
        JoinedHead(c, Parts(rest));
      }
    }
  }

  /** PurePosixPath drops empty parts and dots. */
  function Kept(parts: seq<string>): seq<string> {
    if parts == [] then []
    else (if parts[0] == "" || parts[0] == "." then [] else [parts[0]]) + Kept(parts[1..])
  }

  /** A drive, or a root: what a Windows path begins with when it is not relative. */
  predicate HasAnchor(path: string) {
    (path != "" && path[0] == '/') || (|path| >= 2 && path[1] == ':')
  }

  /** DataReference.relative_path: the paths a manifest may hold. */
  predicate MayBeHeld(path: string) {
    var parts := Kept(Parts(path));
    && '\\' !in path && !HasAnchor(path) && '\0' !in path
    && ".." !in parts && parts != [] && Joined(parts) == path
  }

  /** What relative_to gives for a file that a listing found. */
  predicate FromListing(path: string) {
    '\0' !in path && forall part <- Parts(path) :: part != "" && part != "." && part != ".."
  }

  lemma {:induction false} AllKept(parts: seq<string>)
    requires forall part <- parts :: part != "" && part != "."
    ensures Kept(parts) == parts
  {
    if parts != [] {
      assert parts[0] in parts && parts == [parts[0]] + parts[1..];
      forall part <- parts[1..]
        ensures part in parts
      {
      }
      AllKept(parts[1..]);
    }
  }

  lemma NoRoot(path: string)
    requires path != "" && path[0] == '/'
    ensures "" in Parts(path)
  {
    assert Parts(path)[0] == "";
  }

  /** Of the paths a listing gives, a manifest may hold exactly those without a
      backslash and without a colon in second place. */
  lemma HeldIff(path: string)
    requires FromListing(path)
    ensures MayBeHeld(path) <==> '\\' !in path && !(|path| >= 2 && path[1] == ':')
  {
    AllKept(Parts(path));
    JoinedParts(path);
    if path != "" && path[0] == '/' {
      NoRoot(path);
      assert false;
    }
  }

  lemma {:induction false} PartsJoined(parts: seq<string>)
    requires parts != [] && forall part <- parts :: '/' !in part
    ensures Parts(Joined(parts)) == parts
  {
    if |parts| == 1 {
      PartsJoin(parts[0], "");
      assert parts[0] + "" == parts[0];
    } else {
      assert parts[0] in parts && forall part <- parts[1..] :: part in parts;
      PartsJoined(parts[1..]);
      PartsJoin(parts[0], "/" + Joined(parts[1..]));
      assert ("/" + Joined(parts[1..]))[1..] == Joined(parts[1..]);
      assert parts == [parts[0]] + parts[1..];
    }
  }

  lemma {:induction false} PartsJoin(part: string, rest: string)
    requires '/' !in part && (rest == "" || rest[0] == '/')
    ensures Parts(part + rest) == [part] + if rest == "" then [] else Parts(rest[1..])
  {
    if part == "" {
      assert part + rest == rest;
      if rest != "" {
        assert Parts(rest) == [""] + Parts(rest[1..]);
      }
    } else {
      assert part[0] in part && forall c <- part[1..] :: c in part;
      assert (part + rest)[1..] == part[1..] + rest;
      PartsJoin(part[1..], rest);
      assert [part[0]] + part[1..] == part;
    }
  }

  /** The parts of a path below another are its own behind the other's. */
  lemma {:induction false} PartsBehind(p: string, rest: string)
    ensures Parts(p + ("/" + rest)) == Parts(p) + Parts(rest)
  {
    if p == "" {
      assert "" + ("/" + rest) == ['/'] + rest;
      PartsOf('/', rest);
    } else {
      hide Parts;
      var c, q := p[0], p[1..];
      PartsBehind(q, rest);
      assert p == [c] + q && p + ("/" + rest) == [c] + (q + ("/" + rest));
      PartsOf(c, q);
      PartsOf(c, q + ("/" + rest));
      FrontPart(c, Parts(q), Parts(rest));
    }
  }

  lemma FrontPart(c: char, front: seq<string>, back: seq<string>)
    requires front != []
    ensures [""] + (front + back) == ([""] + front) + back
    ensures [[c] + (front + back)[0]] + (front + back)[1..] == ([[c] + front[0]] + front[1..]) + back
  {
  }

  lemma {:induction false} JoinedTwo(a: seq<string>, b: seq<string>)
    requires a != [] && b != []
    ensures Joined(a + b) == Joined(a) + ("/" + Joined(b))
  {
    assert (a + b)[1..] == a[1..] + b && (a + b)[0] == a[0];
    if |a| > 1 {
      JoinedTwo(a[1..], b);
      assert a[0] + ("/" + (Joined(a[1..]) + ("/" + Joined(b)))) == (a[0] + ("/" + Joined(a[1..]))) + ("/" + Joined(b));
    } else {
      assert a[1..] + b == b;
    }
  }

  lemma {:induction false} NoSlashInside(path: string)
    ensures forall part <- Parts(path) :: '/' !in part
  {
    if path != "" {
      NoSlashInside(path[1..]);
      var rest := Parts(path[1..]);
      assert rest[0] in rest && forall part <- rest[1..] :: part in rest;
    }
  }

  lemma {:induction false} KeptParts(parts: seq<string>)
    ensures forall part <- Kept(parts) :: part in parts && part != "" && part != "."
  {
    if parts != [] {
      KeptParts(parts[1..]);
    }
  }

  /** The paths a manifest may hold: those a listing may give, without a backslash and
      without a colon in second place. */
  lemma MayBeHeldIff(path: string)
    ensures MayBeHeld(path) <==> FromListing(path) && '\\' !in path && !(|path| >= 2 && path[1] == ':')
  {
    if FromListing(path) {
      HeldIff(path);
    } else if MayBeHeld(path) {
      var parts := Kept(Parts(path));
      NoSlashInside(path);
      KeptParts(Parts(path));
      PartsJoined(parts);
      assert false;
    }
  }

  /** Tuples of parts, compared from the left. */
  predicate PartsLess(a: seq<string>, b: seq<string>) {
    if a == [] || b == [] then b != []
    else if a[0] != b[0] then Less(a[0], b[0])
    else PartsLess(a[1..], b[1..])
  }

  lemma {:induction false} PartsLessTotal(a: seq<string>, b: seq<string>)
    ensures a == b || PartsLess(a, b) || PartsLess(b, a)
    ensures !(PartsLess(a, b) && PartsLess(b, a)) && !PartsLess(a, a)
  {
    if a != [] && b != [] {
      LessTotal(a[0], b[0]);
      PartsLessTotal(a[1..], b[1..]);
      assert a == [a[0]] + a[1..] && b == [b[0]] + b[1..];
    }
    if a != [] {
      PartsLessTotal(a[1..], a[1..]);
    }
  }

  lemma {:induction false} PartsLessTransitive(a: seq<string>, b: seq<string>, c: seq<string>)
    requires PartsLess(a, b) && PartsLess(b, c)
    ensures PartsLess(a, c)
  {
    if a != [] {
      if a[0] == b[0] == c[0] {
        PartsLessTransitive(a[1..], b[1..], c[1..]);
      } else if a[0] != b[0] && b[0] != c[0] {
        LessTransitive(a[0], b[0], c[0]);
        LessTotal(a[0], c[0]);
        LessTotal(b[0], c[0]);
      }
    }
  }

  /** The order of paths: that of their parts, not that of their texts. */
  predicate PathLess(a: string, b: string) {
    PartsLess(Parts(a), Parts(b))
  }

  lemma PathLessTotal(a: string, b: string)
    ensures a == b || PathLess(a, b) || PathLess(b, a)
    ensures !(PathLess(a, b) && PathLess(b, a)) && !PathLess(a, a)
  {
    PartsLessTotal(Parts(a), Parts(b));
    JoinedParts(a);
    JoinedParts(b);
  }

  lemma PathLessTransitive(a: string, b: string, c: string)
    requires PathLess(a, b) && PathLess(b, c)
    ensures PathLess(a, c)
  {
    PartsLessTransitive(Parts(a), Parts(b), Parts(c));
  }

  /** The two orders differ: a directory's files stand in front of its neighbour's. */
  lemma OrdersDiffer()
    ensures PathLess("a/b", "a-b") && Less("a-b", "a/b")
  {
    PartsOf('b', "");
    PartsOf('/', "b");
    PartsOf('a', "/b");
    PartsOf('-', "b");
    PartsOf('a', "-b");
    assert "a"[1..] == "" && "a-b"[1..] == "-b" && "a/b"[1..] == "/b";
    assert Less("a", "a-b");
  }
}
