/**
 A whole SARIF document: what its tree says of the answer.
 */
module SarifDocument {
  import opened Results
  import opened JsonTree
  import opened JsonEvents
  import opened Sarif
  import opened SarifScan
  import opened SarifReader

  lemma {:induction false} StartsJoin(a: seq<Located>, b: seq<Located>)
    ensures Starts(a + b) == Starts(a) + Starts(b)
    decreases |b|
  {
    if b == [] {
      assert a + b == a;
    } else {
      StartsJoin(a, b[..|b| - 1]);
      assert (a + b)[..|a + b| - 1] == a + b[..|b| - 1];
    }
  }

  lemma StartsOne(l: Located)
    ensures Starts([l]) == if l.location == ResultPath() && l.event.StartMap? then 1 else 0
  {
    assert [l][..0] == [];
  }

  /** No event of the walk lies outside the value. */
  lemma {:induction false} Deeper(j: Json, at: Location)
    requires |at| > 4
    ensures Starts(LocatedTree(j, at)) == 0
    decreases j, 0
  {
    hide Starts;
    match j
    case Scalar(atom) => StartsOne(Located(at, ScalarEvent(atom)));
    case Array(items) =>
      StartsOne(Located(at, StartArray));
      StartsOne(Located(at, EndArray));
      DeeperItems(items, at);
      StartsJoin([Located(at, StartArray)], LocatedItems(items, at));
      StartsJoin([Located(at, StartArray)] + LocatedItems(items, at), [Located(at, EndArray)]);
    case Object(members) =>
      StartsOne(Located(at, StartMap));
      StartsOne(Located(at, EndMap));
      DeeperMembers(members, at);
      StartsJoin([Located(at, StartMap)], LocatedMembers(members, at));
      StartsJoin([Located(at, StartMap)] + LocatedMembers(members, at), [Located(at, EndMap)]);
  }

  lemma {:induction false} DeeperItems(items: seq<Json>, at: Location)
    requires |at| >= 4
    ensures Starts(LocatedItems(items, at)) == 0
    decreases items, 1
  {
    if items != [] {
      hide Starts;
      Deeper(items[0], at + [None]);
      DeeperItems(items[1..], at);
      StartsJoin(LocatedTree(items[0], at + [None]), LocatedItems(items[1..], at));
    } else {
      assert Starts([]) == 0;
    }
  }

  lemma {:induction false} DeeperMembers(members: seq<Member>, at: Location)
    requires |at| >= 4
    ensures Starts(LocatedMembers(members, at)) == 0
    decreases members, 1
  {
    if members != [] {
      hide Starts;
      var m := members[0];
      var key, value := [Located(at, MapKey(m.key))], LocatedTree(m.value, at + [Some(m.key)]);
      StartsOne(Located(at, MapKey(m.key)));
      Deeper(m.value, at + [Some(m.key)]);
      DeeperMembers(members[1..], at);
      StartsJoin(key, value);
      StartsJoin(key + value, LocatedMembers(members[1..], at));
    } else {
      assert Starts([]) == 0;
    }
  }

  /** One result: its object starts once. */
  lemma ResultStarts(j: Json)
    requires !Misplaced(ResultPath(), LocatedTree(j, ResultPath())[0].event)
    ensures Starts(LocatedTree(j, ResultPath())) == 1
  {
    hide Starts;
    var at := ResultPath();
    match j
    case Object(members) =>
      StartsOne(Located(at, StartMap));
      StartsOne(Located(at, EndMap));
      DeeperMembers(members, at);
      StartsJoin([Located(at, StartMap)], LocatedMembers(members, at));
      StartsJoin([Located(at, StartMap)] + LocatedMembers(members, at), [Located(at, EndMap)]);
    case _ =>
  }

  /** The results that start in the stream of a document are the values at the result
      path of its tree. */
  lemma {:induction false} StartsAreResults(j: Json, at: Location)
    requires AllPlaced(LocatedTree(j, at))
    ensures Starts(LocatedTree(j, at)) == |ValuesAt(j, at, ResultPath())|
    decreases j, 0
  {
    if at == ResultPath() {
      assert LocatedTree(j, at)[0] in LocatedTree(j, at);
      assert LocatedTree(j, at)[0].location == at;
      ResultStarts(j);
    } else {
      hide Starts;
      match j
      case Scalar(atom) => StartsOne(Located(at, ScalarEvent(atom)));
      case Array(items) =>
        StartsOne(Located(at, StartArray));
        StartsOne(Located(at, EndArray));
        StartsItems(items, at);
        StartsJoin([Located(at, StartArray)], LocatedItems(items, at));
        StartsJoin([Located(at, StartArray)] + LocatedItems(items, at), [Located(at, EndArray)]);
      case Object(members) =>
        StartsOne(Located(at, StartMap));
        StartsOne(Located(at, EndMap));
        StartsMembers(members, at);
        StartsJoin([Located(at, StartMap)], LocatedMembers(members, at));
        StartsJoin([Located(at, StartMap)] + LocatedMembers(members, at), [Located(at, EndMap)]);
    }
  }

  lemma {:induction false} StartsItems(items: seq<Json>, at: Location)
    requires AllPlaced(LocatedItems(items, at))
    ensures Starts(LocatedItems(items, at)) == |ItemValuesAt(items, at, ResultPath())|
    decreases items, 1
  {
    if items != [] {
      hide Starts;
      StartsAreResults(items[0], at + [None]);
      StartsItems(items[1..], at);
      StartsJoin(LocatedTree(items[0], at + [None]), LocatedItems(items[1..], at));
    } else {
      assert Starts([]) == 0;
    }
  }

  lemma {:induction false} StartsMembers(members: seq<Member>, at: Location)
    requires AllPlaced(LocatedMembers(members, at))
    ensures Starts(LocatedMembers(members, at)) == |MemberValuesAt(members, at, ResultPath())|
    decreases members, 1
  {
    if members != [] {
      hide Starts;
      var m := members[0];
      var key, value, rest := [Located(at, MapKey(m.key))], LocatedTree(m.value, at + [Some(m.key)]), LocatedMembers(members[1..], at);
      StartsOne(Located(at, MapKey(m.key)));
      StartsAreResults(m.value, at + [Some(m.key)]);
      StartsMembers(members[1..], at);
      StartsJoin(key, value);
      StartsJoin(key + value, rest);
    } else {
      assert Starts([]) == 0;
    }
  }

  /** Every event of a walk lies at its starting point or deeper. */
  lemma {:induction false} Below(j: Json, at: Location)
    ensures forall l <- LocatedTree(j, at) :: at <= l.location
    decreases j, 0
  {
    match j
    case Scalar(_) =>
    case Array(items) => ItemsBelow(items, at);
    case Object(members) => MembersBelow(members, at);
  }

  lemma {:induction false} ItemsBelow(items: seq<Json>, at: Location)
    ensures forall l <- LocatedItems(items, at) :: at + [None] <= l.location
    decreases items, 1
  {
    if items != [] {
      Below(items[0], at + [None]);
      ItemsBelow(items[1..], at);
    }
  }

  lemma {:induction false} MembersBelow(members: seq<Member>, at: Location)
    ensures forall l <- LocatedMembers(members, at) :: at <= l.location && (l.location == at ==> l.event.MapKey?)
    decreases members, 1
  {
    if members != [] {
      Below(members[0].value, at + [Some(members[0].key)]);
      MembersBelow(members[1..], at);
    }
  }

  lemma {:induction false} LastAtJoin(a: seq<Located>, b: seq<Located>, location: Location)
    ensures LastAt(a + b, location) == if LastAt(b, location).Some? then LastAt(b, location) else LastAt(a, location)
    decreases |b|
  {
    if b == [] {
      assert a + b == a;
    } else {
      LastAtJoin(a, b[..|b| - 1], location);
      assert (a + b)[..|a + b| - 1] == a + b[..|b| - 1];
    }
  }

  lemma {:induction false} NotAt(ls: seq<Located>, location: Location)
    requires forall l <- ls :: l.location != location
    ensures LastAt(ls, location) == None
    decreases |ls|
  {
    if ls != [] {
      var k := |ls| - 1;
      assert ls[k] in ls;
      forall l <- ls[..k]
        ensures l in ls
      {
      }
      NotAt(ls[..k], location);
    }
  }

  /** The last event of a value at its own place tells a scalar from a container. */
  lemma LastOfTree(j: Json, at: Location)
    ensures LastAt(LocatedTree(j, at), at)
         == Some(match j case Scalar(atom) => ScalarEvent(atom) case Array(_) => EndArray case Object(_) => EndMap)
  {
    var ls := LocatedTree(j, at);
    assert ls[|ls| - 1].location == at;
  }

  /** No value lies at a place beside the walk. */
  lemma {:induction false} NoValues(j: Json, at: Location, location: Location)
    requires |location| <= |at| && at != location
    ensures ValuesAt(j, at, location) == []
    decreases j, 0
  {
    match j
    case Scalar(_) =>
    case Array(items) => NoItemValues(items, at, location);
    case Object(members) => NoMemberValues(members, at, location);
  }

  lemma {:induction false} NoItemValues(items: seq<Json>, at: Location, location: Location)
    requires |location| <= |at|
    ensures ItemValuesAt(items, at, location) == []
    decreases items, 1
  {
    if items != [] {
      NoValues(items[0], at + [None], location);
      NoItemValues(items[1..], at, location);
    }
  }

  lemma {:induction false} NoMemberValues(members: seq<Member>, at: Location, location: Location)
    requires |location| <= |at|
    ensures MemberValuesAt(members, at, location) == []
    decreases members, 1
  {
    if members != [] {
      NoValues(members[0].value, at + [Some(members[0].key)], location);
      NoMemberValues(members[1..], at, location);
    }
  }

  /** The text of the last of some values, if it is a text. */
  function LastText(values: seq<Value>): Option<string> {
    if values == [] then None
    else
      match values[|values| - 1]
      case Atomic(Text(text)) => Some(text)
      case _ => None
  }

  lemma LastTextJoin(a: seq<Value>, b: seq<Value>)
    ensures LastText(a + b) == if b != [] then LastText(b) else LastText(a)
  {
    if b == [] {
      assert a + b == a;
    }
  }

  /** The last event at a member of the root is that of the last such member. */
  lemma {:induction false} LastMember(members: seq<Member>, key: string)
    ensures TextOf(LastAt(LocatedMembers(members, []), At(key))) == LastText(MemberValuesAt(members, [], At(key)))
    ensures LastAt(LocatedMembers(members, []), At(key)).Some? <==> MemberValuesAt(members, [], At(key)) != []
    decreases |members|
  {
    if members != [] {
      var m, rest := members[0], LocatedMembers(members[1..], []);
      var at := [] + [Some(m.key)];
      var tree := LocatedTree(m.value, at);
      LastMember(members[1..], key);
      OneMember(m, key);
      var head := [Located([], MapKey(m.key))];
      NotAt(head, At(key));
      hide LastAt, LastText;
      LastAtJoin(head, tree, At(key));
      LastAtJoin(head + tree, rest, At(key));
      LastTextJoin(ValuesAt(m.value, at, At(key)), MemberValuesAt(members[1..], [], At(key)));
    }
  }

  lemma OneMember(m: Member, key: string)
    ensures var at := [] + [Some(m.key)];
            && TextOf(LastAt(LocatedTree(m.value, at), At(key))) == LastText(ValuesAt(m.value, at, At(key)))
            && (LastAt(LocatedTree(m.value, at), At(key)).Some? <==> ValuesAt(m.value, at, At(key)) != [])
  {
    var at := [] + [Some(m.key)];
    if m.key == key {
      LastOfTree(m.value, at);
    } else {
      Below(m.value, at);
      assert at[0] != At(key)[0];
      NotAt(LocatedTree(m.value, at), At(key));
      NoValues(m.value, at, At(key));
    }
  }

  /** A root member that is an array starts as one. */
  lemma {:induction false} ArrayMember(members: seq<Member>, key: string)
    requires forall l <- LocatedMembers(members, []) :: l.location == At(key) ==> IsArrayEdge(l.event)
    ensures Located(At(key), StartArray) in LocatedMembers(members, []) <==> MemberValuesAt(members, [], At(key)) != []
    decreases |members|
  {
    if members != [] {
      var m, rest := members[0], LocatedMembers(members[1..], []);
      var at := [] + [Some(m.key)];
      var tree := LocatedTree(m.value, at);
      assert forall l <- rest :: l in LocatedMembers(members, []);
      assert forall l <- tree :: l in LocatedMembers(members, []);
      ArrayMember(members[1..], key);
      if m.key == key {
        assert tree[0] in tree && tree[0].location == At(key);
      } else {
        Below(m.value, at);
        assert at[0] != At(key)[0];
        NoValues(m.value, at, At(key));
      }
    }
  }

  lemma Framed(inner: seq<Located>, location: Location)
    requires location != []
    ensures LastAt([Located([], StartMap)] + inner + [Located([], EndMap)], location) == LastAt(inner, location)
  {
    var first, last := [Located([], StartMap)], [Located([], EndMap)];
    NotAt(first, location);
    NotAt(last, location);
    LastAtJoin(first, inner, location);
    LastAtJoin(first + inner, last, location);
  }

  lemma FramedMember(inner: seq<Located>, l: Located)
    ensures l in [Located([], StartMap)] + inner + [Located([], EndMap)] <==>
            l in inner || l == Located([], StartMap) || l == Located([], EndMap)
  {
  }

  /** What the stream of an object says of its members. */
  lemma RootObject(members: seq<Member>)
    requires AllPlaced(LocatedTree(Object(members), []))
    ensures var ls := LocatedTree(Object(members), []);
            && Located([], StartMap) in ls && Located([], EndMap) in ls
            && TextOf(LastAt(ls, At("version"))) == LastText(MemberValuesAt(members, [], At("version")))
            && (Located(At("runs"), StartArray) in ls <==> MemberValuesAt(members, [], At("runs")) != [])
  {
    hide LastAt, LastText, MemberValuesAt, LocatedMembers, Misplaced;
    var inner := LocatedMembers(members, []);
    LastMember(members, "version");
    Framed(inner, At("version"));
    FramedMember(inner, Located(At("runs"), StartArray));
    forall l <- inner | l.location == At("runs")
      ensures IsArrayEdge(l.event)
    {
      FramedMember(inner, l);
      assert !Misplaced(l.location, l.event);
      RunsEdge(l);
    }
    ArrayMember(members, "runs");
  }

  lemma RunsEdge(l: Located)
    requires l.location == At("runs") && !Misplaced(l.location, l.event)
    ensures IsArrayEdge(l.event)
  {
  }

  /** What the stream of a well-placed document says of its root. */
  lemma Root(j: Json)
    requires AllPlaced(LocatedTree(j, []))
    ensures var ls := LocatedTree(j, []);
            && (Located([], StartMap) in ls <==> j.Object?) && (Located([], EndMap) in ls <==> j.Object?)
            && (j.Object? ==> TextOf(LastAt(ls, At("version"))) == LastText(ValuesAt(j, [], At("version"))))
            && (j.Object? ==> (Located(At("runs"), StartArray) in ls <==> ValuesAt(j, [], At("runs")) != []))
  {
    hide LastAt, LastText, MemberValuesAt, LocatedMembers, Misplaced, LocatedItems;
    match j
    case Scalar(_) =>
    case Array(items) => ItemsBelow(items, []);
    case Object(members) => RootObject(members);
  }

  /** A document in which runs and results are arrays of objects.  It is supported exactly
      if it is an object whose version, the last one if there are several, is 2.1.0; it is
      complete exactly if it is an object with an array of runs; and the coverage counts
      exactly its results. */
  method ParseDocument(reader: Reader, ghost j: Json, events: seq<Event>) returns (r: ParseResult)
    requires events == Events(j) && AllPlaced(LocatedTree(j, []))
    requires reader.Valid() && reader.On([]) && reader.Tracks(NOTHING_SCANNED) && reader.Heard([])
    modifies reader, reader.normalization
    ensures r.supported <==> j.Object? && LastText(ValuesAt(j, [], At("version"))) == Some("2.1.0")
    ensures r.complete <==> j.Object? && ValuesAt(j, [], At("runs")) != []
    ensures r.coverage.results == |ValuesAt(j, [], ResultPath())|
    ensures r.coverage.results
         == r.coverage.normalized + r.coverage.excluded + r.coverage.invalid + r.coverage.omitted
  {
    hide *;
    ghost var ls := LocatedTree(j, []);
    LocatesTree(j, []);
    StartsAreResults(j, []);
    Placement(ls);
    Root(j);
    TextIsText(LastAt(ls, At("version")));
    r := reader.ParseSarif(events, false, ls);
  }

  lemma TextIsText(e: Option<Event>)
    ensures TextOf(e) == Some("2.1.0") <==> e == Some(ScalarEvent(Text("2.1.0")))
  {
  }
}
