/**
 Streaming JSON locations: a path stack over a flat event stream gives every event
 the location a recursive walk of the tree gives it, and picking out the values at
 a location gives exactly the subtrees there.
 */
module JsonEvents {
  import opened Results
  import opened JsonTree

  /** Object keys are literal; an array position is None. */
  type Location = seq<Option<string>>

  datatype Located = Located(location: Location, event: Event)

  /** An end or a key without an open container, Python's IndexError. */
  datatype Underflow = Underflow

  /** The path behind an event, and the event's own location. */
  function PathStep(path: Location, e: Event): Result<(Location, Location), Underflow> {
    match e
    case MapKey(key) =>
      if path == [] then Err(Underflow) else Ok((path[..|path| - 1] + [Some(key)], path[..|path| - 1]))
    case EndMap => if path == [] then Err(Underflow) else Ok((path[..|path| - 1], path[..|path| - 1]))
    case EndArray => if path == [] then Err(Underflow) else Ok((path[..|path| - 1], path[..|path| - 1]))
    case StartMap => Ok((path + [None], path))
    case StartArray => Ok((path + [None], path))
    case ScalarEvent(_) => Ok((path, path))
  }

  /** The located events of a stream, and the path behind it. */
  function LocateAll(path: Location, events: seq<Event>): Result<(seq<Located>, Location), Underflow>
    decreases |events|
  {
    if events == [] then Ok(([], path))
    else
      var (next, location) :- PathStep(path, events[0]);
      var (rest, end) :- LocateAll(next, events[1..]);
      Ok(([Located(location, events[0])] + rest, end))
  }

  /** The same, as a walk of the tree. */
  function LocatedTree(j: Json, at: Location): seq<Located>
    decreases j, 0
  {
    match j
    case Scalar(atom) => [Located(at, ScalarEvent(atom))]
    case Array(items) => [Located(at, StartArray)] + LocatedItems(items, at) + [Located(at, EndArray)]
    case Object(members) => [Located(at, StartMap)] + LocatedMembers(members, at) + [Located(at, EndMap)]
  }

  function LocatedItems(items: seq<Json>, at: Location): seq<Located>
    decreases items, 1
  {
    if items == [] then [] else LocatedTree(items[0], at + [None]) + LocatedItems(items[1..], at)
  }

  function LocatedMembers(members: seq<Member>, at: Location): seq<Located>
    decreases members, 1
  {
    if members == [] then []
    else
      [Located(at, MapKey(members[0].key))] + LocatedTree(members[0].value, at + [Some(members[0].key)])
      + LocatedMembers(members[1..], at)
  }

  lemma {:induction false} LocateJoin(path: Location, p: seq<Event>, q: seq<Event>)
    ensures LocateAll(path, p + q) ==
            match LocateAll(path, p)
            case Err(e) => Err(e)
            case Ok((ls, mid)) =>
              match LocateAll(mid, q)
              case Err(e) => Err(e)
              case Ok((rest, end)) => Ok((ls + rest, end))
    decreases |p|
  {
    hide PathStep;
    if p == [] {
      assert p + q == q;
      if LocateAll(path, q).Ok? {
        assert [] + LocateAll(path, q).value.0 == LocateAll(path, q).value.0;
      }
    } else {
      assert (p + q)[1..] == p[1..] + q;
      if PathStep(path, p[0]).Ok? {
        var (next, location) := PathStep(path, p[0]).value;
        LocateJoin(next, p[1..], q);
        if LocateAll(next, p[1..]).Ok? {
          var (ls, mid) := LocateAll(next, p[1..]).value;
          if LocateAll(mid, q).Ok? {
            var rest := LocateAll(mid, q).value.0;
            assert [Located(location, p[0])] + (ls + rest) == ([Located(location, p[0])] + ls) + rest;
          }
        }
      }
    }
  }

  lemma LocateOne(path: Location, e: Event)
    requires PathStep(path, e).Ok?
    ensures var (next, location) := PathStep(path, e).value; LocateAll(path, [e]) == Ok(([Located(location, e)], next))
  {
    hide PathStep;
    assert [e][1..] == [];
    var (next, location) := PathStep(path, e).value;
    assert LocateAll(next, []) == Ok(([], next));
    assert [Located(location, e)] + [] == [Located(location, e)];
  }

  lemma {:induction false} LocatesTree(j: Json, path: Location)
    ensures LocateAll(path, Events(j)) == Ok((LocatedTree(j, path), path))
    decreases j, 0
  {
    hide LocateAll;
    match j
    case Scalar(atom) => LocateOne(path, ScalarEvent(atom));
    case Array(items) =>
      LocateOne(path, StartArray);
      LocateJoin(path, [StartArray], ItemEvents(items));
      LocatesItems(items, path);
      LocateJoin(path, [StartArray] + ItemEvents(items), [EndArray]);
      assert (path + [None])[..|path|] == path;
      LocateOne(path + [None], EndArray);
    case Object(members) =>
      LocateOne(path, StartMap);
      LocateJoin(path, [StartMap], MemberEvents(members));
      var last := LocatesMembers(members, path, None);
      LocateJoin(path, [StartMap] + MemberEvents(members), [EndMap]);
      assert (path + [last])[..|path|] == path;
      LocateOne(path + [last], EndMap);
  }

  lemma {:induction false} LocatesItems(items: seq<Json>, at: Location)
    ensures LocateAll(at + [None], ItemEvents(items)) == Ok((LocatedItems(items, at), at + [None]))
    decreases items, 1
  {
    if items != [] {
      hide LocateAll;
      LocatesTree(items[0], at + [None]);
      LocatesItems(items[1..], at);
      LocateJoin(at + [None], Events(items[0]), ItemEvents(items[1..]));
    }
  }

  lemma {:induction false} LocatesMembers(members: seq<Member>, at: Location, before: Option<string>)
    returns (last: Option<string>)
    ensures LocateAll(at + [before], MemberEvents(members)) == Ok((LocatedMembers(members, at), at + [last]))
    decreases members, 1
  {
    if members == [] {
      last := before;
    } else {
      hide LocateAll;
      var m := members[0];
      assert (at + [before])[..|at|] == at;
      LocateOne(at + [before], MapKey(m.key));
      LocatesTree(m.value, at + [Some(m.key)]);
      LocateJoin(at + [before], [MapKey(m.key)], Events(m.value));
      last := LocatesMembers(members[1..], at, Some(m.key));
      LocateJoin(at + [before], [MapKey(m.key)] + Events(m.value), MemberEvents(members[1..]));
    }
  }

  /** parse_json_events: the path stack over the raw events. */
  method ParseJsonEvents(events: seq<Event>) returns (r: Result<seq<Located>, Underflow>)
    ensures r == match LocateAll([], events) case Err(e) => Err(e) case Ok((ls, _)) => Ok(ls)
  {
    var path: Location := [];
    var found: seq<Located> := [];
    ghost var goal := LocateAll([], events);
    if goal.Ok? {
      assert [] + goal.value.0 == goal.value.0;
    }
    for i := 0 to |events|
      invariant goal == match LocateAll(path, events[i..])
                        case Err(e) => Err(e)
                        case Ok((rest, end)) => Ok((found + rest, end))
    {
      hide PathStep;
      var step := PathStep(path, events[i]);
      assert events[i..][1..] == events[i + 1..];
      if step.Err? {
        return Err(Underflow);
      }
      var (next, location) := step.value;
      ghost var tail := LocateAll(next, events[i + 1..]);
      if tail.Ok? {
        assert found + ([Located(location, events[i])] + tail.value.0) == (found + [Located(location, events[i])]) + tail.value.0;
      }
      found, path := found + [Located(location, events[i])], next;
    }
    assert events[|events|..] == [];
    assert found + [] == found;
    return Ok(found);
  }

  /** The values at a location, in document order. */
  function ValuesAt(j: Json, at: Location, location: Location): seq<Value>
    decreases j, 0
  {
    if at == location then [Denote(j)]
    else
      match j
      case Scalar(_) => []
      case Array(items) => ItemValuesAt(items, at, location)
      case Object(members) => MemberValuesAt(members, at, location)
  }

  function ItemValuesAt(items: seq<Json>, at: Location, location: Location): seq<Value>
    decreases items, 1
  {
    if items == [] then [] else ValuesAt(items[0], at + [None], location) + ItemValuesAt(items[1..], at, location)
  }

  function MemberValuesAt(members: seq<Member>, at: Location, location: Location): seq<Value>
    decreases members, 1
  {
    if members == [] then []
    else
      ValuesAt(members[0].value, at + [Some(members[0].key)], location) + MemberValuesAt(members[1..], at, location)
  }

  /** The loop state of json_items: no builder, or one with its depth. */
  datatype Picking = Idle | Building(builder: Builder, depth: int)

  predicate IsStart(e: Event) { e.StartMap? || e.StartArray? }

  predicate IsEnd(e: Event) { e.EndMap? || e.EndArray? }

  function Depth(depth: int, e: Event): int {
    if IsStart(e) then depth + 1 else if IsEnd(e) then depth - 1 else depth
  }

  /** One turn of json_items: the state behind it and what it yields. */
  function PickStep(location: Location, s: Picking, l: Located): (Picking, seq<Value>) {
    if s.Idle? && (l.location != location || IsEnd(l.event) || l.event.MapKey?) then (Idle, [])
    else
      var builder := Feed(if s.Idle? then EMPTY else s.builder, l.event);
      var depth := Depth(if s.Idle? then 0 else s.depth, l.event);
      if depth == 0 then (Idle, match builder.value case Some(v) => [v] case None => [])
      else (Building(builder, depth), [])
  }

  function Pick(location: Location, s: Picking, ls: seq<Located>): (Picking, seq<Value>)
    decreases |ls|
  {
    if ls == [] then (s, [])
    else
      var (next, found) := PickStep(location, s, ls[0]);
      var (end, rest) := Pick(location, next, ls[1..]);
      (end, found + rest)
  }

  lemma {:induction false} PickJoin(location: Location, s: Picking, p: seq<Located>, q: seq<Located>)
    ensures var (mid, a) := Pick(location, s, p);
            var (end, b) := Pick(location, mid, q);
            Pick(location, s, p + q) == (end, a + b)
    decreases |p|
  {
    hide PickStep;
    if p == [] {
      assert p + q == q;
      assert [] + Pick(location, s, q).1 == Pick(location, s, q).1;
    } else {
      assert (p + q)[1..] == p[1..] + q;
      var (next, found) := PickStep(location, s, p[0]);
      PickJoin(location, next, p[1..], q);
      var (mid, a) := Pick(location, next, p[1..]);
      assert found + (a + Pick(location, mid, q).1) == (found + a) + Pick(location, mid, q).1;
    }
  }

  lemma PickOne(location: Location, s: Picking, l: Located)
    ensures Pick(location, s, [l]) == PickStep(location, s, l)
  {
    hide PickStep;
    var (next, found) := PickStep(location, s, l);
    assert found + [] == found && [l][1..] == [];
  }

  /** A container: its opening event, what is inside, its closing event. */
  lemma PickContainer(location: Location, s: Picking, open: Located, inner: seq<Located>, close: Located)
    requires PickStep(location, s, open).1 == []
    ensures var (s2, b) := Pick(location, PickStep(location, s, open).0, inner);
            var (s3, c) := PickStep(location, s2, close);
            && (c == [] ==> Pick(location, s, [open] + inner + [close]) == (s3, b))
            && (b == [] ==> Pick(location, s, [open] + inner + [close]) == (s3, c))
  {
    hide *;
    var (s1, a) := PickStep(location, s, open);
    var (s2, b) := Pick(location, s1, inner);
    PickOne(location, s, open);
    PickJoin(location, s, [open], inner);
    PickOne(location, s2, close);
    PickJoin(location, s, [open] + inner, [close]);
    Surrounded(b);
    Surrounded(PickStep(location, s2, close).1);
  }

  /** A step inside a value that stays inside it. */
  lemma StepInside(location: Location, b: Builder, depth: int, l: Located)
    requires Depth(depth, l.event) >= 1
    ensures PickStep(location, Building(b, depth), l) == (Building(Feed(b, l.event), Depth(depth, l.event)), [])
  {
    hide Feed;
  }

  /** Inside a value that is being built nothing is yielded. */
  lemma {:induction false} PickInside(location: Location, b: Builder, depth: int, j: Json, at: Location)
    requires depth >= 1
    ensures Pick(location, Building(b, depth), LocatedTree(j, at)) == (Building(FeedAll(b, Events(j)), depth), [])
    decreases j, 0
  {
    hide Pick, Feed, FeedAll, PickStep;
    match j
    case Scalar(atom) =>
      var l := Located(at, ScalarEvent(atom));
      PickOne(location, Building(b, depth), l);
      StepInside(location, b, depth, l);
      FeedOne(b, ScalarEvent(atom));
    case Array(items) =>
      var b1 := Feed(b, StartArray);
      var b2 := FeedAll(b1, ItemEvents(items));
      StepInside(location, b, depth, Located(at, StartArray));
      PickItemsInside(location, b1, depth + 1, items, at);
      StepInside(location, b2, depth + 1, Located(at, EndArray));
      PickContainer(location, Building(b, depth), Located(at, StartArray), LocatedItems(items, at), Located(at, EndArray));
      ContainerEvents(b, StartArray, ItemEvents(items), EndArray);
    case Object(members) =>
      var b1 := Feed(b, StartMap);
      var b2 := FeedAll(b1, MemberEvents(members));
      StepInside(location, b, depth, Located(at, StartMap));
      PickMembersInside(location, b1, depth + 1, members, at);
      StepInside(location, b2, depth + 1, Located(at, EndMap));
      PickContainer(location, Building(b, depth), Located(at, StartMap), LocatedMembers(members, at), Located(at, EndMap));
      ContainerEvents(b, StartMap, MemberEvents(members), EndMap);
      assert LocatedTree(j, at) == [Located(at, StartMap)] + LocatedMembers(members, at) + [Located(at, EndMap)];
  }

  lemma {:induction false} PickItemsInside(location: Location, b: Builder, depth: int, items: seq<Json>, at: Location)
    requires depth >= 1
    ensures Pick(location, Building(b, depth), LocatedItems(items, at)) == (Building(FeedAll(b, ItemEvents(items)), depth), [])
    decreases items, 1
  {
    if items != [] {
      hide Pick, FeedAll;
      PickInside(location, b, depth, items[0], at + [None]);
      var b' := FeedAll(b, Events(items[0]));
      PickItemsInside(location, b', depth, items[1..], at);
      PickJoin(location, Building(b, depth), LocatedTree(items[0], at + [None]), LocatedItems(items[1..], at));
      FeedJoin(b, Events(items[0]), ItemEvents(items[1..]));
    }
  }

  lemma {:induction false} PickMembersInside(location: Location, b: Builder, depth: int, members: seq<Member>, at: Location)
    requires depth >= 1
    ensures Pick(location, Building(b, depth), LocatedMembers(members, at))
         == (Building(FeedAll(b, MemberEvents(members)), depth), [])
    decreases members, 1
  {
    if members != [] {
      hide Pick, FeedAll, Feed;
      var m, rest := members[0], members[1..];
      var key, value := [Located(at, MapKey(m.key))], LocatedTree(m.value, at + [Some(m.key)]);
      var named := Feed(b, MapKey(m.key));
      PickOne(location, Building(b, depth), Located(at, MapKey(m.key)));
      PickInside(location, named, depth, m.value, at + [Some(m.key)]);
      PickJoin(location, Building(b, depth), key, value);
      var b' := FeedAll(named, Events(m.value));
      PickMembersInside(location, b', depth, rest, at);
      PickJoin(location, Building(b, depth), key + value, LocatedMembers(rest, at));
      FeedFirst(b, MapKey(m.key), Events(m.value) + MemberEvents(rest));
      FeedJoin(named, Events(m.value), MemberEvents(rest));
      assert MemberEvents(members) == [MapKey(m.key)] + (Events(m.value) + MemberEvents(rest));
    }
  }

  /** The first event of a value at the location starts a builder. */
  lemma StepEnters(location: Location, e: Event)
    requires IsStart(e)
    ensures PickStep(location, Idle, Located(location, e)) == (Building(Feed(EMPTY, e), 1), [])
  {
    hide Feed;
  }

  /** The event that closes the value yields it. */
  lemma StepLeaves(location: Location, b: Builder, e: Event, v: Value)
    requires IsEnd(e) && Feed(b, e) == Deliver(EMPTY, v)
    ensures PickStep(location, Building(b, 1), Located(location, e)) == (Idle, [v])
  {
    hide Feed;
  }

  /** A value at the location is built and yielded whole. */
  lemma PickThere(location: Location, j: Json)
    ensures Pick(location, Idle, LocatedTree(j, location)) == (Idle, [Denote(j)])
  {
    hide Pick, FeedAll, Feed, Denote, PickStep;
    FeedValue(EMPTY, j);
    match j
    case Scalar(atom) =>
      PickOne(location, Idle, Located(location, ScalarEvent(atom)));
      FeedOne(EMPTY, ScalarEvent(atom));
      ScalarThere(location, atom);
    case Array(items) =>
      var b1 := Feed(EMPTY, StartArray);
      var b2 := FeedAll(b1, ItemEvents(items));
      ContainerEvents(EMPTY, StartArray, ItemEvents(items), EndArray);
      StepEnters(location, StartArray);
      PickItemsInside(location, b1, 1, items, location);
      StepLeaves(location, b2, EndArray, Denote(j));
      PickContainer(location, Idle, Located(location, StartArray), LocatedItems(items, location), Located(location, EndArray));
    case Object(members) =>
      var b1 := Feed(EMPTY, StartMap);
      var b2 := FeedAll(b1, MemberEvents(members));
      ContainerEvents(EMPTY, StartMap, MemberEvents(members), EndMap);
      StepEnters(location, StartMap);
      PickMembersInside(location, b1, 1, members, location);
      StepLeaves(location, b2, EndMap, Denote(j));
      PickContainer(location, Idle, Located(location, StartMap), LocatedMembers(members, location), Located(location, EndMap));
      assert LocatedTree(j, location)
          == [Located(location, StartMap)] + LocatedMembers(members, location) + [Located(location, EndMap)];
  }

  lemma ScalarThere(location: Location, atom: Atom)
    ensures PickStep(location, Idle, Located(location, ScalarEvent(atom))) == (Idle, [Denote(Scalar(atom))])
  {
  }

  /** From the events of a tree exactly its values at the location are yielded. */
  lemma {:induction false} PickTree(location: Location, j: Json, at: Location)
    ensures Pick(location, Idle, LocatedTree(j, at)) == (Idle, ValuesAt(j, at, location))
    decreases j, 0
  {
    if at == location {
      PickThere(location, j);
    } else {
      hide Pick, PickStep, Denote;
      match j
      case Scalar(atom) =>
        PickOne(location, Idle, Located(at, ScalarEvent(atom)));
      case Array(items) =>
        PickItems(location, items, at);
        PickContainer(location, Idle, Located(at, StartArray), LocatedItems(items, at), Located(at, EndArray));
        Surrounded(ItemValuesAt(items, at, location));
      case Object(members) =>
        PickMembers(location, members, at);
        PickContainer(location, Idle, Located(at, StartMap), LocatedMembers(members, at), Located(at, EndMap));
        Surrounded(MemberValuesAt(members, at, location));
    }
  }

  lemma Surrounded(vs: seq<Value>)
    ensures [] + vs == vs && vs + [] == vs && ([] + vs) + [] == vs && ([] + []) + vs == vs
  {
  }

  lemma {:induction false} PickItems(location: Location, items: seq<Json>, at: Location)
    ensures Pick(location, Idle, LocatedItems(items, at)) == (Idle, ItemValuesAt(items, at, location))
    decreases items, 1
  {
    if items != [] {
      hide Pick;
      PickTree(location, items[0], at + [None]);
      PickItems(location, items[1..], at);
      PickJoin(location, Idle, LocatedTree(items[0], at + [None]), LocatedItems(items[1..], at));
    }
  }

  lemma {:induction false} PickMembers(location: Location, members: seq<Member>, at: Location)
    ensures Pick(location, Idle, LocatedMembers(members, at)) == (Idle, MemberValuesAt(members, at, location))
    decreases members, 1
  {
    if members != [] {
      hide Pick, PickStep;
      var m := members[0];
      var key, value := [Located(at, MapKey(m.key))], LocatedTree(m.value, at + [Some(m.key)]);
      PickOne(location, Idle, Located(at, MapKey(m.key)));
      PickTree(location, m.value, at + [Some(m.key)]);
      PickJoin(location, Idle, key, value);
      Surrounded(ValuesAt(m.value, at + [Some(m.key)], location));
      PickMembers(location, members[1..], at);
      PickJoin(location, Idle, key + value, LocatedMembers(members[1..], at));
      assert LocatedMembers(members, at) == key + value + LocatedMembers(members[1..], at);
    }
  }

  /** The loop of json_items. */
  method JsonItems(ls: seq<Located>, location: Location) returns (items: seq<Value>)
    ensures items == Pick(location, Idle, ls).1
  {
    hide PickStep, Feed;
    items := [];
    var state := Idle;
    ghost var goal := Pick(location, Idle, ls);
    assert ls[0..] == ls && [] + goal.1 == goal.1;
    for i := 0 to |ls|
      invariant goal == (Pick(location, state, ls[i..]).0, items + Pick(location, state, ls[i..]).1)
    {
      assert ls[i..][1..] == ls[i + 1..];
      var (next, found) := PickStep(location, state, ls[i]);
      ghost var rest := Pick(location, next, ls[i + 1..]).1;
      assert items + (found + rest) == (items + found) + rest;
      state, items := next, items + found;
    }
    assert ls[|ls|..] == [];
    assert items + [] == items;
  }

  /** For the event stream of any tree the two loops together yield exactly the values
      at the location, in document order. */
  method ItemsOfDocument(ghost j: Json, events: seq<Event>, location: Location) returns (items: seq<Value>)
    requires events == Events(j)
    ensures items == ValuesAt(j, [], location)
  {
    LocatesTree(j, []);
    var ls := ParseJsonEvents(events);
    PickTree(location, j, []);
    items := JsonItems(ls.value, location);
  }
}
