/**
 The single-pass preview projection: nested loops that advance one cursor over the
 events, equal to a recursive projection of the tree.
 */
module JsonPreview {
  import opened Results
  import opened JsonTree

  /** A row is a dictionary. */
  type Row = seq<Entry>

  predicate Has(row: Row, key: string) {
    exists e <- row :: e.key == key
  }

  function RowOf(v: Value): Row {
    if v.Dict? then v.entries else [Entry("value", v)]
  }

  /** A row of an array section, under the name of its section. */
  function SectionRow(key: string, v: Value): Row {
    var row := RowOf(v);
    [Entry("section", Atomic(Text(key)))] + if Has(row, "section") then [Entry("value", Dict(row))] else row
  }

  ghost predicate IsDictionary(entries: seq<Entry>) {
    forall i, j | 0 <= i < j < |entries| :: entries[i].key != entries[j].key
  }

  lemma {:induction false} NotThere(entries: seq<Entry>, key: string)
    ensures Lookup(entries, key).Some? <==> exists e <- entries :: e.key == key
  {
    if entries != [] {
      NotThere(entries[1..], key);
      assert entries == [entries[0]] + entries[1..];
    }
  }

  /** A row is a dictionary that says which section it comes from, and from which the
      element can be told: its entries, unless one of them would hide the section's name,
      or else the element itself. */
  lemma SectionRowIs(key: string, v: Value)
    requires v.Dict? ==> IsDictionary(v.entries)
    ensures IsDictionary(SectionRow(key, v)) && Lookup(SectionRow(key, v), "section") == Some(Atomic(Text(key)))
    ensures if v.Dict? && Lookup(v.entries, "section").None? then
              forall k :: k != "section" ==> Lookup(SectionRow(key, v), k) == Lookup(v.entries, k)
            else Lookup(SectionRow(key, v), "value") == Some(v)
  {
    var row, rest := SectionRow(key, v), SectionRow(key, v)[1..];
    if v.Dict? {
      NotThere(v.entries, "section");
      if Lookup(v.entries, "section").None? {
        forall i | 0 <= i < |rest|
          ensures rest[i].key != "section"
        {
          assert rest[i] in v.entries;
        }
      }
    }
    assert "section"[0] != "value"[0];
    assert Lookup([Entry("value", v)], "value") == Some(v);
  }

  function RowsOf(items: seq<Json>): seq<Row> {
    if items == [] then [] else [RowOf(Denote(items[0]))] + RowsOf(items[1..])
  }

  function SectionRows(key: string, items: seq<Json>): seq<Row> {
    if items == [] then [] else [SectionRow(key, Denote(items[0]))] + SectionRows(key, items[1..])
  }

  function MemberRows(m: Member): seq<Row> {
    match m.value
    case Array(items) => SectionRows(m.key, items)
    case Object(_) => [[Entry("key", Atomic(Text(m.key))), Entry("value_type", Atomic(Text("object")))]]
    case Scalar(atom) => [[Entry("key", Atomic(Text(m.key))), Entry("value", Atomic(atom))]]
  }

  function MembersRows(members: seq<Member>): seq<Row> {
    if members == [] then [] else MemberRows(members[0]) + MembersRows(members[1..])
  }

  /** Array elements, object sections, or a scalar root, in document order. */
  function Rows(j: Json): seq<Row> {
    match j
    case Array(items) => RowsOf(items)
    case Object(members) => MembersRows(members)
    case Scalar(atom) => [[Entry("value", Atomic(atom))]]
  }

  function Depth(depth: nat, e: Event): nat {
    if e.StartMap? || e.StartArray? then depth + 1
    else if (e.EndMap? || e.EndArray?) && depth > 0 then depth - 1
    else depth
  }

  /** The loop of _value_events feeding a builder, from a depth on: the builder when
      the depth is back at zero, and the events that are left. */
  function Drain(b: Builder, depth: nat, events: seq<Event>): Result<(Builder, seq<Event>), string>
    decreases |events|
  {
    if depth == 0 then Ok((b, events))
    else if events == [] then Err("the events end inside a value")
    else Drain(Feed(b, events[0]), Depth(depth, events[0]), events[1..])
  }

  lemma DrainFirst(b: Builder, depth: nat, e: Event, rest: seq<Event>)
    requires depth > 0
    ensures Drain(b, depth, [e] + rest) == Drain(Feed(b, e), Depth(depth, e), rest)
  {
    hide Feed;
    assert ([e] + rest)[1..] == rest;
  }

  lemma Regroup(open: Event, inner: seq<Event>, close: Event, rest: seq<Event>)
    ensures ([open] + inner + [close]) + rest == [open] + (inner + ([close] + rest))
  {
  }

  /** A whole value leaves the depth where it was. */
  lemma {:induction false} DrainValue(b: Builder, depth: nat, j: Json, rest: seq<Event>)
    requires depth > 0
    ensures Drain(b, depth, Events(j) + rest) == Drain(FeedAll(b, Events(j)), depth, rest)
    decreases j, 0
  {
    hide Drain, Feed, FeedAll;
    match j
    case Scalar(atom) =>
      DrainFirst(b, depth, ScalarEvent(atom), rest);
      FeedOne(b, ScalarEvent(atom));
    case Array(items) =>
      var b1 := Feed(b, StartArray);
      var tail := [EndArray] + rest;
      Regroup(StartArray, ItemEvents(items), EndArray, rest);
      DrainFirst(b, depth, StartArray, ItemEvents(items) + tail);
      DrainItems(b1, depth + 1, items, tail);
      DrainFirst(FeedAll(b1, ItemEvents(items)), depth + 1, EndArray, rest);
      ContainerEvents(b, StartArray, ItemEvents(items), EndArray);
    case Object(members) =>
      var b1 := Feed(b, StartMap);
      var tail := [EndMap] + rest;
      Regroup(StartMap, MemberEvents(members), EndMap, rest);
      DrainFirst(b, depth, StartMap, MemberEvents(members) + tail);
      DrainMembers(b1, depth + 1, members, tail);
      DrainFirst(FeedAll(b1, MemberEvents(members)), depth + 1, EndMap, rest);
      ContainerEvents(b, StartMap, MemberEvents(members), EndMap);
  }

  lemma {:induction false} DrainItems(b: Builder, depth: nat, items: seq<Json>, rest: seq<Event>)
    requires depth > 0
    ensures Drain(b, depth, ItemEvents(items) + rest) == Drain(FeedAll(b, ItemEvents(items)), depth, rest)
    decreases items, 1
  {
    if items == [] {
      assert ItemEvents(items) + rest == rest;
    } else {
      hide Drain, FeedAll;
      var first, others := Events(items[0]), ItemEvents(items[1..]);
      assert (first + others) + rest == first + (others + rest);
      DrainValue(b, depth, items[0], others + rest);
      DrainItems(FeedAll(b, first), depth, items[1..], rest);
      FeedJoin(b, first, others);
    }
  }

  lemma {:induction false} DrainMembers(b: Builder, depth: nat, members: seq<Member>, rest: seq<Event>)
    requires depth > 0
    ensures Drain(b, depth, MemberEvents(members) + rest) == Drain(FeedAll(b, MemberEvents(members)), depth, rest)
    decreases members, 1
  {
    if members == [] {
      assert MemberEvents(members) + rest == rest;
    } else {
      hide Drain, FeedAll, Feed, Events, MemberEvents;
      var m := members[0];
      var first, others := Events(m.value), MemberEvents(members[1..]);
      var named := Feed(b, MapKey(m.key));
      FirstMember(members, rest);
      DrainFirst(b, depth, MapKey(m.key), first + (others + rest));
      DrainValue(named, depth, m.value, others + rest);
      DrainMembers(FeedAll(named, first), depth, members[1..], rest);
      FeedFirst(b, MapKey(m.key), first + others);
      FeedJoin(named, first, others);
    }
  }

  lemma FirstMember(members: seq<Member>, rest: seq<Event>)
    requires members != []
    ensures var m, others := members[0], MemberEvents(members[1..]);
            && MemberEvents(members) == [MapKey(m.key)] + (Events(m.value) + others)
            && MemberEvents(members) + rest == [MapKey(m.key)] + (Events(m.value) + (others + rest))
  {
    hide Events;
    ThreeAndRest([MapKey(members[0].key)], Events(members[0].value), MemberEvents(members[1..]), rest);
  }

  lemma ThreeAndRest(a: seq<Event>, b: seq<Event>, c: seq<Event>, rest: seq<Event>)
    ensures a + b + c == a + (b + c) && a + b + c + rest == a + (b + (c + rest))
  {
  }

  lemma DrainDone(b: Builder, rest: seq<Event>)
    ensures Drain(b, 0, rest) == Ok((b, rest))
  {
  }

  /** From its first event on, a value is consumed exactly. */
  lemma ValueConsumed(j: Json, rest: seq<Event>)
    ensures var events := Events(j) + rest;
            && events != []
            && Drain(Feed(EMPTY, events[0]), Depth(0, events[0]), events[1..]) == Ok((Deliver(EMPTY, Denote(j)), rest))
  {
    hide Drain, Feed, FeedAll, Deliver, Denote;
    FeedValue(EMPTY, j);
    match j
    case Scalar(atom) =>
      FeedOne(EMPTY, ScalarEvent(atom));
      assert ([ScalarEvent(atom)] + rest)[1..] == rest;
      DrainDone(Feed(EMPTY, ScalarEvent(atom)), rest);
    case Array(items) =>
      var b1 := Feed(EMPTY, StartArray);
      Regroup(StartArray, ItemEvents(items), EndArray, rest);
      assert (Events(j) + rest)[1..] == ItemEvents(items) + ([EndArray] + rest);
      DrainItems(b1, 1, items, [EndArray] + rest);
      DrainFirst(FeedAll(b1, ItemEvents(items)), 1, EndArray, rest);
      ContainerEvents(EMPTY, StartArray, ItemEvents(items), EndArray);
      DrainDone(Feed(FeedAll(b1, ItemEvents(items)), EndArray), rest);
    case Object(members) =>
      var b1 := Feed(EMPTY, StartMap);
      Regroup(StartMap, MemberEvents(members), EndMap, rest);
      assert (Events(j) + rest)[1..] == MemberEvents(members) + ([EndMap] + rest);
      DrainMembers(b1, 1, members, [EndMap] + rest);
      DrainFirst(FeedAll(b1, MemberEvents(members)), 1, EndMap, rest);
      ContainerEvents(EMPTY, StartMap, MemberEvents(members), EndMap);
      DrainDone(Feed(FeedAll(b1, MemberEvents(members)), EndMap), rest);
  }

  /** _value_events into a builder: the cursor stands on the first event of a value and
      ends behind its last. */
  method BuildValue(events: seq<Event>, at: nat, ghost j: Json, ghost rest: seq<Event>) returns (value: Value, next: nat)
    requires at < |events| && events[at..] == Events(j) + rest
    ensures value == Denote(j) && at < next <= |events| && events[next..] == rest
  {
    hide Drain, Feed, Deliver, Denote;
    ValueConsumed(j, rest);
    ghost var goal := Drain(Feed(EMPTY, events[at]), Depth(0, events[at]), events[at + 1..]);
    assert events[at..][0] == events[at] && events[at..][1..] == events[at + 1..];
    var builder := Feed(EMPTY, events[at]);
    var depth := Depth(0, events[at]);
    next := at + 1;
    while depth > 0
      invariant at < next <= |events| && goal == Drain(builder, depth, events[next..])
      decreases |events| - next
    {
      NotAtEnd(builder, depth, events[next..], goal);
      var event := events[next];
      assert events[next..] == [event] + events[next + 1..];
      DrainFirst(builder, depth, event, events[next + 1..]);
      builder, depth := Feed(builder, event), Depth(depth, event);
      next := next + 1;
    }
    DrainDone(builder, events[next..]);
    DeliveredValue(Denote(j));
    value := builder.value.value;
  }

  lemma NotAtEnd(b: Builder, depth: nat, events: seq<Event>, goal: Result<(Builder, seq<Event>), string>)
    requires depth > 0 && goal == Drain(b, depth, events) && goal.Ok?
    ensures events != []
  {
  }

  lemma DeliveredValue(v: Value)
    ensures Deliver(EMPTY, v).value == Some(v)
  {
  }

  /** The event a value starts with tells what it is. */
  lemma FirstEvent(j: Json)
    ensures Events(j) != [] && Events(j)[0] != EndArray && Events(j)[0] != EndMap && !Events(j)[0].MapKey?
    ensures Events(j)[0].StartArray? <==> j.Array?
    ensures Events(j)[0].StartMap? <==> j.Object?
    ensures j.Scalar? ==> Events(j) == [ScalarEvent(j.atom)]
  {
  }

  /** Behind the elements of an array: the cursor stands on the first of them. */
  ghost predicate AtItems(events: seq<Event>, at: nat, items: seq<Json>, rest: seq<Event>) {
    at < |events| && events[at..] == ItemEvents(items) + ([EndArray] + rest)
  }

  lemma NextItem(events: seq<Event>, at: nat, items: seq<Json>, rest: seq<Event>)
    requires AtItems(events, at, items, rest)
    ensures events[at] == EndArray <==> items == []
    ensures items == [] ==> events[at + 1..] == rest
    ensures items != [] ==> events[at..] == Events(items[0]) + (ItemEvents(items[1..]) + ([EndArray] + rest))
  {
    assert events[at..][0] == events[at];
    if items == [] {
      assert ItemEvents(items) + ([EndArray] + rest) == [EndArray] + rest;
      assert events[at + 1..] == events[at..][1..];
    } else {
      hide Events;
      FirstEvent(items[0]);
      assert (Events(items[0]) + ItemEvents(items[1..])) + ([EndArray] + rest)
          == Events(items[0]) + (ItemEvents(items[1..]) + ([EndArray] + rest));
    }
  }

  /** _array_rows. */
  method ArrayRows(events: seq<Event>, at: nat, ghost items: seq<Json>, ghost rest: seq<Event>)
    returns (values: seq<Value>, next: nat)
    requires AtItems(events, at, items, rest)
    ensures values == DenoteItems(items) && at < next <= |events| && events[next..] == rest
  {
    hide Events, ItemEvents, Denote;
    values := [];
    next := at;
    ghost var todo := items;
    assert [] + DenoteItems(items) == DenoteItems(items);
    NextItem(events, next, todo, rest);
    while events[next] != EndArray
      invariant at <= next < |events| && AtItems(events, next, todo, rest) && (events[next] == EndArray <==> todo == [])
      invariant values + DenoteItems(todo) == DenoteItems(items)
      decreases |events| - next
    {
      NextItem(events, next, todo, rest);
      ghost var others := todo[1..];
      var value, after := BuildValue(events, next, todo[0], ItemEvents(others) + ([EndArray] + rest));
      assert values + DenoteItems(todo) == (values + [value]) + DenoteItems(others);
      values, next, todo := values + [value], after, others;
      assert events[next..] != [];
      NextItem(events, next, todo, rest);
    }
    NextItem(events, next, todo, rest);
    assert values + [] == values;
    next := next + 1;
  }

  lemma {:induction false} RowsOfValues(items: seq<Json>)
    ensures |RowsOf(items)| == |items| && forall i | 0 <= i < |items| :: RowsOf(items)[i] == RowOf(DenoteItems(items)[i])
  {
    if items != [] {
      RowsOfValues(items[1..]);
    }
  }

  lemma {:induction false} SectionRowsOfValues(key: string, items: seq<Json>)
    ensures |SectionRows(key, items)| == |items|
    ensures forall i | 0 <= i < |items| :: SectionRows(key, items)[i] == SectionRow(key, DenoteItems(items)[i])
  {
    if items != [] {
      SectionRowsOfValues(key, items[1..]);
    }
  }

  ghost predicate AtMembers(events: seq<Event>, at: nat, members: seq<Member>, rest: seq<Event>) {
    at < |events| && events[at..] == MemberEvents(members) + ([EndMap] + rest)
  }

  lemma NextMember(events: seq<Event>, at: nat, members: seq<Member>, rest: seq<Event>)
    requires AtMembers(events, at, members, rest)
    ensures events[at] == EndMap <==> members == []
    ensures members == [] ==> events[at + 1..] == rest
    ensures members != [] ==>
              && events[at] == MapKey(members[0].key) && at + 1 < |events|
              && events[at + 1..] == Events(members[0].value) + (MemberEvents(members[1..]) + ([EndMap] + rest))
  {
    assert events[at..][0] == events[at];
    assert events[at + 1..] == events[at..][1..];
    if members == [] {
      assert MemberEvents(members) + ([EndMap] + rest) == [EndMap] + rest;
    } else {
      hide Events;
      var value, others, tail := Events(members[0].value), MemberEvents(members[1..]), [EndMap] + rest;
      FirstEvent(members[0].value);
      assert ([MapKey(members[0].key)] + value + others) + tail == [MapKey(members[0].key)] + (value + (others + tail));
    }
  }

  lemma InsideArray(events: seq<Event>, at: nat, items: seq<Json>, rest: seq<Event>)
    requires at < |events| && events[at..] == Events(Array(items)) + rest
    ensures AtItems(events, at + 1, items, rest)
  {
    Regroup(StartArray, ItemEvents(items), EndArray, rest);
    assert events[at + 1..] == events[at..][1..];
    assert events[at + 1..] == ItemEvents(items) + ([EndArray] + rest);
    assert |events[at + 1..]| > 0;
  }

  lemma InsideMap(events: seq<Event>, at: nat, members: seq<Member>, rest: seq<Event>)
    requires at < |events| && events[at..] == Events(Object(members)) + rest
    ensures AtMembers(events, at + 1, members, rest)
  {
    Regroup(StartMap, MemberEvents(members), EndMap, rest);
    assert events[at + 1..] == events[at..][1..];
    assert events[at + 1..] == MemberEvents(members) + ([EndMap] + rest);
    assert |events[at + 1..]| > 0;
  }

  /** The rows of one member of a root object; the cursor stands on its value. */
  method OneMember(events: seq<Event>, at: nat, key: string, ghost j: Json, ghost rest: seq<Event>)
    returns (rows: seq<Row>, next: nat)
    requires at < |events| && events[at..] == Events(j) + rest
    ensures rows == MemberRows(Member(key, j)) && at < next <= |events| && events[next..] == rest
  {
    hide Events, ItemEvents, Denote, MemberEvents;
    FirstEvent(j);
    assert events[at..][0] == events[at];
    match events[at] {
      case StartArray =>
        InsideArray(events, at, j.items, rest);
        var values, after := ArrayRows(events, at + 1, j.items, rest);
        SectionRowsOfValues(key, j.items);
        rows := seq(|values|, i requires 0 <= i < |values| => SectionRow(key, values[i]));
        assert rows == SectionRows(key, j.items);
        next := after;
      case StartMap =>
        var _, after := BuildValue(events, at, j, rest);
        rows := [[Entry("key", Atomic(Text(key))), Entry("value_type", Atomic(Text("object")))]];
        next := after;
      case ScalarEvent(atom) =>
        rows := [[Entry("key", Atomic(Text(key))), Entry("value", Atomic(atom))]];
        assert events[at + 1..] == events[at..][1..];
        next := at + 1;
    }
  }

  /** iter_json_rows: every event is consumed once, the rows are those of the tree, and
      anything behind the document is an error. */
  method IterJsonRows(events: seq<Event>, ghost j: Json, ghost extra: seq<Event>) returns (r: Result<seq<Row>, string>)
    requires events == Events(j) + extra
    ensures extra == [] ==> r == Ok(Rows(j))
    ensures extra != [] ==> r.Err?
  {
    hide Events, ItemEvents, MemberEvents, Denote, MemberRows;
    FirstEvent(j);
    assert events[0..] == events;
    var rows: seq<Row> := [];
    var next: nat := 0;
    match events[0] {
      case StartArray =>
        InsideArray(events, 0, j.items, extra);
        var values, after := ArrayRows(events, 1, j.items, extra);
        RowsOfValues(j.items);
        rows := seq(|values|, i requires 0 <= i < |values| => RowOf(values[i]));
        assert rows == RowsOf(j.items);
        next := after;
      case StartMap =>
        InsideMap(events, 0, j.members, extra);
        rows, next := ObjectRows(events, 1, j.members, extra);
      case ScalarEvent(atom) =>
        rows := [[Entry("value", Atomic(atom))]];
        assert events[1..] == extra;
        next := 1;
    }
    assert events[next..] == extra;
    if next < |events| {
      return Err("Unexpected trailing JSON value");
    }
    return Ok(rows);
  }

  /** The loop over the members of a root object. */
  method ObjectRows(events: seq<Event>, at: nat, ghost members: seq<Member>, ghost rest: seq<Event>)
    returns (rows: seq<Row>, next: nat)
    requires AtMembers(events, at, members, rest)
    ensures rows == MembersRows(members) && at < next <= |events| && events[next..] == rest
  {
    hide Events, MemberEvents, MemberRows;
    rows := [];
    next := at;
    ghost var todo := members;
    assert [] + MembersRows(members) == MembersRows(members);
    NextMember(events, next, todo, rest);
    while events[next] != EndMap
      invariant at <= next < |events| && AtMembers(events, next, todo, rest) && (events[next] == EndMap <==> todo == [])
      invariant rows + MembersRows(todo) == MembersRows(members)
      decreases |events| - next
    {
      NextMember(events, next, todo, rest);
      ghost var m, others := todo[0], todo[1..];
      var found, after := OneMember(events, next + 1, events[next].key, m.value, MemberEvents(others) + ([EndMap] + rest));
      assert rows + (MemberRows(m) + MembersRows(others)) == (rows + found) + MembersRows(others);
      rows, next, todo := rows + found, after, others;
      assert events[next..] != [];
      NextMember(events, next, todo, rest);
    }
    NextMember(events, next, todo, rest);
    assert rows + [] == rows;
    next := next + 1;
  }
}
