/**
 JSON documents as trees, the flat event streams a streaming parser makes of them,
 and the builder that turns the events of one value back into a value.
 */
module JsonTree {
  import opened Results

  /** The scalar values; a numeral keeps its text. */
  datatype Atom = Text(text: string) | Number(numeral: string) | Boolean(holds: bool) | Null

  datatype Json = Scalar(atom: Atom) | Array(items: seq<Json>) | Object(members: seq<Member>)

  datatype Member = Member(key: string, value: Json)

  datatype Event = ScalarEvent(atom: Atom) | StartMap | MapKey(key: string) | EndMap | StartArray | EndArray

  function Events(j: Json): seq<Event>
    decreases j, 0
  {
    match j
    case Scalar(atom) => [ScalarEvent(atom)]
    case Array(items) => [StartArray] + ItemEvents(items) + [EndArray]
    case Object(members) => [StartMap] + MemberEvents(members) + [EndMap]
  }

  function ItemEvents(items: seq<Json>): seq<Event>
    decreases items, 1
  {
    if items == [] then [] else Events(items[0]) + ItemEvents(items[1..])
  }

  function MemberEvents(members: seq<Member>): seq<Event>
    decreases members, 1
  {
    if members == [] then []
    else [MapKey(members[0].key)] + Events(members[0].value) + MemberEvents(members[1..])
  }

  /** A built value; a dictionary keeps its entries in the order of their first
      insertion, and a repeated key keeps the last value. */
  datatype Value = Atomic(atom: Atom) | List(items: seq<Value>) | Dict(entries: seq<Entry>)

  datatype Entry = Entry(key: string, value: Value)

  function Insert(entries: seq<Entry>, key: string, v: Value): seq<Entry> {
    if entries == [] then [Entry(key, v)]
    else if entries[0].key == key then [Entry(key, v)] + entries[1..]
    else [entries[0]] + Insert(entries[1..], key, v)
  }

  /** The value under a key. */
  function Lookup(entries: seq<Entry>, key: string): Option<Value> {
    if entries == [] then None
    else if entries[0].key == key then Some(entries[0].value)
    else Lookup(entries[1..], key)
  }

  function Keys(entries: seq<Entry>): (r: seq<string>)
    ensures |r| == |entries| && forall i | 0 <= i < |r| :: r[i] == entries[i].key
  {
    seq(|entries|, i requires 0 <= i < |entries| => entries[i].key)
  }

  /** An insertion changes the value under its own key alone; a new key goes last. */
  lemma {:induction false} InsertIs(entries: seq<Entry>, key: string, v: Value, other: string)
    ensures Lookup(Insert(entries, key, v), other) == if other == key then Some(v) else Lookup(entries, other)
    ensures Keys(Insert(entries, key, v)) == if key in Keys(entries) then Keys(entries) else Keys(entries) + [key]
  {
    if entries != [] {
      InsertIs(entries[1..], key, v, other);
      var after := Insert(entries, key, v);
      assert Keys(entries) == [entries[0].key] + Keys(entries[1..]);
      if entries[0].key == key {
        assert entries[0].key == Keys(entries)[0];
        assert Keys(after) == Keys(entries);
      } else {
        assert after[1..] == Insert(entries[1..], key, v);
        assert Keys(after) == [entries[0].key] + Keys(Insert(entries[1..], key, v));
      }
    }
  }

  /** The value of the last of several members with one key. */
  function LastMember(members: seq<Member>, key: string): Option<Json> {
    if members == [] then None
    else if members[|members| - 1].key == key then Some(members[|members| - 1].value)
    else LastMember(members[..|members| - 1], key)
  }

  function Denoted(j: Option<Json>): Option<Value> {
    match j
    case None => None
    case Some(it) => Some(Denote(it))
  }

  lemma {:induction false} DenoteLonger(members: seq<Member>, m: Member, entries: seq<Entry>)
    ensures DenoteMembers(members + [m], entries) == Insert(DenoteMembers(members, entries), m.key, Denote(m.value))
  {
    if members == [] {
      assert members + [m] == [m] && [m][1..] == [];
    } else {
      assert (members + [m])[1..] == members[1..] + [m];
      DenoteLonger(members[1..], m, Insert(entries, members[0].key, Denote(members[0].value)));
    }
  }

  /** An object denotes a dictionary of distinct keys, and under each key the value of
      its last member with that key. */
  lemma {:induction false} DenotesLast(members: seq<Member>, key: string)
    ensures Lookup(DenoteMembers(members, []), key) == Denoted(LastMember(members, key))
    ensures var keys := Keys(DenoteMembers(members, [])); forall i, j | 0 <= i < j < |keys| :: keys[i] != keys[j]
    decreases |members|
  {
    if members != [] {
      var k := |members| - 1;
      var m, front := members[k], members[..k];
      assert members == front + [m];
      DenotesLast(front, key);
      DenoteLonger(front, m, []);
      InsertIs(DenoteMembers(front, []), m.key, Denote(m.value), key);
    }
  }

  function Denote(j: Json): Value
    decreases j, 0
  {
    match j
    case Scalar(atom) => Atomic(atom)
    case Array(items) => List(DenoteItems(items))
    case Object(members) => Dict(DenoteMembers(members, []))
  }

  function DenoteItems(items: seq<Json>): (r: seq<Value>)
    ensures |r| == |items|
    decreases items, 1
  {
    if items == [] then [] else [Denote(items[0])] + DenoteItems(items[1..])
  }

  function DenoteMembers(members: seq<Member>, entries: seq<Entry>): seq<Entry>
    decreases members, 1
  {
    if members == [] then entries
    else DenoteMembers(members[1..], Insert(entries, members[0].key, Denote(members[0].value)))
  }

  datatype Frame = ListFrame(items: seq<Value>) | DictFrame(entries: seq<Entry>, key: string)

  /** ijson's ObjectBuilder: the open containers, and the finished value. */
  datatype Builder = Builder(stack: seq<Frame>, value: Option<Value>)

  const EMPTY: Builder := Builder([], None)

  /** A finished value goes into the innermost open container. */
  function Deliver(b: Builder, v: Value): Builder {
    if b.stack == [] then Builder([], Some(v))
    else
      var k := |b.stack| - 1;
      match b.stack[k]
      case ListFrame(items) => b.(stack := b.stack[k := ListFrame(items + [v])])
      case DictFrame(entries, key) => b.(stack := b.stack[k := DictFrame(Insert(entries, key, v), key)])
  }

  function Feed(b: Builder, e: Event): Builder {
    match e
    case ScalarEvent(atom) => Deliver(b, Atomic(atom))
    case StartMap => b.(stack := b.stack + [DictFrame([], "")])
    case StartArray => b.(stack := b.stack + [ListFrame([])])
    case MapKey(key) =>
      if b.stack != [] && b.stack[|b.stack| - 1].DictFrame? then
        b.(stack := b.stack[|b.stack| - 1 := b.stack[|b.stack| - 1].(key := key)])
      else b
    case EndMap => Close(b)
    case EndArray => Close(b)
  }

  function Close(b: Builder): Builder {
    if b.stack == [] then b
    else
      var k := |b.stack| - 1;
      var v := match b.stack[k] case ListFrame(items) => List(items) case DictFrame(entries, _) => Dict(entries);
      Deliver(b.(stack := b.stack[..k]), v)
  }

  function FeedAll(b: Builder, events: seq<Event>): Builder
    decreases |events|
  {
    if events == [] then b else FeedAll(Feed(b, events[0]), events[1..])
  }

  lemma {:induction false} FeedJoin(b: Builder, p: seq<Event>, q: seq<Event>)
    ensures FeedAll(b, p + q) == FeedAll(FeedAll(b, p), q)
    decreases |p|
  {
    hide Feed;
    if p == [] {
      assert p + q == q;
    } else {
      FeedJoin(Feed(b, p[0]), p[1..], q);
      assert (p + q)[1..] == p[1..] + q;
    }
  }

  lemma FeedFirst(b: Builder, e: Event, rest: seq<Event>)
    ensures FeedAll(b, [e] + rest) == FeedAll(Feed(b, e), rest)
  {
    hide Feed;
    assert ([e] + rest)[1..] == rest;
  }

  lemma FeedOne(b: Builder, e: Event)
    ensures FeedAll(b, [e]) == Feed(b, e)
  {
    hide Feed;
  }

  lemma ContainerEvents(b: Builder, open: Event, inner: seq<Event>, close: Event)
    ensures FeedAll(b, [open] + inner + [close]) == Feed(FeedAll(Feed(b, open), inner), close)
  {
    hide *;
    FeedJoin(b, [open] + inner, [close]);
    FeedFirst(b, open, inner);
    FeedOne(FeedAll(Feed(b, open), inner), close);
  }

  /** Fed the events of a tree, the builder delivers the value it denotes. */
  lemma {:induction false} FeedValue(b: Builder, j: Json)
    ensures FeedAll(b, Events(j)) == Deliver(b, Denote(j))
    decreases j, 0
  {
    match j
    case Scalar(atom) =>
      FeedOne(b, ScalarEvent(atom));
    case Array(items) =>
      ContainerEvents(b, StartArray, ItemEvents(items), EndArray);
      FeedItems(b, [], items);
    case Object(members) =>
      ContainerEvents(b, StartMap, MemberEvents(members), EndMap);
      var _ := FeedMembers(b, [], "", members);
  }

  lemma {:induction false} FeedItems(b: Builder, done: seq<Value>, items: seq<Json>)
    ensures FeedAll(b.(stack := b.stack + [ListFrame(done)]), ItemEvents(items))
         == b.(stack := b.stack + [ListFrame(done + DenoteItems(items))])
    ensures Close(b.(stack := b.stack + [ListFrame(done + DenoteItems(items))])) == Deliver(b, List(done + DenoteItems(items)))
    ensures done == [] ==> done + DenoteItems(items) == DenoteItems(items)
    decreases items, 1
  {
    var open := b.(stack := b.stack + [ListFrame(done)]);
    assert b.(stack := b.stack + [ListFrame(done + DenoteItems(items))]).stack[..|b.stack|] == b.stack;
    if items == [] {
      assert done + [] == done;
    } else {
      hide FeedAll, Denote;
      FeedJoin(open, Events(items[0]), ItemEvents(items[1..]));
      FeedValue(open, items[0]);
      assert Deliver(open, Denote(items[0])) == b.(stack := b.stack + [ListFrame(done + [Denote(items[0])])]);
      FeedItems(b, done + [Denote(items[0])], items[1..]);
      assert done + DenoteItems(items) == (done + [Denote(items[0])]) + DenoteItems(items[1..]);
    }
  }

  lemma {:induction false} FeedMembers(b: Builder, entries: seq<Entry>, key: string, members: seq<Member>) returns (last: string)
    ensures FeedAll(b.(stack := b.stack + [DictFrame(entries, key)]), MemberEvents(members))
         == b.(stack := b.stack + [DictFrame(DenoteMembers(members, entries), last)])
    decreases members, 1
  {
    var open := b.(stack := b.stack + [DictFrame(entries, key)]);
    if members == [] {
      last := key;
    } else {
      hide Events, Deliver;
      var m, rest := members[0], members[1..];
      assert members == [m] + rest;
      var named := b.(stack := b.stack + [DictFrame(entries, m.key)]);
      MemberFed(b, entries, key, m, rest);
      FeedValue(named, m.value);
      DeliverNamed(b, entries, m.key, Denote(m.value));
      last := FeedMembers(b, Insert(entries, m.key, Denote(m.value)), m.key, rest);
    }
  }

  lemma DeliverNamed(b: Builder, entries: seq<Entry>, key: string, v: Value)
    ensures Deliver(b.(stack := b.stack + [DictFrame(entries, key)]), v)
         == b.(stack := b.stack + [DictFrame(Insert(entries, key, v), key)])
  {
  }

  lemma MemberFed(b: Builder, entries: seq<Entry>, key: string, m: Member, rest: seq<Member>)
    ensures var open := b.(stack := b.stack + [DictFrame(entries, key)]);
            var named := b.(stack := b.stack + [DictFrame(entries, m.key)]);
            FeedAll(open, MemberEvents([m] + rest)) == FeedAll(FeedAll(named, Events(m.value)), MemberEvents(rest))
  {
    hide FeedAll, Events;
    var open := b.(stack := b.stack + [DictFrame(entries, key)]);
    var named := b.(stack := b.stack + [DictFrame(entries, m.key)]);
    assert ([m] + rest)[1..] == rest;
    var tail := Events(m.value) + MemberEvents(rest);
    assert MemberEvents([m] + rest) == [MapKey(m.key)] + tail;
    FeedFirst(open, MapKey(m.key), tail);
    assert Feed(open, MapKey(m.key)) == named;
    FeedJoin(named, Events(m.value), MemberEvents(rest));
  }
}
